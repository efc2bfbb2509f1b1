# BLISS in Dafny: the integer core of blissb

This project models the integer core of blissb. blissb is a Rust
implementation of the BLISS lattice signature scheme over the ring
Z_Q[x]/(x^N + 1). The model covers:

- the number-theoretic transform kernels of `src/ntt.rs`: `muln`, `sqrn`,
  `pwr`, the in-place `fft` with its bit-reversal pass, `xmu`, `cmu` and
  `flp`;
- the helpers of `src/utils.rs` and of its uncompiled twin `src/poly.rs`:
  `vecabsmax`, `vecscalar`, `uniform_poly`, the challenge oracle
  `c_oracle`, and the greedy combiner `greedy_sc`;
- the integer steps of `src/bliss.rs`: key generation, `public`, signing,
  verification, and the export/import of keys and signatures;
- the five parameter presets and the twist tables W and R of
  `src/param.rs`.

Rust's machine arithmetic is written out:

- `%` truncates toward zero (`Arith.RemT`);
- `>>` on a signed value floors (`Arith.Shr`);
- `as u32` keeps the low 32 bits (`Codec.Unsigned`);
- the i32 shifts and sums of the verifier's norm tests wrap
  (`Arith.WrapI32`), as in a release build. Only the tests as written,
  `Verifying.InfRejects` and `Verifying.L2RejectsAsWritten`, wrap.
  `Verifying.Verify` is the corrected verifier and uses the exact L2 test
  `Verifying.L2Rejects` (see Findings).

`src/bliss.rs` calls `fft`, `xmu`, `cmu` and `flp` with fewer arguments
than `src/ntt.rs` declares: bliss.rs:44-45 and 61-63 leave out the n, q
(and for `fft`, w) of ntt.rs:27, 62, 68 and 75, so the crate as given does
not build. The model supplies n = N, q = Q and w = W at those calls.

Randomness is an input:

- the u64 draws of `uniform_poly` are a sequence of naturals;
- each signing attempt takes a `Signing.Draw` holding the Gaussian vectors
  as truncated integers, the coin, and the outcome of the floating-point
  acceptance test.

SHA3-512 is an uninterpreted function `H` from bytes to 64-byte digests.
The oracle models exactly the bytes it is fed:

- the hash;
- each entry of w as a big-endian u16;
- the round number.

The bit packing of the `bitpack` crate is modelled at the level of fields.
An export is the sequence of field values with their widths. A write
fails when a value does not fit its width. An import reads the fields back.

Modules, one per file: `Arith`, `Tables`, `Params`, `BitRev`, `Ntt`,
`Norms`, `Sampler`, `Oracle`, `Combiner`, `Scheme`, `Keygen`, `Signing`,
`Verifying`, `Codec`.

Where the code and the BLISS algorithm it implements disagree, the model
follows the code:

- the accumulators x and y of `greedy_sc` are never cleared between
  signing attempts (bliss.rs:89, 125), so each attempt adds to the previous
  ones (`Signing.CarryAfter`);
- signing combines the challenge with `greedy_sc` as written, including
  its misplaced wrap-around update (`Signing.Carry` uses
  `Combiner.GreedyAsWritten`, `Signing.Attempt` calls
  `Combiner.GreedyScAsWritten`);
- the buffer f of key generation is never cleared between attempts
  (bliss.rs:47-48), so each candidate keeps the nonzero entries of the
  previous ones (`Keygen.Generate`);
- an oracle failure during signing skips to the next attempt
  (bliss.rs:124) instead of failing the signature;
- `Signature::import` takes any byte string long enough and ignores what
  follows the index fields (bliss.rs:298-317), so
  `Codec.SignatureImportRoundTrip` only gives back the consumed prefix;
- in preset O the index field has 9 bits but N = 256, so a decoded index
  can reach past the end of v in `verify`. The model gives that case its
  own verdict, `IndexOutOfRange`, standing for the panic.

## Model

| member | source | states |
|---|---|---|
| Arith.WrapI32 | src/bliss.rs:206-209 | the i32 result of a shift or sum is the unique i32 value congruent to the exact result modulo 2^32, and equals it when that fits |
| Arith.Shr | src/bliss.rs:121 | `>>` by k on a signed value gives the largest r with r·2^k <= a, rounding toward negative infinity |
| Arith.RemT | src/ntt.rs:1-3 | Rust `%`: the remainder differs from the dividend by a multiple of the divisor, is smaller in magnitude, and takes the dividend's sign |
| Tables.Entries256 | src/param.rs:72-141 | every entry of the N = 256 tables obeys W[i] = W[i-1]·W[1] mod Q and R[i] = R[0]·W[i] mod Q |
| Tables.Entries512 | src/param.rs:151-289 | every entry of the N = 512 tables obeys W[i] = W[i-1]·W[1] mod Q and R[i] = R[0]·W[i] mod Q |
| Params.Padding | src/param.rs:30-31 | `4 - (c % 4)` pads the index bytes to a multiple of four with 1 to 4 bytes, a full 4 when already aligned |
| Params.AllPresetsValid | src/param.rs:35-68 | every preset has odd Q > 2, N a power of two, P·2^D = 2Q - 2, 1 <= KAPPA <= N, NZ1 + NZ2 <= N, index fields that can hold N - 1, A_BITS that can hold Q - 1, and N·Q within i32 |
| Params.TablesOfPreset | src/param.rs:71-289 | each preset's tables satisfy both recurrences, W[N/2]^2 = -1 and R[0]·N = -1 modulo Q |
| Params.Tables256 | src/param.rs:71-141 | the N = 256 tables of preset O satisfy all table conditions |
| Params.Recurrences256 | src/param.rs:72-141 | both recurrences hold at every index of the N = 256 tables |
| Params.Tables512 | src/param.rs:145-289 | the N = 512 tables satisfy all table conditions |
| Params.Recurrences512 | src/param.rs:151-289 | both recurrences hold at every index of the N = 512 tables |
| Params.TableEntriesReduced | src/param.rs:72-289 | every table entry is a reduced residue in [0, Q) |
| Params.TwiddlePowers | src/param.rs:151-216 | W[i] is congruent to W[1]^i modulo Q |
| Params.TwiddleOrder | src/param.rs:151-216 | W[1]^N is congruent to -1: W[1] is a primitive 2N-th root of unity, as the negacyclic transform needs |
| Params.UntwistScale | src/param.rs:224-289 | for every preset, the first R table entry times N is congruent to -1 modulo Q (30·256 = 7681 - 1, 24·512 = 12289 - 1), read from the table literals; this is the scaling the inverse transform and `flp` rely on |
| Params.BufferLengths | src/param.rs:27-31 | for every preset the signature buffer holds all T, Z and index fields and is a multiple of 4 bytes, and the key buffers are exactly their fields' bits |
| BitRev.Rev | src/ntt.rs:28-37 | the L-bit reversal of x lies below 2^L |
| BitRev.FlipBit | src/ntt.rs:33-35 | `j ^= k` on a power of two k clears the bit when set and sets it when clear |
| BitRev.RevBit | src/ntt.rs:28-37 | bit b of the reversal is bit L-1-b of x |
| BitRev.RevInvolution | src/ntt.rs:28-37 | reversing twice gives back any x below 2^L |
| BitRev.RevAllOnes | src/ntt.rs:29 | only 2^L - 1 reverses to 2^L - 1, which is why the swap loop can stop at N - 2 |
| BitRev.RevOfZero | src/ntt.rs:29 | 0 reverses to 0, so slot 0 never moves |
| BitRev.RevOfOne | src/ntt.rs:28 | 1 reverses to N/2, the initial value `j = n >> 1` |
| BitRev.RevIncCorrect | src/ntt.rs:31-36 | the inner `k >>= 1; j ^= k` loop turns Rev(x) into Rev(x + 1) |
| BitRev.BitRevPermInvolution | src/ntt.rs:28-37 | applying the permutation twice is the identity |
| Ntt.TruncRemUnique | src/ntt.rs:1-3 | a truncated remainder of a by m is unique |
| Ntt.MulN | src/ntt.rs:1-3 | `muln` is the truncated remainder of x·y by n |
| Ntt.MulNInRange | src/ntt.rs:1-3 | for i32 operands the i64 product cannot overflow and the result fits i32 |
| Ntt.SqrN | src/ntt.rs:5-7 | `sqrn` is congruent to x^2 modulo n and lies in [0, \|n\|) |
| Ntt.Pwr | src/ntt.rs:9-25 | corrected square-and-multiply: for e >= 0 the result is congruent to x^e modulo n; e = 0 gives 1 and e = 1 gives x, and a negative e skips the loop and gives x or 1 by its low bit |
| Ntt.PwrLoopAsWrittenNeverExits | src/ntt.rs:17-22 | with e > 0 the loop as written never ends, because e is never shifted |
| Ntt.PwrAsWritten | src/ntt.rs:9-25 | `pwr` as written: for e >= 2 it returns for no bound on the iterations; for e <= 1 the loop is never entered and the result is x or 1 by the low bit of e |
| Ntt.PairInRange | src/ntt.rs:43-47 | the butterfly partner k + i of a lower index lies inside v |
| Ntt.TwiddleIndexInRange | src/ntt.rs:49-50 | the twiddle index j·(n/i) stays below n |
| Ntt.StageBound | src/ntt.rs:43-56 | one butterfly stage at most doubles the largest magnitude |
| Ntt.StagesBound | src/ntt.rs:39-59 | after all stages every entry is below N·Q in magnitude |
| Ntt.RevIncrement | src/ntt.rs:31-36 | the inner loop of the bit-reversal pass computes Rev(i + 1) from Rev(i) |
| Ntt.BitReverse | src/ntt.rs:28-37 | the swap loop produces exactly the bit-reversal permutation |
| Ntt.ButterflyOffsetZero | src/ntt.rs:43-47 | the untwiddled loop performs the butterflies of offset 0 of a stage and nothing else |
| Ntt.ButterflyOffset | src/ntt.rs:49-55 | the loop for offset j performs the twiddled butterflies of that offset and nothing else |
| Ntt.StageAt | src/ntt.rs:43-55 | the stage maps the pair (k, k+i) to (v[k] + x, v[k] - x) with x the twiddled partner |
| Ntt.FftStage | src/ntt.rs:40-58 | one pass of the outer loop computes one stage of the reference transform |
| Ntt.Fft | src/ntt.rs:27-60 | `fft` equals the reference transform (bit reversal, then log2 N stages); from inputs below Q in magnitude all outputs are below N·Q |
| Ntt.StagesStep | src/ntt.rs:39-59 | one stage followed by the rest is the transform from that stage on, and keeps the magnitude bound |
| Ntt.Xmu | src/ntt.rs:62-66 | each of the first n entries is the truncated remainder of t[i]·u[i] by q; the rest of v is untouched |
| Ntt.Cmu | src/ntt.rs:68-73 | each of the first n entries is the least residue of c·t[i] modulo q; the rest is untouched |
| Ntt.CmuEntry | src/ntt.rs:70-71 | adding q to a negative truncated remainder gives the least residue |
| Ntt.Reduce1Props | src/ntt.rs:85-88 | one conditional add or subtract of q keeps the residue and reduces any x in [-q, 2q) into [0, q) |
| Ntt.FftCong | src/ntt.rs:27-60 | the transform maps entrywise congruent inputs modulo q to entrywise congruent outputs |
| Ntt.Flp | src/ntt.rs:75-90 | `flp` puts -v[0] first and v[n-i] at i, modulo q, and for entries in (-q, q) yields least residues |
| Norms.VecAbsMax | src/utils.rs:8-12 | the result bounds every absolute entry and is attained by one, or is 0 for the empty vector |
| Norms.DotSplit | src/utils.rs:14-20 | an inner-product sum splits at any point |
| Norms.VecScalarSymmetric | src/poly.rs:11-17 | `vecscalar` is symmetric and a self product is nonnegative |
| Norms.VecScalarZippedPrefix | src/utils.rs:14-20 | `zip` stops at the shorter vector: the product only reads the common prefix |
| Norms.VecScalarSelfBound | src/utils.rs:14-20 | the self product is at most N times the square of `vecabsmax` |
| Norms.ConstantNorms | src/poly.rs:5-17 | both norms of a constant vector |
| Norms.DotExpand | src/bliss.rs:127-137 | the square norm of x + s·a expands into the norms of x and a and their cross term |
| Sampler.Slot | src/utils.rs:26 | `(x >> 1) % N` is an index into v |
| Sampler.ZeroCountUpdate | src/utils.rs:27-29 | filling a zero slot lowers the zero count by one |
| Sampler.PlaceSpecWrites | src/utils.rs:23-31 | a finished placement loop of the draw-by-draw reference `Sampler.PlaceSpec` wrote ±c into exactly `count` slots that were zero, and the zero count drops by `count` |
| Sampler.PlaceSpecFirst | src/utils.rs:24-30 | each slot the placement loop changes holds the signed value of the first draw that selected it (slot `(x >> 1) % N`, positive when x is odd), and every slot a read draw selected is nonzero at the end |
| Sampler.Place | src/utils.rs:23-31 | the placement loop returns exactly what the reference `Sampler.PlaceSpec` gives for the stream: the vector and the number of draws read, None only once the stream is exhausted; it fills exactly `count` zero slots with ±c and changes nothing else |
| Sampler.UniformSpecProps | src/utils.rs:22-42 | the reference `uniform_poly` (the NZ1 loop, then the NZ2 loop on the rest of the stream) changes only zero slots, into {-2, -1, 1, 2}, with exactly NZ1 entries of magnitude 1 and NZ2 of magnitude 2 |
| Sampler.UniformSpecFirst | src/utils.rs:22-42 | each slot `uniform_poly` changes was set by the first draw that selected it, and is positive exactly when that draw is odd |
| Sampler.UniformPoly | src/poly.rs:19-40 | `uniform_poly` returns exactly the reference `Sampler.UniformSpec` result for the stream; it fills exactly NZ1 zero slots with ±1 and NZ2 with ±2 and changes nothing else; running out of draws is reported |
| Sampler.UniformFromZero | src/utils.rs:22-42 | from the zero vector the result has exactly NZ1 + NZ2 nonzero entries |
| Oracle.Be16 | src/utils.rs:54 | `w[i] as u16` written big-endian: the two bytes encode w[i] mod 2^16 |
| Oracle.Chunk | src/utils.rs:62 | each digest chunk gives an index below N |
| Oracle.DedupProps | src/utils.rs:63-69 | keeping first occurrences gives pairwise distinct values, drawn from the input, missing none |
| Oracle.OracleSpecIndices | src/utils.rs:44-75 | a successful oracle yields KAPPA pairwise distinct indices below N |
| Oracle.EarlyExit | src/utils.rs:64-68 | reaching KAPPA indices mid-digest returns exactly those indices |
| Oracle.ScanDigest | src/utils.rs:61-71 | the scan of one digest with the flag array adds exactly the new candidates, stopping at KAPPA |
| Oracle.COracle | src/utils.rs:44-75 | `c_oracle` returns the first KAPPA distinct candidates over the 65535 rounds, or fails when there are fewer |
| Combiner.NegRotNorm | src/utils.rs:81-86 | rotation keeps the square norm |
| Combiner.Correlate | src/utils.rs:79-86 | the two sums compute the correlation of x^i·(f, g) with (x, y) |
| Combiner.UpdateHead | src/utils.rs:89-92 | the first update loop adds s·x^i·f to x and s·x^i·g to y on the slots from i up |
| Combiner.UpdateWrap | src/utils.rs:93-96 | corrected wrap loop: adds s·x^i·f to x and s·x^i·g to y below i |
| Combiner.UpdateWrapAsWritten | src/utils.rs:93-96 | the wrap loop as written adds both f and g into x and leaves y as it was |
| Combiner.AxpySplit | src/utils.rs:89-96 | the head and wrap updates together add s·a everywhere |
| Combiner.GreedySc | src/utils.rs:77-108 | corrected `greedy_sc`: for each index, subtract x^i·(f, g) when the correlation is positive, else add it |
| Combiner.GreedyScAsWritten | src/utils.rs:77-108 | `greedy_sc` as written, with g added into x in the wrap loops |
| Combiner.StepNorm | src/utils.rs:88-106 | for the intended step (the wrap loops corrected), the chosen direction never raises the square norm by more than that of (f, g); the step as written does not keep this bound (`Combiner.AsWrittenDiffers`) |
| Combiner.Greedy | src/utils.rs:77-108 | the intended combiner over a list of indices: after k steps the square norm of (x, y) has grown by at most k times that of (f, g) |
| Combiner.GreedyAsWritten | src/utils.rs:77-108 | the combiner as written agrees with the intended one whenever no index wraps a nonzero coefficient of g |
| Combiner.StepAgrees | src/utils.rs:93-104 | one step as written equals the intended step when the wrapped coefficients of g are zero |
| Combiner.FirstStepAdds | src/utils.rs:88-101 | from zero accumulators the correlation `sgn` is 0, so the first step adds: the intended step gives x^i·(f, g); the step as written gives x = x^i·f plus the wrapped part of x^i·g, and y = x^i·g from index i on |
| Combiner.AsWrittenKeepsLowY | src/utils.rs:93-96 | as written, y below i is never updated |
| Combiner.AsWrittenDiffers | src/utils.rs:93-95 | a two-coefficient input on which the code as written and the corrected combiner differ |
| Scheme.CommitRange | src/bliss.rs:108-113 | after `flp` every commitment entry is in [0, Q) |
| Scheme.CommitSteps | src/bliss.rs:216-221 | the six kernel calls compute the commitment, entries in [0, Q) |
| Scheme.FoldEven | src/bliss.rs:224-226 | an odd residue plus Q is even, congruent, and below 2Q |
| Scheme.RoundD | src/bliss.rs:121 | `(x + 2^(D-1)) >> D` rounds x/2^D to nearest, halves up |
| Scheme.RoundP | src/bliss.rs:153 | the rounding reduced with `% P` stays congruent and, for x >= 0, is in [0, P) |
| Scheme.Center | src/bliss.rs:156-157 | one add or subtract of P keeps the residue and centres a value of (-P, P) into [-P/2, P/2] |
| Scheme.FinalZ | src/bliss.rs:148-158 | the final z coefficient is congruent to the difference of the two roundings and is centred when its inputs are in range |
| Scheme.LeastResidue | src/bliss.rs:67-70 | `x % Q`, plus Q when negative, is the least residue |
| Scheme.Recombine | src/bliss.rs:233-236 | the recombined entry is in [0, P) and congruent to the rounding plus z |
| Keygen.ShapeG | src/bliss.rs:39-43 | g = 2s, minus 1 at index 0: odd constant term, all other coefficients even |
| Keygen.ShapeRoundTrip | src/bliss.rs:39-43 | shaping is undone by unshaping, and every vector with that parity pattern is a shaping |
| Keygen.Invert | src/bliss.rs:52-56 | the loop accepts exactly when no transformed coefficient is 0 mod Q, and then replaces each by a value congruent to its (Q-2)-th power; this uses the corrected `pwr` (as written, `pwr(x, Q - 2, Q)` never returns) |
| Keygen.PublicSteps | src/bliss.rs:58-70 | the public vector computation ends with least residues in [0, Q) |
| Keygen.PublicCong | src/bliss.rs:58-70 | reduced modulo Q, the public vector depends only on the inverses modulo Q |
| Keygen.DrawF | src/bliss.rs:48 | a redraw into the uncleared f fills NZ1 + NZ2 more zero slots with ±1/±2; the candidate and the stream position after it are those of `Sampler.UniformSpec` on the rest of the stream; with fewer zero slots than that no stream of draws finishes it |
| Keygen.DrawG | src/bliss.rs:39-45 | g is `Keygen.GOf`, the shaping of the first `uniform_poly` result of the stream; it has the shaping's parity pattern, comes from exactly NZ1 + NZ2 sparse entries, and t is the twisted transform of g |
| Keygen.DrawNextF | src/bliss.rs:47-48 | the next redraw extends the run of candidates that `Keygen.Drawn` defines from the stream by one, or shows that the stream holds no further candidate |
| Keygen.Finish | src/bliss.rs:49-71 | an attempt succeeds exactly when the transform of f is invertible, and then a is the public vector `Keygen.PublicOf` built from the exact inverses, reduced into [0, Q); inversion uses the corrected `pwr` |
| Keygen.Candidate | src/bliss.rs:47-71 | one attempt: the drawn candidate is the stream's next one, it is rejected exactly when not invertible, and an accepted one yields a key from g and that candidate with all the facts of `Keygen.Produced` |
| Keygen.Round | src/bliss.rs:47-73 | one pass of the `'f` loop from a state between attempts (`Keygen.Between`): the stream ends with no further candidate, or the candidate yields a key, or the loop reaches the next such state with the candidate appended; the buffer gains NZ1 + NZ2 nonzero entries |
| Keygen.Attempts | src/bliss.rs:47-75 | the `'f` loop as written: the candidates are the stream's run, all but an accepted last one not invertible; a key's f has weight attempts·(NZ1 + NZ2) <= N; the error comes after 1024 attempts |
| Keygen.FreshAttempts | src/bliss.rs:47-75 | the loop with f cleared before each draw: the candidates are the stream's run, each with exactly NZ1 + NZ2 nonzero entries, all but an accepted last one not invertible; the error comes after 1024 attempts |
| Keygen.Generate | src/bliss.rs:30-76 | `PrivateKey::new` as written (with the corrected `pwr`): an issued key's g is `Keygen.GOf` of the stream (and a stream with no g gives `OutOfDraws`), and the candidates are exactly the first ones of the stream's run `Keygen.Drawn`; `OutOfDraws` comes only when the whole stream is read and holds no further candidate, otherwise `used` is the position after the last candidate; every candidate before the last was not invertible; a produced key has g shaped, t and a as computed from g and f, f invertible with entries in {-2..2} and weight attempts·(NZ1 + NZ2) <= N; with NZ1 + NZ2 >= 1 and N < 1024 the 1024-attempt error cannot happen |
| Keygen.GenerateFresh | src/bliss.rs:30-76 | corrected `PrivateKey::new` with f cleared before each draw: g and the candidates are determined by the stream as in `Keygen.Generate`; every candidate has exactly NZ1 + NZ2 nonzero entries, all but an accepted last one were not invertible, the key is produced on attempt `attempts` (at most 1024) with a consistent public key, and the error comes only after 1024 rejected candidates |
| Signing.FoldEntry | src/bliss.rs:116-120 | the fold of v and u is in [0, 2Q), congruent to v + u mod Q, and to u mod 2 |
| Signing.FoldUnique | src/bliss.rs:116-120 | those three facts determine the fold: it is the Chinese-remainder lift |
| Signing.Folded | src/bliss.rs:115-120 | the fold, entry by entry |
| Signing.Rounded | src/bliss.rs:121 | the oracle input: each rounding reduced into [0, P) |
| Signing.FoldedCommit | src/bliss.rs:108-120 | the folded commitment lies in [0, 2Q) |
| Signing.Challenge | src/bliss.rs:124 | a challenge has KAPPA distinct indices below N |
| Signing.ChallengesOf | src/bliss.rs:102-124 | one challenge per attempt, all well formed |
| Signing.Carry | src/bliss.rs:124-125 | an attempt whose oracle failed leaves x and y alone; otherwise they move by `greedy_sc` as written, which is the intended combination, with its norm bound, when no index wraps a nonzero coefficient of g |
| Signing.CarryAfter | src/bliss.rs:89-125 | x and y start at zero and stay zero until an oracle call succeeds |
| Signing.CarryPrefix | src/bliss.rs:89-125 | the accumulators after k attempts depend only on the first k challenges |
| Signing.Finalised | src/bliss.rs:148-159 | each final z is congruent to the difference of roundings and centred when u <= 2Q |
| Signing.SignatureOf | src/bliss.rs:127-161 | the returned signature carries the attempt's challenge |
| Signing.FoldRound | src/bliss.rs:115-122 | the fold loop computes the folded commitment and its rounding |
| Signing.Adjust | src/bliss.rs:127-137 | t and u move by s·(x, y) |
| Signing.Finalise | src/bliss.rs:148-159 | the last loop computes the final z |
| Signing.Attempt | src/bliss.rs:103-161 | an attempt carries x and y forward through `greedy_sc` as written and yields a signature exactly when the oracle succeeds and the draw accepts |
| Signing.RejectedStep | src/bliss.rs:102-146 | one more rejected attempt extends the rejected prefix |
| Signing.Sign | src/bliss.rs:86-165 | the signature comes from the first accepted attempt after a prefix of rejected ones, with x and y accumulated by `greedy_sc` as written over all attempts so far; the error only after 1024 rejections |
| Verifying.InfRejectsExact | src/bliss.rs:206 | the infinity test as written, with its i32 shift, is the exact test whenever the shifted maximum of z fits in i32 |
| Verifying.L2AsWrittenExact | src/bliss.rs:209 | the L2 test as written, with its i32 shift and sum, is the exact test whenever the exact sum fits in i32 |
| Verifying.L2Sound | src/bliss.rs:209 | the exact L2 test bounds both the t part and the scaled z part |
| Verifying.L2WrapAccepts | src/bliss.rs:206-211 | in preset I, t = 0 and z all 2 pass the wrapped test though the exact norm 2^31 exceeds B_L2 |
| Verifying.WrapAtTwoToThe31 | src/bliss.rs:209 | 2048 << 20 is 2^31, which wraps to i32::MIN |
| Verifying.Parity | src/bliss.rs:223-227 | odd entries get Q: all even, congruent, below 2Q |
| Verifying.FlipProps | src/bliss.rs:230 | the flip keeps [0, 2Q) and is the exact Euclidean value |
| Verifying.FlipDistinct | src/bliss.rs:229-231 | with distinct indices the loop flips exactly the indexed entries |
| Verifying.Recombined | src/bliss.rs:233-236 | each entry in [0, P), congruent to the rounding plus z |
| Verifying.XorZero | src/bliss.rs:244 | a ^ b is 0 exactly when a = b |
| Verifying.OrZero | src/bliss.rs:244 | a \| b is 0 exactly when both are 0 |
| Verifying.XorOrZero | src/bliss.rs:242-246 | the folded difference is 0 exactly when the index lists are equal |
| Verifying.Reconstructed | src/bliss.rs:213-236 | the oracle input of verification lies in [0, P) |
| Verifying.AcceptIff | src/bliss.rs:205-247 | accept exactly when both norm tests pass, every index is below N, and the oracle returns the signature's own indices |
| Verifying.IndexPanics | src/bliss.rs:229-231 | a signature past the norm tests with an index >= N is the out-of-range case |
| Verifying.PresetOIndexPanics | src/bliss.rs:229-231 | in preset O an index of 256 passes the norm tests and indexes past v |
| Verifying.IndexWidths | src/param.rs:37-67 | the 9-bit index field holds 2N values in preset O and exactly N in the others |
| Verifying.FlipLoop | src/bliss.rs:229-231 | the loop fails exactly when some index is out of range, else flips as specified |
| Verifying.Compare | src/bliss.rs:242-246 | the loop computes the OR of the XORs of the two index lists, which `Verifying.XorOrZero` ties to list equality |
| Verifying.Verify | src/bliss.rs:205-247 | corrected `verify` (exact L2 test, see Findings): returns the specified verdict and rejects whenever a norm test fails |
| Codec.PresetsNarrow | src/param.rs:20-25 | every preset's widths are between 1 and 31 bits |
| Codec.Offset | src/bliss.rs:173-174 | `(x + 2^(b-1)) as u32` fits b bits exactly when x is in [-2^(b-1), 2^(b-1)), and is then x + 2^(b-1) |
| Codec.Unoffset | src/bliss.rs:193-194 | a b-bit field minus 2^(b-1) is in the signed b-bit range |
| Codec.OffsetRoundTrip | src/bliss.rs:173-194 | offset coding round-trips both ways |
| Codec.Unsigned | src/bliss.rs:175 | `as u32` is the identity on [0, 2^32) |
| Codec.UnsignedFits | src/bliss.rs:175 | an i32 value passes the b-bit write exactly when it is in [0, 2^b) |
| Codec.Write | src/bliss.rs:171-177 | a field write sequence succeeds exactly when every value fits its width |
| Codec.ExportPrivate | src/bliss.rs:167-181 | a successful export lays out, per coefficient, f and g offset-binary and a as it is |
| Codec.ImportPrivate | src/bliss.rs:183-200 | a field read within its width gives a coefficient that width represents |
| Codec.PrivateSlots | src/bliss.rs:172-176 | coefficient i is written as the fields 3i, 3i+1, 3i+2 with widths F, G, A |
| Codec.PrivateSlotFits | src/bliss.rs:172-176 | a coefficient's three fields fit exactly when f and g fit their signed widths and a its unsigned width |
| Codec.PrivateExportOk | src/bliss.rs:167-181 | private-key export succeeds exactly when every coefficient fits |
| Codec.KeyCoefficientBack | src/bliss.rs:192-196 | import reads back every exported coefficient |
| Codec.PrivateRoundTrip | src/bliss.rs:167-200 | export succeeds exactly when the key fits, and import inverts it |
| Codec.PrivateImportRoundTrip | src/bliss.rs:167-200 | any readable field sequence is the export of its import |
| Codec.ExportPublic | src/bliss.rs:249-261 | a successful export holds each entry as u32 within A_BITS; entries in [0, 2^A_BITS) export as they are |
| Codec.ImportPublic | src/bliss.rs:263-276 | entries are read as nonnegative values, below 2^A_BITS when their fields are |
| Codec.PublicRoundTrip | src/bliss.rs:249-276 | public export/import round-trip both ways |
| Codec.PublicExportMatches | src/bliss.rs:78-83 | `public()` copies a: the public key of an exportable private key exports to the a fields of the private export |
| Codec.ImportSignature | src/bliss.rs:298-317 | import fails exactly when fewer than 2N + KAPPA fields are available |
| Codec.ExportSignature | src/bliss.rs:280-296 | a successful export lays out, per coefficient, t and z offset-binary, then the challenge indices as they are |
| Codec.SignatureSlots | src/bliss.rs:285-288 | coefficient i is written as the fields 2i, 2i+1 with widths T, Z |
| Codec.IndexSlot | src/bliss.rs:289-291 | index j is field 2N + j, and fits exactly when below 2^CIDX_BITS |
| Codec.SignatureExportOk | src/bliss.rs:280-296 | signature export succeeds exactly when every field fits |
| Codec.SignatureRoundTrip | src/bliss.rs:280-317 | export succeeds exactly when the signature fits, and import inverts it |
| Codec.CoefficientBack | src/bliss.rs:307-310 | import reads back every exported t and z coefficient |
| Codec.IndexBack | src/bliss.rs:311-313 | import reads back every exported index |
| Codec.SignatureImportRoundTrip | src/bliss.rs:298-317 | a readable field sequence gives back its consumed prefix on re-export |
| Codec.ReadSlot | src/bliss.rs:308-309 | reading a t/z pair gives i32 values that re-encode to the same fields |
| Codec.ReadIndex | src/bliss.rs:312 | an index field is read as the same number |
| Codec.NarrowWidthsRejectKeys | src/bliss.rs:172-176 | in presets O and III a key with some f = 2 or g = 4 fails to export |
| Codec.SpreadIsLargest | src/utils.rs:22-42 | `Codec.Spread` (2 when NZ2 > 0, else 1) bounds every entry `uniform_poly` writes into the zero vector, and some entry reaches it exactly when NZ1 + NZ2 >= 1 |
| Codec.Widened | src/param.rs:20-21 | corrected widths: 3 bits for f and 4 for g when NZ2 > 0, the rest unchanged; presets with wide-enough widths are left alone |
| Codec.PresetsWideEnough | src/param.rs:37-67 | with the corrected widths every preset holds its keys; presets I, II and IV are unchanged |
| Codec.GeneratedKeysRoundTrip | src/bliss.rs:167-200 | every key of the shape key generation produces exports and imports back unchanged under the corrected widths |

## Left out

- Floating point is left out. This covers the Gaussian sampler, the
  acceptance probability with `exp` and `cosh`, and SIGMA, M and PMAX.
  Each signing attempt takes the sampled integers and the acceptance
  outcome as a `Signing.Draw`.
- SHA3-512 is an uninterpreted function. The Keccak permutation is not
  modelled.
- The random generators (`OsRng`, `R`) are explicit draw sequences. When
  they run out, the result is `OutOfDraws`; the source would keep drawing.
- The byte layout of the `bitpack` crate is modelled as a sequence of
  (value, width) fields. Bit order inside bytes and `flush` are not
  modelled.
- The preset `cfg` features and `src/lib.rs` are left out. A preset is a
  `Params` value instead.
- `generate_c` in `src/poly.rs` is left out: its body is
  `unimplemented!()`.
- The ring algebra is not proved: that the transform multiplies in
  Z_Q[x]/(x^N + 1), that `pwr(x, Q-2)` inverts, and that a
  signature verifies under its own key.
- Scheme.Commit: only the length and, through `Scheme.CommitRange`, the
  range are stated. The ring product it computes is not.
- Ntt.Fft: stated against the reference loop structure `FftSpec`, not
  against the ring transform.
- Keygen.PublicSpec: stated by its length and, in `Keygen.PublicSteps`, by
  reduced entries. The relation a·f = g in the ring is not stated.
- Keygen.Invert: uses the corrected `pwr`. As written, `pwr(x, Q - 2, Q)`
  never returns (see Findings), so `PrivateKey::new` never returns once it
  reaches the inversion of a candidate with no zero coefficient;
  `Keygen.Finish`, `Keygen.Generate` and `Keygen.GenerateFresh` inherit
  this. Each entry is congruent to the (Q-2)-th power; that this is the
  inverse (Fermat) is not proved.
- Signing.Sign: completeness is not proved, that is, that `verify` accepts
  what `signature` returns.
- Signing.CarryAfter: no norm bound on the accumulators is stated. The
  combiner as written adds the wrapped part of g into x, so the bound of
  `Combiner.Greedy` holds only where `Signing.Carry` says it does.
- Verifying.InfRejects: wrapping is release-build behaviour. In a debug
  build an overflowing `vecscalar` sum or `+` panics instead; `<<` does
  not panic in either build.
- Codec.Write: assumes that the `write` of the `bitpack` crate returns an
  error for a value wider than its field. That crate is not part of this
  model; if it masks the value instead, a too-wide coefficient is
  corrupted rather than rejected.
- Norms.VecScalar: the i32 sum of `vecscalar` is not wrapped except in the
  verifier's L2 test, where `Verifying.L2RejectsAsWritten` wraps it. Inputs
  that signing produces stay far inside i32.
- Norms.VecAbsMax: `i32::MIN.abs()` overflows in Rust. The model uses the
  exact absolute value.
- Codec.SignatureRoundTrip: indices of 2^32 or more, which `as u32` would
  truncate, are excluded by `Codec.SigShape`.
- Codec.GeneratedKeysRoundTrip: the key shape `Codec.Generated` is stated
  directly. It is not derived from `Keygen.Generate`, whose contract bounds
  f but not the magnitude of the drawn s behind g.
- Side channels and constant-time behaviour are left out.

## Findings

| source | as written | input that shows it | evidently intended | confidence | as-written member | corrected member |
|---|---|---|---|---|---|---|
| src/ntt.rs:17-22 | the `pwr` loop squares x but never shifts e, so for e >= 2 it never ends | any call with e >= 2, such as `pwr(x, Q - 2, Q)` in key generation | `e >>= 1` at the end of each pass: square-and-multiply giving x^e mod n | high, not executed | Ntt.PwrAsWritten | Ntt.Pwr |
| src/utils.rs:93-95, src/utils.rs:102-104 | the wrap-around loops add or subtract both f[j] and g[j] into x and never update y | f = g = [0, 1], index 1, x = y = 0: x becomes [-2, 0], y stays [0, 0] | the second statement updates y, as in the first loops, giving x = y = [-1, 0] | high, not executed | Combiner.AsWrittenDiffers | Combiner.GreedySc |
| src/bliss.rs:209 | the L2 test computes `vecscalar(z, z) << 2D` and the sum in i32, which wraps | preset I, t = 0, z all 2: 2048 << 20 = 2^31 wraps to i32::MIN and the test passes | compare the exact norm with B_L2 | high, not executed | Verifying.L2WrapAccepts | Verifying.Verify |
| src/param.rs:39, src/param.rs:60 | presets O and III draw ±2 coefficients (NZ2 > 0) but keep F_BITS = 2 and G_BITS = 3, so f = 2 or g = 4 or -5 do not fit | a preset O key with some f[i] = 2: `PrivateKey::export` fails, provided the bit packer rejects a value wider than its field (see `Codec.Write` under Left out) | widths of 3 and 4 bits as in preset IV | medium, not executed | Codec.NarrowWidthsRejectKeys | Codec.GeneratedKeysRoundTrip |
| src/bliss.rs:47-48, src/bliss.rs:75 | f is never cleared between attempts, so each `uniform_poly` call must find NZ1 + NZ2 more zero slots; once fewer remain, it loops forever, so the error at line 75 is unreachable | preset O (N = 256, NZ1 + NZ2 = 178): after one rejected candidate only 78 zero slots remain; preset IV likewise after one rejection | clear f before each draw, so each candidate has exactly NZ1 + NZ2 nonzero entries and the error follows 1024 rejections | high, not executed | Keygen.Generate | Keygen.GenerateFresh |
