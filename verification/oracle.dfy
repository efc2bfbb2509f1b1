/** `c_oracle` of src/utils.rs: the challenge indices are read from SHA3-512
    digests of (hash, w as big-endian u16 values, counter r), two bytes at a
    time, reduced modulo N, keeping each index the first time it appears,
    until KAPPA distinct indices have been found or the counter has run
    through 0..65534. The digest is an uninterpreted function `H` from the
    message bytes to 64 bytes. */
module Oracle {
  import opened Arith

  newtype byte = x: int | 0 <= x < 256

  type Digest = s: seq<byte> | |s| == 64 witness seq(64, _ => 0)

  /** The counter takes the values 0 .. u16::MAX - 1. */
  const Rounds: nat := 65535

  /** `BigEndian::write_u16` of `x as u16`: the low 16 bits of x, high byte
      first. */
  function Be16(x: int): (r: seq<byte>)
    ensures |r| == 2
    ensures (r[0] as int) * 256 + (r[1] as int) == x % 65536
  {
    var u := x % 65536;
    [(u / 256) as byte, (u % 256) as byte]
  }

  /** The bytes of all entries of w, each as a big-endian u16. */
  function WBytes(w: seq<int>): (r: seq<byte>)
    ensures |r| == 2 * |w|
  {
    if |w| == 0 then [] else WBytes(w[..|w| - 1]) + Be16(w[|w| - 1])
  }

  /** What the digest of round r is taken over. */
  function Message(hash: seq<byte>, w: seq<int>, r: nat): seq<byte>
  {
    hash + WBytes(w) + Be16(r)
  }

  /** The candidate index read from digest bytes i and i + 1. */
  function Chunk(d: Digest, i: nat, n: nat): (x: nat)
    requires i < 63 && n >= 1
    ensures x < n
  {
    ((d[i] as int) * 256 + (d[i + 1] as int)) % n
  }

  /** The 32 candidate indices of one digest, in reading order. */
  function Candidates(d: Digest, n: nat): (c: seq<nat>)
    requires n >= 1
    ensures |c| == 32 && forall k | 0 <= k < 32 :: c[k] == Chunk(d, 2 * k, n)
  {
    seq(32, k requires 0 <= k < 32 => Chunk(d, 2 * k, n))
  }

  /** The candidates of rounds 0 .. rounds - 1, concatenated. */
  function AllCandidates(H: seq<byte> -> Digest, hash: seq<byte>, w: seq<int>, n: nat, rounds: nat): (c: seq<nat>)
    requires n >= 1
    ensures |c| == 32 * rounds
  {
    if rounds == 0 then []
    else AllCandidates(H, hash, w, n, rounds - 1) + Candidates(H(Message(hash, w, rounds - 1)), n)
  }

  /** The distinct values of s, in order of first appearance. */
  function Dedup(s: seq<nat>): (d: seq<nat>)
    ensures |d| <= |s|
  {
    if |s| == 0 then []
    else
      var d := Dedup(s[..|s| - 1]);
      if s[|s| - 1] in d then d else d + [s[|s| - 1]]
  }

  /** The deduplication has no repetitions, holds only values of s, and
      holds every value of s. */
  lemma {:induction false} DedupProps(s: seq<nat>)
    ensures forall a, b | 0 <= a < b < |Dedup(s)| :: Dedup(s)[a] != Dedup(s)[b]
    ensures forall a | 0 <= a < |Dedup(s)| :: Dedup(s)[a] in s
    ensures forall x | x in s :: x in Dedup(s)
  {
    if |s| > 0 {
      var t := s[..|s| - 1];
      DedupProps(t);
      assert forall x | x in t :: x in s;
      assert forall x | x in s :: x in t || x == s[|s| - 1];
    }
  }

  /** Every candidate is an index below n. */
  lemma {:induction false} AllCandidatesBelow(H: seq<byte> -> Digest, hash: seq<byte>, w: seq<int>, n: nat, rounds: nat)
    requires n >= 1
    ensures forall k | 0 <= k < 32 * rounds :: AllCandidates(H, hash, w, n, rounds)[k] < n
  {
    if rounds > 0 {
      AllCandidatesBelow(H, hash, w, n, rounds - 1);
    }
  }

  /** A successful oracle yields kappa pairwise distinct indices below n. */
  lemma OracleSpecIndices(H: seq<byte> -> Digest, hash: seq<byte>, w: seq<int>, n: nat, kappa: nat)
    requires n >= 1
    ensures var res := OracleSpec(H, hash, w, n, kappa);
      res.Some? ==>
        && |res.value| == kappa
        && (forall a | 0 <= a < kappa :: res.value[a] < n)
        && (forall a, b | 0 <= a < b < kappa :: res.value[a] != res.value[b])
  {
    var all := AllCandidates(H, hash, w, n, Rounds);
    DedupProps(all);
    AllCandidatesBelow(H, hash, w, n, Rounds);
    var d := Dedup(all);
    forall a | 0 <= a < |d|
      ensures d[a] < n
    {
      var k :| 0 <= k < |all| && all[k] == d[a];
    }
  }

  /** What `c_oracle` computes: the first kappa distinct candidates over all
      rounds, or nothing when there are fewer. */
  function OracleSpec(H: seq<byte> -> Digest, hash: seq<byte>, w: seq<int>, n: nat, kappa: nat): Option<seq<nat>>
    requires n >= 1
  {
    var d := Dedup(AllCandidates(H, hash, w, n, Rounds));
    if |d| >= kappa then Some(d[..kappa]) else None
  }

  /** Deduplicating a prefix gives a prefix of the deduplicated whole. */
  lemma {:induction false} DedupPrefix(s: seq<nat>, k: nat)
    requires k <= |s|
    ensures |Dedup(s[..k])| <= |Dedup(s)|
    ensures Dedup(s)[..|Dedup(s[..k])|] == Dedup(s[..k])
    decreases |s| - k
  {
    if k < |s| {
      DedupPrefix(s[..|s| - 1], k);
      assert s[..|s| - 1][..k] == s[..k];
    } else {
      assert s[..k] == s;
    }
  }

  /** The candidates of fewer rounds are a prefix of those of more rounds. */
  lemma {:induction false} AllCandidatesPrefix(H: seq<byte> -> Digest, hash: seq<byte>, w: seq<int>, n: nat, r1: nat, r2: nat)
    requires n >= 1 && r1 <= r2
    ensures AllCandidates(H, hash, w, n, r2)[..32 * r1] == AllCandidates(H, hash, w, n, r1)
    decreases r2
  {
    if r1 < r2 {
      AllCandidatesPrefix(H, hash, w, n, r1, r2 - 1);
    }
  }

  /** A sequence without repetitions is its own deduplication. */
  lemma {:induction false} DedupOfDistinct(s: seq<nat>)
    requires forall a, b | 0 <= a < b < |s| :: s[a] != s[b]
    ensures Dedup(s) == s
  {
    if |s| > 0 {
      DedupOfDistinct(s[..|s| - 1]);
      assert s[|s| - 1] !in s[..|s| - 1];
    }
  }

  /** Appending one candidate to the scanned prefix. */
  lemma DedupSnoc(s: seq<nat>, x: nat)
    ensures Dedup(s + [x]) == if x in Dedup(s) then Dedup(s) else Dedup(s) + [x]
  {
    assert (s + [x])[..|s|] == s;
  }

  /** The scan found kappa distinct indices in a prefix of all candidates, so
      they are the first kappa of the whole deduplication. */
  lemma EarlyExit(H: seq<byte> -> Digest, hash: seq<byte>, w: seq<int>, n: nat, kappa: nat, r: nat, i: nat, idx: seq<nat>)
    requires n >= 1 && r < Rounds && i < 32 && |idx| == kappa
    requires idx == Dedup(AllCandidates(H, hash, w, n, r) + Candidates(H(Message(hash, w, r)), n)[..i + 1])
    ensures OracleSpec(H, hash, w, n, kappa) == Some(idx)
  {
    var all := AllCandidates(H, hash, w, n, Rounds);
    var c := Candidates(H(Message(hash, w, r)), n);
    var pre := AllCandidates(H, hash, w, n, r);
    var k := 32 * r + i + 1;
    AllCandidatesPrefix(H, hash, w, n, r + 1, Rounds);
    assert all[..k] == all[..32 * (r + 1)][..k];
    assert AllCandidates(H, hash, w, n, r + 1) == pre + c;
    assert (pre + c)[..k] == pre + c[..i + 1];
    DedupPrefix(all, k);
  }

  /** `fl` marks exactly the recorded indices. */
  predicate Marks(fl: seq<bool>, idx: seq<nat>, n: nat)
  {
    |fl| == n && forall m | 0 <= m < n :: fl[m] == (m in idx)
  }

  lemma MarkNew(fl: seq<bool>, idx: seq<nat>, n: nat, x: nat)
    requires Marks(fl, idx, n) && x < n
    ensures Marks(fl[x := true], idx + [x], n)
  {
    forall m | 0 <= m < n
      ensures fl[x := true][m] == (m in idx + [x])
    {
      assert (m in idx + [x]) == (m in idx || m == x);
    }
  }

  /** One round of the scan: the 32 chunks of digest d, in order. It stops
      at chunk `stop` as soon as kappa indices are recorded. */
  method ScanDigest(d: Digest, n: nat, kappa: nat, ghost before: seq<nat>, idx0: seq<nat>, fl0: seq<bool>)
    returns (idx: seq<nat>, fl: seq<bool>, done: bool, stop: nat)
    requires n >= 1 && |idx0| < kappa
    requires idx0 == Dedup(before)
    requires Marks(fl0, idx0, n)
    ensures done ==> stop < 32 && |idx| == kappa && idx == Dedup(before + Candidates(d, n)[..stop + 1])
    ensures !done ==> |idx| < kappa && idx == Dedup(before + Candidates(d, n)) && Marks(fl, idx, n)
  {
    idx, fl := idx0, fl0;
    ghost var c := Candidates(d, n);
    var k := 0;
    assert before + c[..0] == before;
    while k < 32
      invariant k <= 32 && |idx| < kappa
      invariant idx == Dedup(before + c[..k])
      invariant Marks(fl, idx, n)
    {
      var x := Chunk(d, 2 * k, n);
      assert before + c[..k + 1] == (before + c[..k]) + [x];
      DedupSnoc(before + c[..k], x);
      if !fl[x] {
        MarkNew(fl, idx, n, x);
        idx := idx + [x];
        if |idx| == kappa {
          return idx, fl, true, k;
        }
        fl := fl[x := true];
      }
      k := k + 1;
    }
    assert c[..32] == c;
    done, stop := false, 0;
  }

  /** `c_oracle`: scan digests round by round and chunk by chunk, recording
      an index the first time it is seen; succeed as soon as kappa indices
      are recorded. The result is `OracleSpec`, hence deterministic in
      (H, hash, w), and its indices are pairwise distinct and below n. */
  method COracle(H: seq<byte> -> Digest, hash: seq<byte>, w: seq<int>, n: nat, kappa: nat)
    returns (res: Option<seq<nat>>)
    requires n >= 1 && kappa >= 1 && |w| == n
    ensures res == OracleSpec(H, hash, w, n, kappa)
    ensures res.Some? ==> |res.value| == kappa
    ensures res.Some? ==> forall a | 0 <= a < kappa :: res.value[a] < n
    ensures res.Some? ==> forall a, b | 0 <= a < b < kappa :: res.value[a] != res.value[b]
  {
    var fl := seq(n, _ => false);
    var idx: seq<nat> := [];
    var r := 0;
    while r < Rounds
      invariant r <= Rounds && |idx| < kappa && |fl| == n
      invariant idx == Dedup(AllCandidates(H, hash, w, n, r))
      invariant Marks(fl, idx, n)
    {
      var d := H(Message(hash, w, r));
      var done, stop;
      idx, fl, done, stop := ScanDigest(d, n, kappa, AllCandidates(H, hash, w, n, r), idx, fl);
      if done {
        EarlyExit(H, hash, w, n, kappa, r, stop, idx);
        OracleSpecIndices(H, hash, w, n, kappa);
        return Some(idx);
      }
      r := r + 1;
    }
    res := None;
  }
}
