/** `uniform_poly` of src/utils.rs and src/poly.rs: sparse rejection
    placement of nz1 entries of magnitude 1 and nz2 entries of magnitude 2
    into the zero slots of a vector. The random generator is an explicit
    stream of u64 draws; when the stream is exhausted before the counts are
    met the model answers `None` (the source would keep drawing, and spins
    forever when too few zero slots remain). */
module Sampler {
  import opened Arith

  /** The slot a draw selects: `(x >> 1) as usize % n`. */
  function Slot(x: nat, n: nat): (j: nat)
    requires n >= 1
    ensures j < n
  {
    (x / 2) % n
  }

  /** The value a draw writes for magnitude c: positive exactly when the low
      bit of the draw is set. */
  function Signed(x: nat, c: int): int
  {
    if x % 2 == 1 then c else -c
  }

  /** The number of zero entries of v below k. */
  function ZeroCount(v: seq<int>, k: nat): nat
    requires k <= |v|
  {
    if k == 0 then 0 else ZeroCount(v, k - 1) + (if v[k - 1] == 0 then 1 else 0)
  }

  /** The number of slots below k that were zero in `base` and hold a value
      of magnitude c in v: the entries written since `base`. */
  function Tally(base: seq<int>, v: seq<int>, c: nat, k: nat): nat
    requires k <= |base| && k <= |v|
  {
    if k == 0 then 0
    else Tally(base, v, c, k - 1) + (if base[k - 1] == 0 && Abs(v[k - 1]) == c then 1 else 0)
  }

  /** v arises from base by writing values of magnitude c into zero slots
      only. */
  predicate WritesZeroSlots(base: seq<int>, v: seq<int>, c: nat)
  {
    && |v| == |base|
    && forall m | 0 <= m < |v| :: v[m] == base[m] || (base[m] == 0 && (v[m] == c || v[m] == -(c as int)))
  }

  lemma {:induction false} ZeroCountUpdate(v: seq<int>, j: nat, s: int, k: nat)
    requires j < |v| && k <= |v| && v[j] == 0 && s != 0
    ensures ZeroCount(v[j := s], k) == ZeroCount(v, k) - (if j < k then 1 else 0)
  {
    if k > 0 {
      ZeroCountUpdate(v, j, s, k - 1);
    }
  }

  lemma {:induction false} TallyUpdate(base: seq<int>, v: seq<int>, j: nat, s: int, c: nat, k: nat)
    requires |base| == |v| && j < |v| && k <= |v| && base[j] == 0 && v[j] == 0 && c >= 1
    ensures Tally(base, v[j := s], c, k)
      == Tally(base, v, c, k) + (if j < k && Abs(s) == c then 1 else 0)
  {
    if k > 0 {
      TallyUpdate(base, v, j, s, c, k - 1);
    }
  }

  /** Counts agree when the counted property agrees slot by slot. */
  lemma {:induction false} TallySame(b1: seq<int>, v1: seq<int>, b2: seq<int>, v2: seq<int>, c: nat, k: nat)
    requires k <= |b1| && k <= |v1| && k <= |b2| && k <= |v2|
    requires forall m | 0 <= m < k ::
      (b1[m] == 0 && Abs(v1[m]) == c) == (b2[m] == 0 && Abs(v2[m]) == c)
    ensures Tally(b1, v1, c, k) == Tally(b2, v2, c, k)
  {
    if k > 0 {
      TallySame(b1, v1, b2, v2, c, k - 1);
    }
  }

  /** Writing into zero slots twice in a row: the entries of magnitude c
      new since v0 are those new since v0 in v1 plus those new since v1 in
      v2. */
  lemma {:induction false} TallyCompose(v0: seq<int>, v1: seq<int>, v2: seq<int>, c1: nat, c2: nat, c: nat, k: nat)
    requires WritesZeroSlots(v0, v1, c1) && WritesZeroSlots(v1, v2, c2)
    requires c1 >= 1 && c2 >= 1 && c >= 1 && k <= |v0|
    ensures Tally(v0, v2, c, k) == Tally(v0, v1, c, k) + Tally(v1, v2, c, k)
  {
    if k > 0 {
      TallyCompose(v0, v1, v2, c1, c2, c, k - 1);
    }
  }

  lemma {:induction false} TallyUnchanged(v: seq<int>, c: nat, k: nat)
    requires k <= |v| && c >= 1
    ensures Tally(v, v, c, k) == 0
  {
    if k > 0 {
      TallyUnchanged(v, c, k - 1);
    }
  }

  /** A written entry of magnitude c exists below k exactly when the tally
      is positive. */
  lemma {:induction false} TallyWitness(base: seq<int>, v: seq<int>, c: nat, k: nat)
    requires k <= |base| && k <= |v|
    ensures Tally(base, v, c, k) > 0 <==> exists i | 0 <= i < k :: base[i] == 0 && Abs(v[i]) == c
  {
    if k > 0 {
      TallyWitness(base, v, c, k - 1);
      if base[k - 1] == 0 && Abs(v[k - 1]) == c {
        assert Tally(base, v, c, k) > 0;
      }
    }
  }

  lemma {:induction false} ZeroCountAllZero(v: seq<int>, k: nat)
    requires k <= |v| && forall m | 0 <= m < |v| :: v[m] == 0
    ensures ZeroCount(v, k) == k
  {
    if k > 0 {
      ZeroCountAllZero(v, k - 1);
    }
  }

  /** One `while i < count` loop of `uniform_poly`, one draw at a time: a
      draw that selects a zero slot writes its signed value there and counts
      it; a draw that selects a filled slot is skipped. The result is the
      vector and the position after the last draw read, or None when the
      stream ends before `count` slots were written. */
  function PlaceSpec(v: seq<int>, count: int, c: nat, draws: seq<nat>, next: nat): (r: (Option<seq<int>>, nat))
    requires |v| >= 1 && next <= |draws|
    ensures next <= r.1 <= |draws|
    ensures r.0.None? ==> r.1 == |draws|
    ensures r.0.Some? ==> |r.0.value| == |v|
    decreases |draws| - next
  {
    if count <= 0 then (Some(v), next)
    else if next == |draws| then (None, next)
    else
      var j := Slot(draws[next], |v|);
      if v[j] == 0 then PlaceSpec(v[j := Signed(draws[next], c)], count - 1, c, draws, next + 1)
      else PlaceSpec(v, count, c, draws, next + 1)
  }

  /** Slot m is written by the first draw in [lo, hi) that selects it. */
  predicate WrittenByFirst(draws: seq<nat>, n: nat, lo: nat, hi: nat, m: nat, val: int, c: nat)
    requires n >= 1 && hi <= |draws|
  {
    exists k | lo <= k < hi ::
      && Slot(draws[k], n) == m && val == Signed(draws[k], c)
      && forall k' | lo <= k' < k :: Slot(draws[k'], n) != m
  }

  /** What a placement loop does: exactly `count` zero slots receive a value
      of magnitude c and nothing else changes. */
  lemma {:induction false} PlaceSpecWrites(v: seq<int>, count: int, c: nat, draws: seq<nat>, next: nat)
    requires |v| >= 1 && c >= 1 && next <= |draws|
    ensures var r := PlaceSpec(v, count, c, draws, next);
      r.0.Some? ==>
        && WritesZeroSlots(v, r.0.value, c)
        && Tally(v, r.0.value, c, |v|) == Max(count, 0)
        && ZeroCount(r.0.value, |v|) + Max(count, 0) == ZeroCount(v, |v|)
    decreases |draws| - next
  {
    var n := |v|;
    var r := PlaceSpec(v, count, c, draws, next);
    if count <= 0 {
      TallyUnchanged(v, c, n);
    } else if next < |draws| && r.0.Some? {
      var x := draws[next];
      var j := Slot(x, n);
      if v[j] == 0 {
        var s := Signed(x, c);
        var v1 := v[j := s];
        PlaceSpecWrites(v1, count - 1, c, draws, next + 1);
        assert r == PlaceSpec(v1, count - 1, c, draws, next + 1);
        assert WritesZeroSlots(v, v1, c);
        TallyUnchanged(v, c, n);
        TallyUpdate(v, v, j, s, c, n);
        TallyCompose(v, v1, r.0.value, c, c, c, n);
        ZeroCountUpdate(v, j, s, n);
      } else {
        PlaceSpecWrites(v, count, c, draws, next + 1);
      }
    }
  }

  /** Each slot a placement loop changes was written by the first draw that
      selected it, and every slot a draw selected is filled at the end. */
  lemma {:induction false} PlaceSpecFirst(v: seq<int>, count: int, c: nat, draws: seq<nat>, next: nat)
    requires |v| >= 1 && c >= 1 && next <= |draws|
    ensures var r := PlaceSpec(v, count, c, draws, next);
      r.0.Some? ==>
        && (forall m | 0 <= m < |v| && r.0.value[m] != v[m] ::
              WrittenByFirst(draws, |v|, next, r.1, m, r.0.value[m], c))
        && (forall k | next <= k < r.1 :: r.0.value[Slot(draws[k], |v|)] != 0)
    decreases |draws| - next
  {
    var n := |v|;
    var r := PlaceSpec(v, count, c, draws, next);
    if count > 0 && next < |draws| && r.0.Some? {
      var x := draws[next];
      var j := Slot(x, n);
      var w := r.0.value;
      if v[j] == 0 {
        var v1 := v[j := Signed(x, c)];
        PlaceSpecFirst(v1, count - 1, c, draws, next + 1);
        PlaceSpecWrites(v1, count - 1, c, draws, next + 1);
        assert r == PlaceSpec(v1, count - 1, c, draws, next + 1);
        FirstStepWrite(v, c, draws, next, w, r.1);
        assert w[j] != 0;
      } else {
        PlaceSpecFirst(v, count, c, draws, next + 1);
        PlaceSpecWrites(v, count, c, draws, next + 1);
        assert r == PlaceSpec(v, count, c, draws, next + 1);
        FirstStepSkip(v, c, draws, next, w, r.1);
        assert w[j] == v[j];
      }
    }
  }

  /** A draw that fills a zero slot is the first to select it. */
  lemma FirstStepWrite(v: seq<int>, c: nat, draws: seq<nat>, next: nat, w: seq<int>, hi: nat)
    requires |v| >= 1 && c >= 1 && next < hi <= |draws|
    requires v[Slot(draws[next], |v|)] == 0
    requires var v1 := v[Slot(draws[next], |v|) := Signed(draws[next], c)];
      && WritesZeroSlots(v1, w, c)
      && forall m | 0 <= m < |v| && w[m] != v1[m] :: WrittenByFirst(draws, |v|, next + 1, hi, m, w[m], c)
    ensures forall m | 0 <= m < |v| && w[m] != v[m] :: WrittenByFirst(draws, |v|, next, hi, m, w[m], c)
  {
    var n := |v|;
    var j := Slot(draws[next], n);
    var v1 := v[j := Signed(draws[next], c)];
    forall m | 0 <= m < n && w[m] != v[m]
      ensures WrittenByFirst(draws, n, next, hi, m, w[m], c)
    {
      if m == j {
        assert w[m] == v1[m];
      } else {
        var k :| next + 1 <= k < hi && Slot(draws[k], n) == m && w[m] == Signed(draws[k], c)
          && forall k' | next + 1 <= k' < k :: Slot(draws[k'], n) != m;
        assert forall k' | next <= k' < k :: Slot(draws[k'], n) != m;
      }
    }
  }

  /** A draw that selects a filled slot changes nothing, so the first writer
      of every changed slot comes later. */
  lemma FirstStepSkip(v: seq<int>, c: nat, draws: seq<nat>, next: nat, w: seq<int>, hi: nat)
    requires |v| >= 1 && next < hi <= |draws|
    requires v[Slot(draws[next], |v|)] != 0
    requires WritesZeroSlots(v, w, c)
    requires forall m | 0 <= m < |v| && w[m] != v[m] :: WrittenByFirst(draws, |v|, next + 1, hi, m, w[m], c)
    ensures forall m | 0 <= m < |v| && w[m] != v[m] :: WrittenByFirst(draws, |v|, next, hi, m, w[m], c)
  {
    var n := |v|;
    forall m | 0 <= m < n && w[m] != v[m]
      ensures WrittenByFirst(draws, n, next, hi, m, w[m], c)
    {
      var k :| next + 1 <= k < hi && Slot(draws[k], n) == m && w[m] == Signed(draws[k], c)
        && forall k' | next + 1 <= k' < k :: Slot(draws[k'], n) != m;
      assert forall k' | next <= k' < k :: Slot(draws[k'], n) != m;
    }
  }

  /** One `while i < count` loop of `uniform_poly` over the draw stream: it
      is the reference `PlaceSpec`, so every changed slot was zero and was
      written by the first draw that selected it. */
  method Place(v0: seq<int>, count: int, c: nat, draws: seq<nat>, start: nat)
    returns (res: Option<seq<int>>, next: nat)
    requires |v0| >= 1 && c >= 1 && start <= |draws|
    ensures (res, next) == PlaceSpec(v0, count, c, draws, start)
    ensures res.Some? ==> WritesZeroSlots(v0, res.value, c)
    ensures res.Some? ==> Tally(v0, res.value, c, |v0|) == Max(count, 0)
    ensures res.Some? ==> ZeroCount(res.value, |v0|) + Max(count, 0) == ZeroCount(v0, |v0|)
  {
    var n := |v0|;
    var v := v0;
    var i := 0;
    next := start;
    while i < count
      invariant start <= next <= |draws| && |v| == n
      invariant 0 <= i <= Max(count, 0)
      invariant PlaceSpec(v, count - i, c, draws, next) == PlaceSpec(v0, count, c, draws, start)
      decreases |draws| - next
    {
      if next == |draws| {
        return None, next;
      }
      var x := draws[next];
      var j := Slot(x, n);
      if v[j] == 0 {
        v := v[j := Signed(x, c)];
        i := i + 1;
      }
      next := next + 1;
    }
    PlaceSpecWrites(v0, count, c, draws, start);
    res := Some(v);
  }

  /** `uniform_poly` one draw at a time: nz1 placements of magnitude 1,
      then nz2 of magnitude 2 from where the first loop stopped. */
  function UniformSpec(v0: seq<int>, nz1: int, nz2: int, draws: seq<nat>): (r: (Option<seq<int>>, nat))
    requires |v0| >= 1
    ensures r.1 <= |draws|
    ensures r.0.None? ==> r.1 == |draws|
    ensures r.0.Some? ==> |r.0.value| == |v0|
  {
    var p := PlaceSpec(v0, nz1, 1, draws, 0);
    if p.0.None? then p else PlaceSpec(p.0.value, nz2, 2, draws, p.1)
  }

  /** What `uniform_poly` does: exactly max(nz1, 0) new +-1 and max(nz2, 0)
      new +-2 entries appear, each in a slot that was zero; nonzero entries
      never change; the vector must have had enough zero slots. */
  lemma UniformSpecProps(v0: seq<int>, nz1: int, nz2: int, draws: seq<nat>)
    requires |v0| >= 1
    ensures var r := UniformSpec(v0, nz1, nz2, draws);
      r.0.Some? ==>
        && (forall m | 0 <= m < |v0| && r.0.value[m] != v0[m] ::
              v0[m] == 0 && r.0.value[m] in {-2, -1, 1, 2})
        && Tally(v0, r.0.value, 1, |v0|) == Max(nz1, 0)
        && Tally(v0, r.0.value, 2, |v0|) == Max(nz2, 0)
        && ZeroCount(r.0.value, |v0|) + Max(nz1, 0) + Max(nz2, 0) == ZeroCount(v0, |v0|)
  {
    var n := |v0|;
    var p1 := PlaceSpec(v0, nz1, 1, draws, 0);
    PlaceSpecWrites(v0, nz1, 1, draws, 0);
    if p1.0.Some? {
      var v1 := p1.0.value;
      var p2 := PlaceSpec(v1, nz2, 2, draws, p1.1);
      PlaceSpecWrites(v1, nz2, 2, draws, p1.1);
      if p2.0.Some? {
        var v2 := p2.0.value;
        TallyCompose(v0, v1, v2, 1, 2, 1, n);
        TallyCompose(v0, v1, v2, 1, 2, 2, n);
        assert Tally(v1, v2, 1, n) == 0 by {
          TallySame(v1, v2, v1, v1, 1, n);
          TallyUnchanged(v1, 1, n);
        }
        assert Tally(v0, v1, 2, n) == 0 by {
          TallySame(v0, v1, v0, v0, 2, n);
          TallyUnchanged(v0, 2, n);
        }
      }
    }
  }

  /** Each slot `uniform_poly` changes was written by the first draw of the
      stream that selected it, with the sign of that draw's low bit: the
      first loop fills every slot it selects, so the second loop writes only
      slots the first never selected. */
  lemma UniformSpecFirst(v0: seq<int>, nz1: int, nz2: int, draws: seq<nat>)
    requires |v0| >= 1
    ensures var r := UniformSpec(v0, nz1, nz2, draws);
      r.0.Some? ==>
        forall m | 0 <= m < |v0| && r.0.value[m] != v0[m] ::
          exists k | 0 <= k < r.1 ::
            && Slot(draws[k], |v0|) == m && Odd(draws[k]) == (r.0.value[m] > 0)
            && forall k' | 0 <= k' < k :: Slot(draws[k'], |v0|) != m
  {
    var n := |v0|;
    var p1 := PlaceSpec(v0, nz1, 1, draws, 0);
    PlaceSpecWrites(v0, nz1, 1, draws, 0);
    PlaceSpecFirst(v0, nz1, 1, draws, 0);
    if p1.0.Some? {
      var v1, mid := p1.0.value, p1.1;
      var p2 := PlaceSpec(v1, nz2, 2, draws, mid);
      PlaceSpecWrites(v1, nz2, 2, draws, mid);
      PlaceSpecFirst(v1, nz2, 2, draws, mid);
      if p2.0.Some? {
        var v2, used := p2.0.value, p2.1;
        forall m | 0 <= m < n && v2[m] != v0[m]
          ensures exists k | 0 <= k < used ::
            && Slot(draws[k], n) == m && Odd(draws[k]) == (v2[m] > 0)
            && forall k' | 0 <= k' < k :: Slot(draws[k'], n) != m
        {
          FirstOfTwo(draws, n, v0, v1, v2, mid, used, m);
        }
      }
    }
  }

  /** One slot after the two loops: written by the first loop, or else by
      the second loop in a slot no draw of the first loop selected. */
  lemma FirstOfTwo(draws: seq<nat>, n: nat, v0: seq<int>, v1: seq<int>, v2: seq<int>, mid: nat, used: nat, m: nat)
    requires n >= 1 && mid <= used <= |draws| && |v0| == n && |v1| == n && |v2| == n && m < n
    requires WritesZeroSlots(v1, v2, 2) && v2[m] != v0[m]
    requires v1[m] != v0[m] ==> WrittenByFirst(draws, n, 0, mid, m, v1[m], 1)
    requires v2[m] != v1[m] ==> WrittenByFirst(draws, n, mid, used, m, v2[m], 2)
    requires forall k | 0 <= k < mid :: v1[Slot(draws[k], n)] != 0
    ensures exists k | 0 <= k < used ::
      && Slot(draws[k], n) == m && Odd(draws[k]) == (v2[m] > 0)
      && forall k' | 0 <= k' < k :: Slot(draws[k'], n) != m
  {
    if v2[m] != v1[m] {
      var k :| mid <= k < used && Slot(draws[k], n) == m && v2[m] == Signed(draws[k], 2)
        && forall k' | mid <= k' < k :: Slot(draws[k'], n) != m;
      assert v1[m] == 0;
      assert forall k' | 0 <= k' < k :: Slot(draws[k'], n) != m;
    } else {
      var k :| 0 <= k < mid && Slot(draws[k], n) == m && v1[m] == Signed(draws[k], 1)
        && forall k' | 0 <= k' < k :: Slot(draws[k'], n) != m;
      assert Odd(draws[k]) == (v2[m] > 0);
    }
  }

  /** `uniform_poly`: the two placement loops over one draw stream. It is
      the reference `UniformSpec`, which fixes both the result and the
      number of draws read. */
  method UniformPoly(v0: seq<int>, nz1: int, nz2: int, draws: seq<nat>)
    returns (res: Option<seq<int>>, used: nat)
    requires |v0| >= 1
    ensures (res, used) == UniformSpec(v0, nz1, nz2, draws)
    ensures used <= |draws|
    ensures res.None? ==> used == |draws|
    ensures res.Some? ==> |res.value| == |v0|
    ensures res.Some? ==> forall m | 0 <= m < |v0| && res.value[m] != v0[m] ::
      v0[m] == 0 && res.value[m] in {-2, -1, 1, 2}
    ensures res.Some? ==> Tally(v0, res.value, 1, |v0|) == Max(nz1, 0)
    ensures res.Some? ==> Tally(v0, res.value, 2, |v0|) == Max(nz2, 0)
    ensures res.Some? ==> ZeroCount(res.value, |v0|) + Max(nz1, 0) + Max(nz2, 0) == ZeroCount(v0, |v0|)
  {
    var r1, mid := Place(v0, nz1, 1, draws, 0);
    if r1.None? {
      return None, mid;
    }
    res, used := Place(r1.value, nz2, 2, draws, mid);
    UniformSpecProps(v0, nz1, nz2, draws);
  }

  /** From an all-zero vector, `uniform_poly` leaves exactly nz1 + nz2
      nonzero entries. */
  lemma UniformFromZero(v0: seq<int>, nz1: int, nz2: int, v: seq<int>)
    requires |v0| >= 1 && forall m | 0 <= m < |v0| :: v0[m] == 0
    requires |v| == |v0|
    requires ZeroCount(v, |v0|) + Max(nz1, 0) + Max(nz2, 0) == ZeroCount(v0, |v0|)
    ensures |v| - ZeroCount(v, |v|) == Max(nz1, 0) + Max(nz2, 0)
  {
    ZeroCountAllZero(v0, |v0|);
  }

  /** There are never more zero entries than entries. */
  lemma {:induction false} ZeroCountAtMost(v: seq<int>, k: nat)
    requires k <= |v|
    ensures ZeroCount(v, k) <= k
  {
    if k > 0 {
      ZeroCountAtMost(v, k - 1);
    }
  }
}
