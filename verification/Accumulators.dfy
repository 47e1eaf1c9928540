/** The watermark and counter states of `hyperactor/src/accum.rs`, end to end. */
module Accumulators {
  import opened Options
  import opened Lattice
  import opened Crdt
  import opened Reduction

  /** `accumulate`, update by update. */
  method AccumulateAll<T>(join: (T, T) -> T, initial: T, updates: seq<T>) returns (state: T)
    ensures state == Fold(join, initial, updates)
  {
    state := initial;
    for index := 0 to |updates|
      invariant state == Fold(join, initial, updates[..index])
    {
      assert updates[..index + 1][..index] == updates[..index];
      state := join(state, updates[index]);
    }
    assert updates[..|updates|] == updates;
  }

  // ---------------------------------------------------------------------------------------------
  // Watermark
  // ---------------------------------------------------------------------------------------------

  /** What a rank reports: `From<(usize, T, u64)>`. */
  datatype Report = Report(rank: nat, value: int, ts: nat)

  type Watermark = map<nat, LWW<int>>

  function LwwInt(a: LWW<int>, b: LWW<int>): LWW<int> {
    LwwJoin(a, b)
  }

  const WatermarkJoin: (Watermark, Watermark) -> Watermark := JoinMaps<nat, LWW<int>>(LwwInt)

  function Update(r: Report): Watermark {
    map[r.rank := LWW(r.value, r.ts, r.rank)]
  }

  function Updates(rs: seq<Report>): (us: seq<Watermark>)
    ensures |us| == |rs| && forall i | 0 <= i < |rs| :: us[i] == Update(rs[i])
  {
    seq(|rs|, i requires 0 <= i < |rs| => Update(rs[i]))
  }

  /** `x` is the report of `rank` with the greatest timestamp. */
  ghost predicate IsLatest(rs: seq<Report>, rank: nat, x: LWW<int>) {
    && Report(rank, x.value, x.ts) in rs && x.replica == rank
    && forall r | r in rs && r.rank == rank :: r.ts <= x.ts
  }

  /** A rank never reports two values under one timestamp. */
  ghost predicate Determined(rs: seq<Report>) {
    forall r, q | r in rs && q in rs && r.rank == q.rank && r.ts == q.ts :: r.value == q.value
  }

  ghost predicate Seen(rs: seq<Report>, rank: nat) {
    exists r :: r in rs && r.rank == rank
  }

  /** The tracked ranks are exactly those seen, and each holds its latest report. */
  ghost predicate TracksLatest(rs: seq<Report>, m: Watermark) {
    && (forall k: nat :: k in m <==> Seen(rs, k))
    && (forall k: nat | k in m :: IsLatest(rs, k, m[k]))
  }

  function WatermarkState(rs: seq<Report>): Watermark {
    Fold(WatermarkJoin, map[], Updates(rs))
  }

  lemma TracksNext(rs: seq<Report>, m: Watermark, r: Report)
    requires TracksLatest(rs, m)
    ensures TracksLatest(rs + [r], MapJoin(LwwInt, m, Update(r)))
  {
    var rs', m' := rs + [r], MapJoin(LwwInt, m, Update(r));
    assert forall q :: q in rs' <==> q in rs || q == r;
    forall k: nat ensures k in m' <==> Seen(rs', k) {
      if k in m { assert Seen(rs, k); var q :| q in rs && q.rank == k; assert q in rs'; }
      if k == r.rank { assert r in rs'; }
    }
    forall k: nat | k in m' ensures IsLatest(rs', k, m'[k]) {
      if k in m { assert IsLatest(rs, k, m[k]); } else { assert !Seen(rs, k); }
    }
  }

  /** After any delivery sequence, the tracked ranks are those seen and each holds its latest report. */
  lemma {:induction false} WatermarkTracksLatest(rs: seq<Report>)
    ensures TracksLatest(rs, WatermarkState(rs))
  {
    if rs != [] {
      var init, last := rs[..|rs| - 1], rs[|rs| - 1];
      WatermarkTracksLatest(init);
      TracksNext(init, WatermarkState(init), last);
      assert Updates(rs)[..|rs| - 1] == Updates(init) && rs == init + [last];
    }
  }

  lemma LatestUnique(rs: seq<Report>, qs: seq<Report>, rank: nat, x: LWW<int>, y: LWW<int>)
    requires Determined(rs) && (forall r :: r in rs <==> r in qs) && IsLatest(rs, rank, x) && IsLatest(qs, rank, y)
    ensures x == y
  {
    assert Report(rank, x.value, x.ts) in qs && Report(rank, y.value, y.ts) in rs;
  }

  /** Reordering and duplicating deliveries changes nothing. */
  lemma WatermarkIgnoresOrder(rs: seq<Report>, qs: seq<Report>)
    requires Determined(rs) && forall r :: r in rs <==> r in qs
    ensures WatermarkState(rs) == WatermarkState(qs)
  {
    WatermarkTracksLatest(rs);
    WatermarkTracksLatest(qs);
    TracksUnique(rs, qs, WatermarkState(rs), WatermarkState(qs));
  }

  lemma TracksUnique(rs: seq<Report>, qs: seq<Report>, a: Watermark, b: Watermark)
    requires Determined(rs) && (forall r :: r in rs <==> r in qs) && TracksLatest(rs, a) && TracksLatest(qs, b)
    ensures a == b
  {
    TracksSameRanks(rs, qs, a, b);
    forall k: nat | k in a ensures a[k] == b[k] { LatestUnique(rs, qs, k, a[k], b[k]); }
  }

  lemma TracksSameRanks(rs: seq<Report>, qs: seq<Report>, a: Watermark, b: Watermark)
    requires (forall r :: r in rs <==> r in qs) && TracksLatest(rs, a) && TracksLatest(qs, b)
    ensures a.Keys == b.Keys
  {
    forall k: nat ensures k in a <==> k in b { assert Seen(rs, k) <==> Seen(qs, k); }
  }

  /** The registers that reports of a rank can leave behind. */
  ghost function Registers(rs: seq<Report>): nat -> iset<LWW<int>> {
    (rank: nat) => iset x: LWW<int> | Report(rank, x.value, x.ts) in rs && x.replica == rank
  }

  /** Reports form a lattice when a rank's timestamp determines its value. */
  lemma WatermarkSemilattice(rs: seq<Report>)
    requires Determined(rs)
    ensures Semilattice(WatermarkJoin, MapCarrier(Registers(rs)))
    ensures ElementsOf(Updates(rs)) <= MapCarrier(Registers(rs))
  {
    forall k: nat ensures Semilattice(LwwInt, Registers(rs)(k)) {
      var h := Registers(rs)(k);
      forall a, b | a in h && b in h && a.ts == b.ts ensures a.value == b.value {
        assert Report(k, a.value, a.ts) in rs && Report(k, b.value, b.ts) in rs;
      }
      forall a, b | a in h && b in h ensures Commutes(LwwInt, h, a, b) {}
      forall a, b, d | a in h && b in h && d in h ensures Associates(LwwInt, a, b, d) {}
    }
    MapSemilattice<nat, LWW<int>>(LwwInt, Registers(rs));
    forall u | u in Updates(rs) ensures u in MapCarrier(Registers(rs)) {
      var i :| 0 <= i < |rs| && Updates(rs)[i] == u;
      assert rs[i] in rs;
    }
  }

  /** However split ports batch, reorder and repeat the reports, the state is that of delivering them one by one. */
  lemma WatermarkReduces(rs: seq<Report>, ts: seq<Tree<Watermark>>)
    requires Determined(rs) && (forall i | 0 <= i < |ts| :: WellFormed(ts[i]))
    requires ElementsOf(LeavesOf(ts)) == ElementsOf(Updates(rs))
    ensures var us := ReduceTrees(LatticeReducer(WatermarkJoin), ts);
            us.Some? && Fold(WatermarkJoin, map[], us.value) == WatermarkState(rs)
  {
    WatermarkSemilattice(rs);
    var empty: Watermark, c := map[], MapCarrier(Registers(rs));
    assert empty in c;
    ReductionRefinesAccumulation<Watermark>(WatermarkJoin, c, empty, ts, Updates(rs));
  }

  /** So every rank ends with its latest report. */
  lemma WatermarkThroughReduction(rs: seq<Report>, ts: seq<Tree<Watermark>>)
    requires Determined(rs) && (forall i | 0 <= i < |ts| :: WellFormed(ts[i]))
    requires ElementsOf(LeavesOf(ts)) == ElementsOf(Updates(rs))
    ensures var us := ReduceTrees(LatticeReducer(WatermarkJoin), ts);
            us.Some? && TracksLatest(rs, Fold(WatermarkJoin, map[], us.value))
  {
    WatermarkReduces(rs, ts);
    WatermarkTracksLatest(rs);
  }

  /** `v` is the least value of any rank. */
  ghost predicate IsWatermark(m: Watermark, v: int) {
    (exists k | k in m :: m[k].value == v) && forall k | k in m :: v <= m[k].value
  }

  /** `WatermarkUpdate::get`: the minimum over the tracked ranks; `None` is the panic on an empty map. */
  method WatermarkGet(m: Watermark) returns (v: Option<int>)
    ensures v.None? <==> m == map[]
    ensures v.Some? ==> IsWatermark(m, v.value)
  {
    if m == map[] {
      return None;
    }
    var todo := m.Keys;
    var first :| first in todo;
    var least := m[first].value;
    todo := todo - {first};
    while todo != {}
      invariant todo <= m.Keys && (exists k | k in m :: m[k].value == least)
      invariant forall k | k in m && k !in todo :: least <= m[k].value
      decreases |todo|
    {
      var k :| k in todo;
      if m[k].value < least { least := m[k].value; }
      todo := todo - {k};
    }
    v := Some(least);
  }

  /** No report of the same rank is later. */
  ghost predicate Latest(rs: seq<Report>, r: Report) {
    r in rs && forall q | q in rs && q.rank == r.rank :: q.ts <= r.ts
  }

  /**
   End to end: after a non-empty delivery, in any batches, order and multiplicity, the watermark is the least
   value among the ranks' latest reports.
   */
  lemma WatermarkEndToEnd(rs: seq<Report>, ts: seq<Tree<Watermark>>, v: int)
    requires rs != [] && Determined(rs) && (forall i | 0 <= i < |ts| :: WellFormed(ts[i]))
    requires ElementsOf(LeavesOf(ts)) == ElementsOf(Updates(rs))
    ensures var us := ReduceTrees(LatticeReducer(WatermarkJoin), ts);
            && us.Some?
            && var m := Fold(WatermarkJoin, map[], us.value);
            && m != map[]
            && (IsWatermark(m, v) <==> (exists r :: Latest(rs, r) && r.value == v) && forall r | Latest(rs, r) ::
                  v <= r.value)
  {
    WatermarkThroughReduction(rs, ts);
    var m := Fold(WatermarkJoin, map[], ReduceTrees(LatticeReducer(WatermarkJoin), ts).value);
    assert Seen(rs, rs[0].rank);
    LatestAreTracked(rs, m);
    if IsWatermark(m, v) {
      var k :| k in m && m[k].value == v;
      assert Latest(rs, Report(k, m[k].value, m[k].ts));
    }
  }

  /** The tracked values are the values of the latest reports. */
  lemma LatestAreTracked(rs: seq<Report>, m: Watermark)
    requires Determined(rs) && TracksLatest(rs, m)
    ensures forall r | Latest(rs, r) :: r.rank in m && m[r.rank].value == r.value
    ensures forall k: nat | k in m :: Latest(rs, Report(k, m[k].value, m[k].ts))
  {
    forall r | Latest(rs, r) ensures r.rank in m && m[r.rank].value == r.value {
      assert Seen(rs, r.rank);
      assert IsLatest(rs, r.rank, m[r.rank]);
    }
    forall k: nat | k in m ensures Latest(rs, Report(k, m[k].value, m[k].ts)) { assert IsLatest(rs, k, m[k]); }
  }

  // ---------------------------------------------------------------------------------------------
  // Counters
  // ---------------------------------------------------------------------------------------------

  type Counter = map<nat, nat>

  function MaxU64(a: nat, b: nat): nat {
    if a >= b then a else b
  }

  /** Sum of all ranks' counts. */
  ghost function Sum(m: Counter): nat
    decreases m.Keys
  {
    if m == map[] then 0 else var k :| k in m; m[k] + Sum(m - {k})
  }

  lemma {:induction false} SumWithout(m: Counter, k: nat)
    requires k in m
    ensures Sum(m) == m[k] + Sum(m - {k})
    decreases m.Keys
  {
    var j :| j in m && Sum(m) == m[j] + Sum(m - {j});
    if j != k {
      SumWithout(m - {j}, k);
      SumWithout(m - {k}, j);
      assert m - {j} - {k} == m - {k} - {j};
    }
  }

  /**
   `GCounterUpdate::get`: `None` is overflow, which happens exactly when the total does not fit, in whatever order.
   */
  method GCounterGet(m: Counter) returns (total: Option<nat>)
    ensures total.Some? <==> Sum(m) < TWO_64
    ensures total.Some? ==> total.value == Sum(m)
  {
    var sum := 0;
    var rest := m;
    while rest != map[]
      invariant sum + Sum(rest) == Sum(m) && sum < TWO_64
      decreases rest.Keys
    {
      var k :| k in rest;
      SumWithout(rest, k);
      if sum + rest[k] >= TWO_64 {
        return None;
      }
      sum := sum + rest[k];
      rest := rest - {k};
    }
    total := Some(sum);
  }

  lemma {:induction false} SumPointwise(a: Counter, b: Counter)
    requires a.Keys <= b.Keys && forall k | k in a :: a[k] <= b[k]
    ensures Sum(a) <= Sum(b)
    decreases a.Keys
  {
    if a != map[] {
      var k :| k in a;
      SumWithout(a, k);
      SumWithout(b, k);
      SumPointwise(a - {k}, b - {k});
    }
  }

  /** `get` is monotone in `leq`. */
  lemma GetIsMonotone(a: Counter, b: Counter)
    requires Leq(JoinMaps<nat, nat>(MaxU64), a, b)
    ensures Sum(a) <= Sum(b)
  {
    MapLeqIsPointwise<nat, nat>(MaxU64, a, b);
    forall k | k in a ensures a[k] <= b[k] { assert Leq(MaxU64, a[k], b[k]); }
    SumPointwise(a, b);
  }

  lemma {:induction false} SumBounded(m: Counter, a: Counter, b: Counter)
    requires forall k | k in m :: m[k] <= (if k in a then a[k] else 0) + (if k in b then b[k] else 0)
    ensures Sum(m) <= Sum(a) + Sum(b)
    decreases m.Keys
  {
    if m != map[] {
      var k :| k in m;
      SumWithout(m, k);
      if k in a { SumWithout(a, k); }
      if k in b { SumWithout(b, k); }
      SumBounded(m - {k}, a - {k}, b - {k});
      assert k !in a ==> a - {k} == a;
      assert k !in b ==> b - {k} == b;
    }
  }

  /** The count of a rank, 0 when it has none. */
  function CountOf(m: Counter, k: nat): nat {
    if k in m then m[k] else 0
  }

  /** Joining counters keeps the greater count of every rank: it loses no count and invents none. */
  lemma GCounterBounds(a: Counter, b: Counter)
    ensures var j := MapJoin<nat, nat>(MaxU64, a, b);
            && Sum(a) <= Sum(j) && Sum(b) <= Sum(j) && Sum(j) <= Sum(a) + Sum(b)
            && forall k :: && CountOf(j, k) >= CountOf(a, k) && CountOf(j, k) >= CountOf(b, k)
                           && (CountOf(j, k) == CountOf(a, k) || CountOf(j, k) == CountOf(b, k))
  {
    var j := MapJoin<nat, nat>(MaxU64, a, b);
    SumPointwise(a, j);
    SumPointwise(b, j);
    SumBounded(j, a, b);
  }

  const TWO_63: int := 0x8000_0000_0000_0000
  const TWO_64: int := 0x1_0000_0000_0000_0000

  /** `x as i64`, and wrap-around of an i64 result. */
  function WrapI64(x: int): int {
    var r := x % TWO_64;
    if r < TWO_63 then r else r - TWO_64
  }

  /** `p as i64 - n as i64` as an exact integer; a debug build panics when it is not an i64. */
  function PnDifference(p: nat, n: nat): int {
    WrapI64(p) - WrapI64(n)
  }

  /** The wrapped value is the one i64 value congruent to `x`. */
  lemma WrapIsUnique(x: int, y: int, wraps: int)
    requires x == y + wraps * TWO_64 && -TWO_63 <= y < TWO_63
    ensures WrapI64(x) == y
  {
    var r := if y < 0 then y + TWO_64 else y;
    var q := if y < 0 then wraps - 1 else wraps;
    assert x == q * TWO_64 + r && 0 <= r < TWO_64;
    assert x % TWO_64 == r;
  }

  /**
   The PN counter's value is exact when both totals are i64 values, and with wrapping subtraction exactly
   when the true difference is an i64 value.
   */
  lemma PnValueExact(p: nat, n: nat)
    requires p < TWO_64 && n < TWO_64
    ensures p < TWO_63 && n < TWO_63 ==> PnDifference(p, n) == p - n && -TWO_63 <= PnDifference(p, n) < TWO_63
    ensures WrapI64(PnDifference(p, n)) == p - n <==> -TWO_63 <= p - n < TWO_63
  {
    var wp, wn := if p < TWO_63 then 0 else 1, if n < TWO_63 then 0 else 1;
    WrapIsUnique(p, p - wp * TWO_64, wp);
    WrapIsUnique(n, n - wn * TWO_64, wn);
    if -TWO_63 <= p - n < TWO_63 { WrapIsUnique(PnDifference(p, n), p - n, wn - wp); }
  }
}
