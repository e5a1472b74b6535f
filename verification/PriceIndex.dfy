/**
 * The index price: stale sources are dropped, then sources far from the lower median, then the rest is averaged.
 */
module PriceIndex {
  import opened Protocol
  import opened Sums
  import Fixed

  type Prices = map<string, U64>

  datatype SourcePrice = SourcePrice(price: U64, ts: int)

  datatype Reason = Stale | Deviation

  /** `index` is zero when there is none. */
  datatype IndexResult = IndexResult(index: U64, ok: bool, usable: set<string>, rejected: map<string, Reason>)

  // ---------- the lower median ----------

  function Below(m: Prices, v: U64): set<string> {
    set n | n in m && m[n] < v
  }

  function UpTo(m: Prices, v: U64): set<string> {
    set n | n in m && m[n] <= v
  }

  /** At most half, rounded down, lie strictly below it, and more than that lie at or below it. */
  ghost predicate LowerMedian(m: Prices, v: U64) {
    && (exists n :: n in m && m[n] == v)
    && |Below(m, v)| <= (|m| - 1) / 2 < |UpTo(m, v)|
  }

  lemma MedianUnique(m: Prices, v: U64, w: U64)
    requires LowerMedian(m, v) && LowerMedian(m, w)
    ensures v == w
  {
    if v < w {
      SubsetSize(UpTo(m, v), Below(m, w));
    } else if w < v {
      SubsetSize(UpTo(m, w), Below(m, v));
    }
  }

  function Names(names: seq<string>): set<string> {
    set n | n in names
  }

  lemma {:induction false} DistinctSize(names: seq<string>)
    requires forall i, j :: 0 <= i < j < |names| ==> names[i] != names[j]
    ensures |Names(names)| == |names|
  {
    if names != [] {
      var front, last := names[..|names| - 1], names[|names| - 1];
      DistinctSize(front);
      assert Names(names) == Names(front) + {last};
    }
  }

  /** All sources from the cheapest to the dearest. */
  predicate Ascending(m: Prices, names: seq<string>) {
    && Names(names) == m.Keys
    && (forall i, j :: 0 <= i < j < |names| ==> names[i] != names[j])
    && (forall i, j :: 0 <= i < j < |names| && names[i] in m && names[j] in m ==> m[names[i]] <= m[names[j]])
  }

  /** It is the one in the middle of any such list, and of two middle ones the cheaper. */
  lemma MedianIsMiddle(m: Prices, names: seq<string>, v: U64)
    requires names != [] && Ascending(m, names)
    ensures names[(|names| - 1) / 2] in m
    ensures LowerMedian(m, v) <==> v == m[names[(|names| - 1) / 2]]
  {
    MiddleIsMedian(m, names);
    hide LowerMedian, Ascending;
    if LowerMedian(m, v) {
      MedianUnique(m, v, m[names[(|names| - 1) / 2]]);
    }
  }

  lemma MiddleIsMedian(m: Prices, names: seq<string>)
    requires names != [] && Ascending(m, names)
    ensures names[(|names| - 1) / 2] in m && LowerMedian(m, m[names[(|names| - 1) / 2]])
  {
    var k := (|names| - 1) / 2;
    assert forall i :: 0 <= i < |names| ==> names[i] in Names(names);
    DistinctSize(names);
    assert |m.Keys| == |m|;
    BeforeMiddle(m, names, k);
    hide Ascending, Below, UpTo;
  }

  lemma BeforeMiddle(m: Prices, names: seq<string>, k: nat)
    requires Ascending(m, names) && k < |names| && names[k] in m
    ensures |Below(m, m[names[k]])| <= k < |UpTo(m, m[names[k]])|
  {
    DistinctSize(names[..k]);
    DistinctSize(names[..k + 1]);
    forall n | n in Below(m, m[names[k]])
      ensures n in Names(names[..k])
    {
      assert n in Names(names);
      var i :| 0 <= i < |names| && names[i] == n;
      assert n == names[..k][i];
    }
    forall n | n in Names(names[..k + 1])
      ensures n in UpTo(m, m[names[k]])
    {
      var i :| 0 <= i < k + 1 && names[..k + 1][i] == n;
      assert names[i] in Names(names);
    }
    hide Ascending;
    SubsetSize(Below(m, m[names[k]]), Names(names[..k]));
    SubsetSize(Names(names[..k + 1]), UpTo(m, m[names[k]]));
  }

  /** A majority inside an interval pulls the median inside. */
  lemma MajorityHoldsMedian(m: Prices, v: U64, lo: U64, hi: U64)
    requires LowerMedian(m, v)
    requires 2 * |set n | n in m && lo <= m[n] <= hi| > |m|
    ensures lo <= v <= hi
  {
    var inside := set n | n in m && lo <= m[n] <= hi;
    if v < lo {
      Disjoint(inside, UpTo(m, v), m.Keys);
    } else if hi < v {
      SubsetSize(inside, Below(m, v));
    }
    assert |m.Keys| == |m|;
  }

  lemma Disjoint<T>(a: set<T>, b: set<T>, all: set<T>)
    requires a <= all && b <= all && a !! b
    ensures |a| + |b| <= |all|
  {
    SubsetSize(a + b, all);
    assert |a + b| == |a| + |b|;
  }

  lemma {:induction false} LeastExists(m: Prices)
    requires m != map[]
    ensures exists n :: n in m && forall q | q in m :: m[n] <= m[q]
    decreases m.Keys
  {
    var x :| x in m;
    var rest := m - {x};
    if rest == map[] {
      assert forall q | q in m :: q == x by {
        assert forall q | q in m && q != x :: q in rest;
      }
    } else {
      LeastExists(rest);
      var n :| n in rest && forall q | q in rest :: rest[n] <= rest[q];
      var least := if m[x] <= m[n] then x else n;
      assert forall q | q in m :: q == x || q in rest;
      assert least in m && forall q | q in m :: m[least] <= m[q];
    }
  }

  method MedianOf(m: Prices) returns (v: U64)
    requires m != map[]
    ensures LowerMedian(m, v)
  {
    assert |m.Keys| == |m| && |m| > 0;
    var k := (|m| - 1) / 2;
    var rest := m;
    var i := 0;
    ghost var taken: set<string> := {};
    while i < k
      invariant i <= k && |taken| == i && |rest| == |m| - i
      invariant taken !! rest.Keys && taken + rest.Keys == m.Keys
      invariant forall n | n in rest :: n in m && rest[n] == m[n]
      invariant forall t, q | t in taken && q in rest :: m[t] <= m[q]
    {
      NotEmpty(rest);
      LeastExists(rest);
      var n :| n in rest && forall q | q in rest :: rest[n] <= rest[q];
      OneLess(rest, n);
      taken := taken + {n};
      rest := rest - {n};
      i := i + 1;
    }
    NotEmpty(rest);
    LeastExists(rest);
    var n :| n in rest && forall q | q in rest :: rest[n] <= rest[q];
    v := rest[n];
    SubsetSize(Below(m, v), taken);
    SubsetSize(taken + {n}, UpTo(m, v));
  }

  lemma NotEmpty(m: Prices)
    ensures |m| > 0 <==> m != map[]
  {
  }

  lemma OneLess(m: Prices, n: string)
    requires n in m
    ensures |m - {n}| == |m| - 1
  {
  }

  // ---------- the index ----------

  predicate IsFresh(p: SourcePrice, now: int, stale: int) {
    now - p.ts <= stale && p.price != 0
  }

  function Fresh(pxs: map<string, SourcePrice>, now: int, stale: int): Prices {
    map n | n in pxs && IsFresh(pxs[n], now, stale) :: pxs[n].price
  }

  function Distance(a: U64, b: U64): U64 {
    if a > b then a - b else b - a
  }

  /** Within maxDev of the median, as a rounded-down fraction of it. */
  predicate Near(p: U64, med: U64, maxDev: U64) {
    0 < med && Distance(p, med) * SCALE / med <= maxDev
  }

  function Usable(live: Prices, med: U64, maxDev: U64): Prices {
    map n | n in live && Near(live[n], med, maxDev) :: live[n]
  }

  function Rejections(pxs: map<string, SourcePrice>, live: Prices, usable: Prices): map<string, Reason> {
    map n | n in pxs && n !in usable :: if n in live then Deviation else Stale
  }

  /** The 64-bit sum wraps around. */
  ghost function Average(usable: Prices): U64
    requires usable != map[]
  {
    NotEmpty(usable);
    assert 0 <= (Sum(usable) % U64_MODULUS) / |usable| <= Sum(usable) % U64_MODULUS by {
      Fixed.FloorAtMost(Sum(usable) % U64_MODULUS, Sum(usable) % U64_MODULUS, 1);
      SmallQuotient(Sum(usable) % U64_MODULUS, |usable|);
    }
    (Sum(usable) % U64_MODULUS) / |usable|
  }

  lemma SmallQuotient(x: nat, k: nat)
    requires k > 0
    ensures 0 <= x / k <= x
  {
    Fixed.MulMono(x, 1, k);
    Fixed.FloorAtMost(x, x, k);
  }

  ghost predicate IndexFrom(pxs: map<string, SourcePrice>, live: Prices, med: U64, maxDev: U64, r: IndexResult) {
    var usable := Usable(live, med, maxDev);
    usable != map[] && r == IndexResult(Average(usable), true, usable.Keys, Rejections(pxs, live, usable))
  }

  ghost predicate IsIndex(pxs: map<string, SourcePrice>, now: int, stale: int, maxDev: U64, r: IndexResult) {
    var live := Fresh(pxs, now, stale);
    if live == map[] then r == IndexResult(0, false, {}, Rejections(pxs, live, map[]))
    else exists med: U64 :: LowerMedian(live, med) && IndexFrom(pxs, live, med, maxDev, r)
  }

  method ComputeIndex(pxs: map<string, SourcePrice>, now: int, stale: int, maxDev: U64) returns (r: IndexResult)
    ensures IsIndex(pxs, now, stale, maxDev, r)
  {
    var live, rejected := DropStale(pxs, now, stale);
    if live == map[] {
      assert rejected == Rejections(pxs, live, map[]);
      return IndexResult(0, false, {}, rejected);
    }
    var med := MedianOf(live);
    MedianIsUsable(live, med, maxDev);
    var usable, deviating := DropDeviating(live, med, maxDev);
    var total := Total(usable);
    NotEmpty(usable);
    SmallQuotient(total, |usable|);
    r := IndexResult(total / |usable|, true, usable.Keys, rejected + deviating);
    assert rejected + deviating == Rejections(pxs, live, usable);
    assert IndexFrom(pxs, live, med, maxDev, r);
  }

  method DropStale(pxs: map<string, SourcePrice>, now: int, stale: int)
    returns (live: Prices, rejected: map<string, Reason>)
    ensures live == Fresh(pxs, now, stale)
    ensures rejected == map n | n in pxs && !IsFresh(pxs[n], now, stale) :: Stale
  {
    live, rejected := map[], map[];
    var names := pxs.Keys;
    while names != {}
      invariant names <= pxs.Keys
      invariant live == map n | n in pxs && n !in names && IsFresh(pxs[n], now, stale) :: pxs[n].price
      invariant rejected == map n | n in pxs && n !in names && !IsFresh(pxs[n], now, stale) :: Stale
      decreases |names|
    {
      var n :| n in names;
      names := names - {n};
      if now - pxs[n].ts > stale || pxs[n].price == 0 {
        rejected := rejected[n := Stale];
      } else {
        live := live[n := pxs[n].price];
      }
    }
  }

  method DropDeviating(live: Prices, med: U64, maxDev: U64) returns (usable: Prices, rejected: map<string, Reason>)
    requires 0 < med
    ensures usable == Usable(live, med, maxDev)
    ensures rejected == map n | n in live && !Near(live[n], med, maxDev) :: Deviation
  {
    usable, rejected := map[], map[];
    var names := live.Keys;
    while names != {}
      invariant names <= live.Keys
      invariant usable == map n | n in live && n !in names && Near(live[n], med, maxDev) :: live[n]
      invariant rejected == map n | n in live && n !in names && !Near(live[n], med, maxDev) :: Deviation
      decreases |names|
    {
      var n :| n in names;
      names := names - {n};
      var dev := Fixed.MulDiv(Distance(live[n], med), SCALE, med);
      Deviates(live[n], med, maxDev);
      if dev.Err? || dev.value > maxDev {
        rejected := rejected[n := Deviation];
      } else {
        usable := usable[n := live[n]];
      }
    }
  }

  /** An overflowing deviation is beyond every limit. */
  lemma Deviates(p: U64, med: U64, maxDev: U64)
    requires 0 < med
    ensures var dev := Fixed.MulDiv(Distance(p, med), SCALE, med);
            Near(p, med, maxDev) <==> !(dev.Err? || dev.value > maxDev)
  {
    Fixed.MulDivIsFloor(Distance(p, med), SCALE, med);
  }

  /** The median is at distance zero from itself. */
  lemma MedianIsUsable(live: Prices, med: U64, maxDev: U64)
    requires LowerMedian(live, med) && forall n | n in live :: live[n] != 0
    ensures Usable(live, med, maxDev) != map[]
  {
    var n :| n in live && live[n] == med;
    assert n in Usable(live, med, maxDev);
  }

  function Wrapped(x: int): U64 {
    x % U64_MODULUS
  }

  method Total(usable: Prices) returns (sum: U64)
    ensures sum == Wrapped(Sum(usable))
  {
    hide Wrapped, Sum;
    sum := 0;
    var rest := usable;
    while rest != map[]
      invariant Wrapped(sum + Sum(rest)) == Wrapped(Sum(usable))
      decreases |rest|
    {
      var n :| n in rest;
      TotalStep(sum, rest, n);
      OneLess(rest, n);
      sum := Wrapped(sum + rest[n]);
      rest := rest - {n};
    }
    NothingLeft();
    WrappedSmall(sum);
  }

  lemma NothingLeft()
    ensures Sum<string>(map[]) == 0
  {
  }

  lemma WrappedSmall(x: U64)
    ensures Wrapped(x) == x
  {
  }

  lemma TotalStep(sum: U64, rest: Prices, n: string)
    requires n in rest
    ensures Wrapped(Wrapped(sum + rest[n]) + Sum(rest - {n})) == Wrapped(sum + Sum(rest))
  {
    SumTakeOut(rest, n);
    ModAdd(sum + rest[n], Sum(rest - {n}));
  }

  lemma ModAdd(x: int, y: int)
    ensures (x % U64_MODULUS + y) % U64_MODULUS == (x + y) % U64_MODULUS
  {
  }

  // ---------- what the index promises ----------

  /** The result does not depend on the order in which sources are visited. */
  lemma IndexUnique(pxs: map<string, SourcePrice>, now: int, stale: int, maxDev: U64, r: IndexResult, q: IndexResult)
    requires IsIndex(pxs, now, stale, maxDev, r) && IsIndex(pxs, now, stale, maxDev, q)
    ensures r == q
  {
    var live := Fresh(pxs, now, stale);
    if live != map[] {
      forall v: U64, w: U64 | LowerMedian(live, v) && LowerMedian(live, w)
        ensures v == w
      {
        MedianUnique(live, v, w);
      }
    }
  }

  /** There is an index iff some source is fresh. */
  lemma IndexExistsIff(pxs: map<string, SourcePrice>, now: int, stale: int, maxDev: U64, r: IndexResult)
    requires IsIndex(pxs, now, stale, maxDev, r)
    ensures r.ok <==> exists n :: n in pxs && IsFresh(pxs[n], now, stale)
  {
    var live := Fresh(pxs, now, stale);
    if live == map[] {
      assert forall n | n in pxs && IsFresh(pxs[n], now, stale) :: n in live;
    } else {
      var n :| n in live;
      assert n in pxs && IsFresh(pxs[n], now, stale);
    }
  }

  /** Who is left out for being late or empty, and whether there is an index, in clock times and prices. */
  lemma StaleIff(pxs: map<string, SourcePrice>, now: int, stale: int, maxDev: U64, r: IndexResult)
    requires IsIndex(pxs, now, stale, maxDev, r)
    ensures r.usable !! r.rejected.Keys && r.usable + r.rejected.Keys == pxs.Keys
    ensures forall n | n in pxs ::
              n in r.rejected && r.rejected[n] == Stale <==> pxs[n].ts + stale < now || pxs[n].price == 0
    ensures r.ok <==> exists n :: n in pxs && now <= pxs[n].ts + stale && pxs[n].price != 0
    ensures !r.ok ==> r.index == 0 && r.usable == {}
  {
    hide IsIndex;
    var live := Fresh(pxs, now, stale);
    var usable := Parts(pxs, now, stale, maxDev, r);
    forall n | n in pxs
      ensures n in live <==> now <= pxs[n].ts + stale && pxs[n].price != 0
    {
    }
    if live != map[] {
      var n :| n in live;
      assert n in pxs;
    }
  }

  lemma Parts(pxs: map<string, SourcePrice>, now: int, stale: int, maxDev: U64, r: IndexResult) returns (usable: Prices)
    requires IsIndex(pxs, now, stale, maxDev, r)
    ensures var live := Fresh(pxs, now, stale);
            && usable.Keys <= live.Keys && r.usable == usable.Keys && r.rejected == Rejections(pxs, live, usable)
            && (r.ok <==> live != map[]) && (!r.ok ==> r.index == 0 && r.usable == {})
  {
    hide LowerMedian, Near, Average, Fresh, Rejections;
    var live := Fresh(pxs, now, stale);
    if live == map[] {
      usable := map[];
    } else {
      var med: U64 :| LowerMedian(live, med) && IndexFrom(pxs, live, med, maxDev, r);
      usable := Usable(live, med, maxDev);
      UsableIsLive(live, med, maxDev);
    }
  }

  lemma UsableIsLive(live: Prices, med: U64, maxDev: U64)
    ensures Usable(live, med, maxDev) != map[] ==> live != map[]
  {
  }

  /** Time only makes sources late: whoever is stale stays stale as the clock advances or reports get older. */
  lemma AgeingOnlyHurts(pxs: map<string, SourcePrice>, now: int, later: int, stale: int, maxDev: U64,
                        r: IndexResult, q: IndexResult, n: string)
    requires IsIndex(pxs, now, stale, maxDev, r) && IsIndex(pxs, later, stale, maxDev, q) && now <= later
    requires n in r.rejected && r.rejected[n] == Stale
    ensures n in q.rejected && q.rejected[n] == Stale
    ensures q.ok ==> r.ok
  {
    hide IsIndex;
    StaleIff(pxs, now, stale, maxDev, r);
    StaleIff(pxs, later, stale, maxDev, q);
  }

  /** Who is left out for deviating: a source in time whose price differs from the median by at least the first
      fraction beyond the limit. */
  lemma DeviationIff(pxs: map<string, SourcePrice>, now: int, stale: int, maxDev: U64, r: IndexResult, med: U64,
                     n: string)
    requires IsIndex(pxs, now, stale, maxDev, r) && LowerMedian(Fresh(pxs, now, stale), med) && n in pxs
    ensures n in r.rejected && r.rejected[n] == Deviation
            <==> now <= pxs[n].ts + stale && pxs[n].price != 0
                 && (maxDev + 1) * med
                    <= (if pxs[n].price > med then pxs[n].price - med else med - pxs[n].price) * SCALE
  {
    var live := Fresh(pxs, now, stale);
    MedianPositive(live, med);
    IndexIsFrom(pxs, now, stale, maxDev, r, med);
    hide LowerMedian, IsIndex, Average;
    NearIff(pxs[n].price, med, maxDev);
    hide Near;
  }

  lemma MedianPositive(live: Prices, med: U64)
    requires LowerMedian(live, med) && forall n | n in live :: live[n] != 0
    ensures 0 < med && live != map[]
  {
  }

  lemma IndexIsFrom(pxs: map<string, SourcePrice>, now: int, stale: int, maxDev: U64, r: IndexResult, med: U64)
    requires IsIndex(pxs, now, stale, maxDev, r) && LowerMedian(Fresh(pxs, now, stale), med)
    ensures IndexFrom(pxs, Fresh(pxs, now, stale), med, maxDev, r)
  {
    var live := Fresh(pxs, now, stale);
    MedianUniqueIn(live, med);
    hide LowerMedian, IndexFrom, Fresh;
  }

  lemma MedianUniqueIn(live: Prices, med: U64)
    requires LowerMedian(live, med)
    ensures live != map[] && forall v: U64 | LowerMedian(live, v) :: v == med
  {
    forall v: U64 | LowerMedian(live, v)
      ensures v == med
    {
      MedianUnique(live, v, med);
    }
  }

  lemma {:induction false} SumBounds(m: Prices, lo: nat, hi: nat)
    requires forall n | n in m :: lo <= m[n] <= hi
    ensures |m| * lo <= Sum(m) <= |m| * hi
    decreases |m|
  {
    if m != map[] {
      var n :| n in m;
      SumTakeOut(m, n);
      OneLess(m, n);
      SumBounds(m - {n}, lo, hi);
      Times(|m| - 1, lo);
      Times(|m| - 1, hi);
    } else {
      NotEmpty(m);
    }
  }

  lemma Times(k: nat, x: nat)
    ensures (k + 1) * x == k * x + x
  {
  }

  lemma QuotientBetween(x: nat, k: nat, lo: nat, hi: nat)
    requires k > 0 && k * lo <= x <= k * hi
    ensures lo <= x / k <= hi
  {
    Fixed.Over(x, lo, k);
    Fixed.FloorAtMost(x, hi, k);
  }

  /** The average is the mean, rounded down, exactly when the sum fits in 64 bits. */
  lemma AverageIsMeanIff(usable: Prices)
    requires usable != map[] && |usable| < U64_MODULUS
    ensures 0 < |usable| && (Average(usable) == Sum(usable) / |usable| <==> Sum(usable) < U64_MODULUS)
  {
    NotEmpty(usable);
    SumBounds(usable, 0, U64_MODULUS - 1);
    Fixed.MulMono(|usable|, 0, 0);
    hide Sum;
    WrapsIff(Sum(usable), |usable|);
  }

  lemma WrapsIff(s: int, k: nat)
    requires 0 <= s && 0 < k <= U64_MODULUS
    ensures (s % U64_MODULUS) / k == s / k <==> s < U64_MODULUS
  {
    if s >= U64_MODULUS {
      WrappedQuotient(s, k);
    } else {
      assert s % U64_MODULUS == s;
    }
  }

  lemma WrappedQuotient(s: nat, k: nat)
    requires U64_MODULUS <= s && 0 < k <= U64_MODULUS
    ensures (s % U64_MODULUS) / k < s / k
  {
    var r := s % U64_MODULUS;
    assert s >= r + U64_MODULUS;
    assert r / k * k <= r;
    Times(r / k, k);
    Fixed.Over(s, r / k + 1, k);
  }

  /** A sum that wraps loses at least one whole 64-bit range. */
  lemma AverageWrapped(usable: Prices)
    requires usable != map[] && U64_MODULUS <= Sum(usable)
    ensures Average(usable) * |usable| <= Sum(usable) - U64_MODULUS
  {
    NotEmpty(usable);
    var s := Sum(usable);
    assert s % U64_MODULUS <= s - U64_MODULUS;
    hide Sum;
    assert (s % U64_MODULUS) / |usable| * |usable| <= s % U64_MODULUS;
  }

  function Restrict(m: Prices, names: set<string>): Prices {
    map n | n in m && n in names :: m[n]
  }

  ghost function SumOver(m: Prices, names: set<string>): int {
    Sum(Restrict(m, names))
  }

  /** The index is the average of what the result calls usable, and that is what lies near the median. */
  lemma IndexIs(pxs: map<string, SourcePrice>, now: int, stale: int, maxDev: U64, r: IndexResult, med: U64)
    requires IsIndex(pxs, now, stale, maxDev, r) && r.ok && LowerMedian(Fresh(pxs, now, stale), med)
    ensures var usable := Restrict(Fresh(pxs, now, stale), r.usable);
            && usable != map[] && r.index == Average(usable) && |r.usable| == |usable|
            && forall n | n in usable :: Near(usable[n], med, maxDev)
  {
    var live := Fresh(pxs, now, stale);
    var v: U64 :| LowerMedian(live, v) && IndexFrom(pxs, live, v, maxDev, r);
    MedianUnique(live, v, med);
    var usable := Usable(live, med, maxDev);
    assert usable == Restrict(live, r.usable);
    assert |usable.Keys| == |usable|;
  }

  /** The index lies between any bounds of the usable prices if their sum fits; if it does not fit, and prices
      times sources spread less than the 64-bit range, the index falls below all of them. */
  lemma IndexBetween(pxs: map<string, SourcePrice>, now: int, stale: int, maxDev: U64, r: IndexResult, a: U64, b: U64)
    requires IsIndex(pxs, now, stale, maxDev, r) && r.ok && a <= b
    requires forall n | n in Restrict(Fresh(pxs, now, stale), r.usable) :: a <= Fresh(pxs, now, stale)[n] <= b
    ensures SumOver(Fresh(pxs, now, stale), r.usable) < U64_MODULUS ==> a <= r.index <= b
    ensures |r.usable| * (b - a) < U64_MODULUS <= SumOver(Fresh(pxs, now, stale), r.usable) ==> r.index < a
  {
    var live := Fresh(pxs, now, stale);
    var med: U64 :| LowerMedian(live, med) && IndexFrom(pxs, live, med, maxDev, r);
    IndexIs(pxs, now, stale, maxDev, r, med);
    hide LowerMedian, IsIndex, IndexFrom, Near, Average;
    AverageEither(Restrict(live, r.usable), a, b);
  }

  lemma AverageEither(usable: Prices, a: nat, b: nat)
    requires usable != map[] && a <= b && forall n | n in usable :: a <= usable[n] <= b
    ensures Sum(usable) < U64_MODULUS ==> a <= Average(usable) <= b
    ensures |usable| * (b - a) < U64_MODULUS <= Sum(usable) ==> Average(usable) < a
  {
    hide Average;
    if Sum(usable) < U64_MODULUS {
      AverageBetween(usable, a, b);
    } else {
      AverageWrapped(usable);
      SumBounds(usable, a, b);
      if |usable| * (b - a) < U64_MODULUS {
        FallsBelow(Average(usable), |usable|, Sum(usable), a, b);
      }
    }
  }

  lemma FallsBelow(index: nat, k: nat, sum: nat, a: nat, b: nat)
    requires index * k <= sum - U64_MODULUS && sum <= k * b && k * (b - a) < U64_MODULUS
    ensures index < a
  {
    assert k * (b - a) == k * b - k * a;
    Fixed.MonoIf(index, a, k);
  }

  lemma AverageBetween(usable: Prices, a: nat, b: nat)
    requires usable != map[] && Sum(usable) < U64_MODULUS && forall n | n in usable :: a <= usable[n] <= b
    ensures a <= Average(usable) <= b
  {
    NotEmpty(usable);
    SumBounds(usable, a, b);
    Fixed.MulMono(|usable|, 0, a);
    assert Sum(usable) % U64_MODULUS == Sum(usable);
    QuotientBetween(Sum(usable), |usable|, a, b);
  }

  // ---------- distance from the median ----------

  /** How far, scaled, a usable price may be from the median; never reached. */
  function Window(med: U64, maxDev: U64): nat {
    (maxDev + 1) * med
  }

  lemma NearIff(p: U64, med: U64, maxDev: U64)
    requires 0 < med
    ensures Near(p, med, maxDev) <==> Distance(p, med) * SCALE < Window(med, maxDev)
  {
    var x := Distance(p, med) * SCALE;
    if x >= Window(med, maxDev) {
      Fixed.Over(x, maxDev + 1, med);
    } else {
      Fixed.Under(x, maxDev + 1, med);
    }
  }

  /** The scaled range that near prices share, as bounds on the prices themselves. */
  lemma NearRange(usable: Prices, med: U64, maxDev: U64) returns (least: nat, most: nat)
    requires 0 < med && forall n | n in usable :: Near(usable[n], med, maxDev)
    ensures forall n | n in usable :: least <= usable[n] <= most
    ensures most * SCALE < med * SCALE + Window(med, maxDev) && med * SCALE < least * SCALE + Window(med, maxDev)
  {
    var d := Window(med, maxDev);
    Fixed.MulMono(med, 1, maxDev + 1);
    var top := med * SCALE + d - 1;
    var bottom := if med * SCALE < d then 0 else med * SCALE - d + 1;
    most, least := top / SCALE, if bottom == 0 then 0 else (bottom - 1) / SCALE + 1;
    forall n | n in usable
      ensures least <= usable[n] <= most
    {
      NearIff(usable[n], med, maxDev);
    }
  }

  /** The index is as near the median as every usable source exactly when the sum fits, provided that the sources
      times twice the window stay within the scaled 64-bit range (fewer than ten sources at a limit of 5%). */
  lemma IndexNearIff(pxs: map<string, SourcePrice>, now: int, stale: int, maxDev: U64, r: IndexResult, med: U64)
    requires IsIndex(pxs, now, stale, maxDev, r) && r.ok && LowerMedian(Fresh(pxs, now, stale), med)
    ensures SumOver(Fresh(pxs, now, stale), r.usable) < U64_MODULUS ==> Near(r.index, med, maxDev)
    ensures U64_MODULUS <= SumOver(Fresh(pxs, now, stale), r.usable)
            && |r.usable| * (2 * Window(med, maxDev)) <= U64_MODULUS * SCALE ==>
              !Near(r.index, med, maxDev)
  {
    IndexIs(pxs, now, stale, maxDev, r, med);
    hide LowerMedian, IsIndex, Average, Window;
    var usable := Restrict(Fresh(pxs, now, stale), r.usable);
    assert 0 < med by {
      var n :| n in usable;
      assert Near(usable[n], med, maxDev);
    }
    hide Near;
    var least, most := NearRange(usable, med, maxDev);
    NearIff(r.index, med, maxDev);
    if Sum(usable) < U64_MODULUS {
      AverageBetween(usable, least, most);
    } else {
      AverageWrapped(usable);
      SumBounds(usable, least, most);
      if |r.usable| * (2 * Window(med, maxDev)) <= U64_MODULUS * SCALE {
        FarBelow(r.index, |usable|, Sum(usable), most, med, Window(med, maxDev), Window(med, maxDev));
      }
    }
  }

  lemma FarBelow(index: nat, k: nat, sum: nat, most: nat, med: nat, d: nat, gap: nat)
    requires index * k <= sum - U64_MODULUS && sum <= k * most && most * SCALE < med * SCALE + d
    requires k * (d + gap) <= U64_MODULUS * SCALE
    ensures index * SCALE + gap <= med * SCALE
  {
    Fixed.MonoIf(sum - U64_MODULUS, index * k, SCALE);
    Fixed.MonoIf(k * most, sum, SCALE);
    Fixed.MulMono(k, most * SCALE, med * SCALE + d);
    Regroup(k, index);
    Regroup(k, most);
    Spread(k, med * SCALE, d);
    Spread(k, index * SCALE, gap);
    Spread(k, d, gap);
    Fixed.MonoIf(index * SCALE + gap, med * SCALE + 1, k);
  }

  lemma Regroup(k: nat, x: nat)
    ensures k * (x * SCALE) == (x * k) * SCALE
  {
  }

  lemma Spread(k: nat, x: nat, y: nat)
    ensures k * (x + y) == k * x + k * y
  {
  }

  /** Robustness: with a sum that fits, the index is within the window of any interval that holds more than half of
      the fresh prices; with one that does not fit and a moderate interval it is below that window. */
  lemma IndexRobust(pxs: map<string, SourcePrice>, now: int, stale: int, maxDev: U64, r: IndexResult, lo: U64, hi: U64)
    requires IsIndex(pxs, now, stale, maxDev, r) && r.ok
    requires var live := Fresh(pxs, now, stale); 2 * |set n | n in live && lo <= live[n] <= hi| > |live|
    ensures lo <= hi
    ensures SumOver(Fresh(pxs, now, stale), r.usable) < U64_MODULUS ==>
              r.index * SCALE < hi * SCALE + Window(hi, maxDev) && lo * SCALE < r.index * SCALE + Window(hi, maxDev)
    ensures U64_MODULUS <= SumOver(Fresh(pxs, now, stale), r.usable)
            && |r.usable| * ((hi - lo) * SCALE + 2 * Window(hi, maxDev)) <= U64_MODULUS * SCALE ==>
              r.index * SCALE + Window(hi, maxDev) <= lo * SCALE
  {
    var live := Fresh(pxs, now, stale);
    var med: U64 :| LowerMedian(live, med) && IndexFrom(pxs, live, med, maxDev, r);
    IndexIs(pxs, now, stale, maxDev, r, med);
    MajorityHoldsMedian(live, med, lo, hi);
    hide *;
    RobustEither(Restrict(live, r.usable), med, maxDev, lo, hi);
  }

  lemma RobustEither(usable: Prices, med: U64, maxDev: U64, lo: U64, hi: U64)
    requires usable != map[] && lo <= med <= hi && forall n | n in usable :: Near(usable[n], med, maxDev)
    ensures Sum(usable) < U64_MODULUS ==>
              Average(usable) * SCALE < hi * SCALE + Window(hi, maxDev)
              && lo * SCALE < Average(usable) * SCALE + Window(hi, maxDev)
    ensures U64_MODULUS <= Sum(usable)
            && |usable| * ((hi - lo) * SCALE + 2 * Window(hi, maxDev)) <= U64_MODULUS * SCALE ==>
              Average(usable) * SCALE + Window(hi, maxDev) <= lo * SCALE
  {
    assert 0 < med by {
      var n :| n in usable;
      assert Near(usable[n], med, maxDev);
    }
    Fixed.MulMono(maxDev + 1, med, hi);
    assert Window(med, maxDev) <= Window(hi, maxDev);
    hide Average, Near, Window;
    var least, most := NearRange(usable, med, maxDev);
    if Sum(usable) < U64_MODULUS {
      AverageBetween(usable, least, most);
    } else if |usable| * ((hi - lo) * SCALE + 2 * Window(hi, maxDev)) <= U64_MODULUS * SCALE {
      AverageWrapped(usable);
      SumBounds(usable, least, most);
      var gap := (med - lo) * SCALE + Window(hi, maxDev);
      Fixed.MulMono(|usable|, Window(med, maxDev) + gap, (hi - lo) * SCALE + 2 * Window(hi, maxDev));
      FarBelow(Average(usable), |usable|, Sum(usable), most, med, Window(med, maxDev), gap);
    }
  }

  // ---------- a sum that wraps ----------

  /** Two fresh sources that agree on a large price: their index is zero. */
  lemma WrappedIndexIsZero(r: IndexResult)
    requires IsIndex(map["a" := SourcePrice(0x8000_0000_0000_0000, 0), "b" := SourcePrice(0x8000_0000_0000_0000, 0)],
                     0, 0, 0, r)
    ensures r.ok && r.usable == {"a", "b"} && r.index == 0
  {
    var pxs := map["a" := SourcePrice(0x8000_0000_0000_0000, 0), "b" := SourcePrice(0x8000_0000_0000_0000, 0)];
    hide Average;
    var live := Fresh(pxs, 0, 0);
    BothFresh(pxs, live);
    TwoHalves(live);
    hide Fresh;
    var med: U64 :| LowerMedian(live, med) && IndexFrom(pxs, live, med, 0, r);
    AllUsable(live, med);
  }

  lemma BothFresh(pxs: map<string, SourcePrice>, live: Prices)
    requires pxs == map["a" := SourcePrice(0x8000_0000_0000_0000, 0), "b" := SourcePrice(0x8000_0000_0000_0000, 0)]
    requires live == Fresh(pxs, 0, 0)
    ensures live == map["a" := 0x8000_0000_0000_0000, "b" := 0x8000_0000_0000_0000]
  {
  }

  lemma AllUsable(live: Prices, med: U64)
    requires live == map["a" := 0x8000_0000_0000_0000, "b" := 0x8000_0000_0000_0000] && LowerMedian(live, med)
    ensures Usable(live, med, 0) == live
  {
    assert med == 0x8000_0000_0000_0000;
  }

  lemma TwoHalves(usable: Prices)
    requires usable == map["a" := 0x8000_0000_0000_0000, "b" := 0x8000_0000_0000_0000]
    ensures usable.Keys == {"a", "b"} && usable != map[] && Average(usable) == 0
  {
    assert "a" in usable;
    SumTakeOut(usable, "a");
    assert usable - {"a"} == map["b" := 0x8000_0000_0000_0000];
    SumTakeOut(usable - {"a"}, "b");
    assert usable - {"a"} - {"b"} == map[];
    assert Sum(usable) == U64_MODULUS;
    NotEmpty(usable);
    Fixed.FloorAtMost(0, 0, |usable|);
  }
}
