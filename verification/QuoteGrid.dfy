/**
 * The market maker's quote grid around the index: level by level, in 64-bit basis-point arithmetic.
 */
module QuoteGrid {
  import opened Protocol
  import opened Ledger
  import Fixed

  const BASE: U64 := 10_000

  datatype Quote = Quote(side: Side, price: U64)

  /** px * (1 + bps / 10000), rounded down; an error when it is out of range. */
  function ScaleBps(px: U64, bps: I64): Fixed.Result<U64> {
    if bps >= 0 then Fixed.MulDiv(px, BASE + bps, BASE)
    else if -(bps as int) >= BASE then Fixed.Err(Fixed.Invalid)
    else Fixed.MulDiv(px, BASE + bps, BASE)
  }

  /** Basis points of level i, in wrapping int64 arithmetic. */
  function BidBps(halfSpread: I64, skew: I64, i: I64): I64 {
    Signed(skew - Signed(halfSpread * i))
  }

  function AskBps(halfSpread: I64, skew: I64, i: I64): I64 {
    Signed(skew + Signed(halfSpread * i))
  }

  /** The two prices of one level, or nothing when the level is dropped. */
  function LevelOf(index: U64, halfSpread: I64, skew: I64, maxOffset: I64, i: I64): Option<(U64, U64)> {
    var bidBps, askBps := BidBps(halfSpread, skew, i), AskBps(halfSpread, skew, i);
    if maxOffset > 0 && (Abs(bidBps) > maxOffset || Abs(askBps) > maxOffset) then None
    else
      var bid, ask := ScaleBps(index, bidBps), ScaleBps(index, askBps);
      if bid.Err? || ask.Err? || bid.value == 0 || ask.value == 0 || bid.value >= ask.value then None
      else Some((bid.value, ask.value))
  }

  /** The quotes of levels 1 to n. */
  function Grid(index: U64, n: nat, halfSpread: I64, skew: I64, maxOffset: I64): seq<Quote>
    requires n <= I64_MAX
  {
    if n == 0 then []
    else
      Grid(index, n - 1, halfSpread, skew, maxOffset)
      + match LevelOf(index, halfSpread, skew, maxOffset, n)
        case None => []
        case Some((bid, ask)) => [Quote(Bid, bid), Quote(Ask, ask)]
  }

  method BuildGrid(index: U64, levels: I64, halfSpread: I64, skew: I64, maxOffset: I64) returns (out: seq<Quote>)
    ensures out == Grid(index, if levels < 1 then 1 else levels, halfSpread, skew, maxOffset)
  {
    var n: nat := if levels < 1 then 1 else levels;
    out := [];
    var i := 0;
    while i < n
      invariant i <= n && out == Grid(index, i, halfSpread, skew, maxOffset)
    {
      i := i + 1;
      var level := LevelOf(index, halfSpread, skew, maxOffset, i);
      if level.Some? {
        out := out + [Quote(Bid, level.value.0), Quote(Ask, level.value.1)];
      }
    }
  }

  // ---------- prices ----------

  lemma ScaleIs(px: U64, bps: I64)
    ensures ScaleBps(px, bps).Ok? <==> bps > -10_000 && px * (BASE + bps) / BASE < U64_MODULUS
    ensures ScaleBps(px, bps).Ok? ==> ScaleBps(px, bps).value == px * (BASE + bps) / BASE
  {
  }

  lemma ScaleMonotone(px: U64, a: I64, b: I64)
    requires a <= b && ScaleBps(px, a).Ok? && ScaleBps(px, b).Ok?
    ensures ScaleBps(px, a).value <= ScaleBps(px, b).value
  {
    ScaleIs(px, a);
    ScaleIs(px, b);
    Fixed.MulMono(px, BASE + a, BASE + b);
    FloorMono(px * (BASE + a), px * (BASE + b), BASE);
  }

  lemma FloorMono(x: nat, y: nat, d: nat)
    requires x <= y && 0 < d
    ensures x / d <= y / d
  {
    assert x / d * d <= x;
    Fixed.Over(y, x / d, d);
  }

  // ---------- kept levels ----------

  /** What it takes to be kept. */
  lemma KeptIs(index: U64, halfSpread: I64, skew: I64, maxOffset: I64, i: I64)
    requires LevelOf(index, halfSpread, skew, maxOffset, i).Some?
    ensures var (bid, ask) := LevelOf(index, halfSpread, skew, maxOffset, i).value;
            var b, a := BidBps(halfSpread, skew, i), AskBps(halfSpread, skew, i);
            && ScaleBps(index, b) == Fixed.Ok(bid) && ScaleBps(index, a) == Fixed.Ok(ask) && 0 < bid < ask
            && -10_000 < b < a
            && (0 < maxOffset ==> 0 - maxOffset <= b && a <= maxOffset)
  {
    hide BidBps, AskBps, ScaleBps;
    var b, a := BidBps(halfSpread, skew, i), AskBps(halfSpread, skew, i);
    ScaleIs(index, b);
    ScaleIs(index, a);
    if a <= b {
      ScaleMonotone(index, a, b);
    }
    AbsAtLeast(b);
  }

  lemma AbsAtLeast(v: I64)
    requires v > -10_000
    ensures Abs(v) == if v < 0 then -v else v
  {
  }

  /** Twice the skew a level is centred on. */
  function Centre(halfSpread: I64, skew: I64, i: I64): int {
    BidBps(halfSpread, skew, i) as int + AskBps(halfSpread, skew, i)
  }

  /** Centres differ at most by one wrap of the 64-bit range. */
  lemma CentreIs(halfSpread: I64, skew: I64, i: I64)
    ensures (Centre(halfSpread, skew, i) - 2 * (skew as int)) % U64_MODULUS == 0
  {
    var w := Signed(halfSpread * i) as int;
    SignedIs(skew - w);
    SignedIs(skew + w);
    hide Signed;
    Multiples(Signed(skew - w) - (skew - w), Signed(skew + w) - (skew + w));
  }

  lemma Multiples(x: int, y: int)
    requires x % U64_MODULUS == 0 && y % U64_MODULUS == 0
    ensures (x + y) % U64_MODULUS == 0
  {
  }

  lemma SignedIs(x: int)
    ensures (Signed(x) - x) % U64_MODULUS == 0
  {
    assert x == x / U64_MODULUS * U64_MODULUS + x % U64_MODULUS;
  }

  /** Of two kept levels on one centre the wider has the lower bid and the higher ask; on two centres the
      whole of one level lies above the other. */
  lemma Nested(index: U64, halfSpread: I64, skew: I64, maxOffset: I64, i: I64, j: I64)
    requires LevelOf(index, halfSpread, skew, maxOffset, i).Some?
    requires LevelOf(index, halfSpread, skew, maxOffset, j).Some?
    ensures var p := LevelOf(index, halfSpread, skew, maxOffset, i).value;
            var q := LevelOf(index, halfSpread, skew, maxOffset, j).value;
            && (Centre(halfSpread, skew, i) == Centre(halfSpread, skew, j) ==> p.0 < q.1 && q.0 < p.1)
            && (Centre(halfSpread, skew, i) != Centre(halfSpread, skew, j) ==> q.1 <= p.0 || p.1 <= q.0)
  {
    hide LevelOf, ScaleBps, BidBps, AskBps;
    KeptIs(index, halfSpread, skew, maxOffset, i);
    KeptIs(index, halfSpread, skew, maxOffset, j);
    CentreIs(halfSpread, skew, i);
    CentreIs(halfSpread, skew, j);
    var b, a := BidBps(halfSpread, skew, i), AskBps(halfSpread, skew, i);
    var d, c := BidBps(halfSpread, skew, j), AskBps(halfSpread, skew, j);
    var here, there := Centre(halfSpread, skew, i), Centre(halfSpread, skew, j);
    OneWrap(here, there, 2 * (skew as int));
    if here == there {
      if b <= d {
        ScaleMonotone(index, b, d);
        ScaleMonotone(index, c, a);
      } else {
        ScaleMonotone(index, d, b);
        ScaleMonotone(index, a, c);
      }
    } else if here > there {
      ScaleMonotone(index, c, b);
    } else {
      ScaleMonotone(index, a, d);
    }
  }

  lemma OneWrap(x: int, y: int, z: int)
    requires -20_000 < x < U64_MODULUS && -20_000 < y < U64_MODULUS
    requires (x - z) % U64_MODULUS == 0 && (y - z) % U64_MODULUS == 0
    ensures x == y || x == y + U64_MODULUS || y == x + U64_MODULUS
  {
  }

  lemma {:induction false} FromLevel(index: U64, n: nat, halfSpread: I64, skew: I64, maxOffset: I64, q: Quote)
    requires n <= I64_MAX && q in Grid(index, n, halfSpread, skew, maxOffset)
    ensures exists i: nat ::
              1 <= i <= n && LevelOf(index, halfSpread, skew, maxOffset, i).Some?
              && q.price == if q.side.Bid? then LevelOf(index, halfSpread, skew, maxOffset, i).value.0
                            else LevelOf(index, halfSpread, skew, maxOffset, i).value.1
  {
    hide LevelOf;
    if q in Grid(index, n - 1, halfSpread, skew, maxOffset) {
      FromLevel(index, n - 1, halfSpread, skew, maxOffset, q);
    } else {
      assert LevelOf(index, halfSpread, skew, maxOffset, n).Some?;
    }
  }

  lemma {:induction false} QuotesOf(index: U64, n: nat, halfSpread: I64, skew: I64, maxOffset: I64, i: nat)
    requires 1 <= i <= n <= I64_MAX && LevelOf(index, halfSpread, skew, maxOffset, i).Some?
    ensures var (bid, ask) := LevelOf(index, halfSpread, skew, maxOffset, i).value;
            Quote(Bid, bid) in Grid(index, n, halfSpread, skew, maxOffset)
            && Quote(Ask, ask) in Grid(index, n, halfSpread, skew, maxOffset)
  {
    hide LevelOf;
    if i < n {
      QuotesOf(index, n - 1, halfSpread, skew, maxOffset, i);
    } else {
      var (bid, ask) := LevelOf(index, halfSpread, skew, maxOffset, i).value;
      assert [Quote(Bid, bid), Quote(Ask, ask)][0] == Quote(Bid, bid);
      assert [Quote(Bid, bid), Quote(Ask, ask)][1] == Quote(Ask, ask);
    }
  }

  /** No bid reaches an ask. */
  predicate Uncrossed(grid: seq<Quote>) {
    forall b, a | b in grid && a in grid && b.side.Bid? && a.side.Ask? :: b.price < a.price
  }

  /** All kept levels are centred on the same skew. */
  ghost predicate OneCentre(index: U64, n: nat, halfSpread: I64, skew: I64, maxOffset: I64)
    requires n <= I64_MAX
  {
    forall i: nat, j: nat | 1 <= i <= n && 1 <= j <= n && LevelOf(index, halfSpread, skew, maxOffset, i).Some?
                            && LevelOf(index, halfSpread, skew, maxOffset, j).Some? ::
      Centre(halfSpread, skew, i) == Centre(halfSpread, skew, j)
  }

  /** Across all kept levels every bid is strictly below every ask, for every input, exactly when the kept levels
      have one centre. */
  lemma GridUncrossedIff(index: U64, n: nat, halfSpread: I64, skew: I64, maxOffset: I64)
    requires n <= I64_MAX
    ensures Uncrossed(Grid(index, n, halfSpread, skew, maxOffset)) <==> OneCentre(index, n, halfSpread, skew, maxOffset)
  {
    hide LevelOf, Centre, Grid;
    var grid := Grid(index, n, halfSpread, skew, maxOffset);
    if Uncrossed(grid) {
      forall i: nat, j: nat | 1 <= i <= n && 1 <= j <= n && LevelOf(index, halfSpread, skew, maxOffset, i).Some?
                              && LevelOf(index, halfSpread, skew, maxOffset, j).Some?
        ensures Centre(halfSpread, skew, i) == Centre(halfSpread, skew, j)
      {
        Nested(index, halfSpread, skew, maxOffset, i, j);
        QuotesOf(index, n, halfSpread, skew, maxOffset, i);
        QuotesOf(index, n, halfSpread, skew, maxOffset, j);
      }
    }
    if OneCentre(index, n, halfSpread, skew, maxOffset) {
      forall b, a | b in grid && a in grid && b.side.Bid? && a.side.Ask?
        ensures b.price < a.price
      {
        BelowAsk(index, n, halfSpread, skew, maxOffset, b, a);
      }
    }
  }

  lemma BelowAsk(index: U64, n: nat, halfSpread: I64, skew: I64, maxOffset: I64, bid: Quote, ask: Quote)
    requires n <= I64_MAX && OneCentre(index, n, halfSpread, skew, maxOffset)
    requires bid in Grid(index, n, halfSpread, skew, maxOffset) && bid.side.Bid?
    requires ask in Grid(index, n, halfSpread, skew, maxOffset) && ask.side.Ask?
    ensures bid.price < ask.price
  {
    hide LevelOf, Centre, Grid;
    FromLevel(index, n, halfSpread, skew, maxOffset, bid);
    FromLevel(index, n, halfSpread, skew, maxOffset, ask);
    var i: nat :| 1 <= i <= n && LevelOf(index, halfSpread, skew, maxOffset, i).Some?
                  && bid.price == LevelOf(index, halfSpread, skew, maxOffset, i).value.0;
    var j: nat :| 1 <= j <= n && LevelOf(index, halfSpread, skew, maxOffset, j).Some?
                  && ask.price == LevelOf(index, halfSpread, skew, maxOffset, j).value.1;
    Nested(index, halfSpread, skew, maxOffset, i, j);
  }

  // ---------- which inputs cross ----------

  /** The level's distance from the skew, after wrapping. */
  function Distance(halfSpread: I64, i: I64): I64 {
    Signed(halfSpread * i)
  }

  /** The level is centred below the index. */
  predicate LowLevel(skew: I64, w: I64) {
    if skew < 0 then 0 < w < 10_000 + skew else I64_MIN < w < skew - U64_MODULUS + 10_000
  }

  /** The level is centred above it: with a negative skew because its bid or ask has wrapped. */
  predicate HighLevel(skew: I64, w: I64) {
    w < 10_000 + skew && if skew < 0 then I64_MIN < w < I64_MIN - skew else 0 < w <= I64_MAX - skew
  }

  /** Both prices exist, differ after rounding, and respect the limit. */
  predicate Priced(index: U64, maxOffset: I64, b: I64, a: I64)
    requires -10_000 < b < a
  {
    && (0 < maxOffset ==> 0 - maxOffset <= b && a <= maxOffset)
    && 0 < index * (BASE + b) / BASE < index * (BASE + a) / BASE < U64_MODULUS
  }

  predicate Ordered(halfSpread: I64, skew: I64, i: I64) {
    -10_000 < BidBps(halfSpread, skew, i) < AskBps(halfSpread, skew, i)
  }

  /** Kept levels are low or high, by their distance alone. */
  lemma OrderedIff(halfSpread: I64, skew: I64, i: I64)
    ensures var w := Distance(halfSpread, i);
            && (Ordered(halfSpread, skew, i) <==> LowLevel(skew, w) || HighLevel(skew, w))
            && (LowLevel(skew, w) ==> Centre(halfSpread, skew, i) < 0)
            && (HighLevel(skew, w) ==> Centre(halfSpread, skew, i) >= 0)
  {
    SignedCases(skew - Distance(halfSpread, i));
    SignedCases(skew + Distance(halfSpread, i));
    hide Signed;
  }

  lemma SignedCases(x: int)
    requires -U64_MODULUS <= x < U64_MODULUS
    ensures Signed(x) == if x > I64_MAX then x - U64_MODULUS else if x < I64_MIN then x + U64_MODULUS else x
  {
  }

  lemma KeptIff(index: U64, halfSpread: I64, skew: I64, maxOffset: I64, i: I64)
    ensures LevelOf(index, halfSpread, skew, maxOffset, i).Some?
            <==> Ordered(halfSpread, skew, i)
                 && Priced(index, maxOffset, BidBps(halfSpread, skew, i), AskBps(halfSpread, skew, i))
  {
    var b, a := BidBps(halfSpread, skew, i), AskBps(halfSpread, skew, i);
    ScaleIs(index, b);
    ScaleIs(index, a);
    if LevelOf(index, halfSpread, skew, maxOffset, i).Some? {
      KeptIs(index, halfSpread, skew, maxOffset, i);
    }
    if -10_000 < b && -10_000 < a {
      AbsAtLeast(b);
      AbsAtLeast(a);
    }
    hide BidBps, AskBps, ScaleBps, Abs;
  }

  /** A low and a high level among the first n, both with prices. */
  ghost predicate LowAndHigh(index: U64, n: nat, halfSpread: I64, skew: I64, maxOffset: I64)
    requires n <= I64_MAX
  {
    exists i: nat, j: nat | 1 <= i <= n && 1 <= j <= n ::
      && LowLevel(skew, Distance(halfSpread, i)) && LevelPriced(index, halfSpread, skew, maxOffset, i)
      && HighLevel(skew, Distance(halfSpread, j)) && LevelPriced(index, halfSpread, skew, maxOffset, j)
  }

  predicate LevelPriced(index: U64, halfSpread: I64, skew: I64, maxOffset: I64, i: I64) {
    Ordered(halfSpread, skew, i)
    && Priced(index, maxOffset, BidBps(halfSpread, skew, i), AskBps(halfSpread, skew, i))
  }

  /** Exactly the inputs that cross, in terms of skew, half spread, limit and index. */
  lemma GridCrossesIff(index: U64, n: nat, halfSpread: I64, skew: I64, maxOffset: I64)
    requires n <= I64_MAX
    ensures !Uncrossed(Grid(index, n, halfSpread, skew, maxOffset))
            <==> LowAndHigh(index, n, halfSpread, skew, maxOffset)
  {
    hide LevelOf, Grid, Uncrossed, Priced, LowLevel, HighLevel, Distance, Ordered, Centre;
    GridUncrossedIff(index, n, halfSpread, skew, maxOffset);
    forall i: nat | 1 <= i <= n
      ensures LevelOf(index, halfSpread, skew, maxOffset, i).Some?
              <==> LevelPriced(index, halfSpread, skew, maxOffset, i)
      ensures Ordered(halfSpread, skew, i)
              <==> LowLevel(skew, Distance(halfSpread, i)) || HighLevel(skew, Distance(halfSpread, i))
      ensures LowLevel(skew, Distance(halfSpread, i)) ==> Centre(halfSpread, skew, i) < 0
      ensures HighLevel(skew, Distance(halfSpread, i)) ==> Centre(halfSpread, skew, i) >= 0
    {
      KeptIff(index, halfSpread, skew, maxOffset, i);
      OrderedIff(halfSpread, skew, i);
    }
    if !OneCentre(index, n, halfSpread, skew, maxOffset) {
      var i: nat, j: nat :| 1 <= i <= n && 1 <= j <= n
                            && LevelOf(index, halfSpread, skew, maxOffset, i).Some?
                            && LevelOf(index, halfSpread, skew, maxOffset, j).Some?
                            && Centre(halfSpread, skew, i) < Centre(halfSpread, skew, j);
      TwoCentres(index, halfSpread, skew, maxOffset, i, j);
    }
  }

  /** Of two different centres the lower is below zero and the higher is not. */
  lemma TwoCentres(index: U64, halfSpread: I64, skew: I64, maxOffset: I64, i: I64, j: I64)
    requires LevelOf(index, halfSpread, skew, maxOffset, i).Some?
    requires LevelOf(index, halfSpread, skew, maxOffset, j).Some?
    requires Centre(halfSpread, skew, i) < Centre(halfSpread, skew, j)
    ensures Centre(halfSpread, skew, i) < 0 <= Centre(halfSpread, skew, j)
  {
    hide LevelOf, BidBps, AskBps;
    KeptIs(index, halfSpread, skew, maxOffset, i);
    KeptIs(index, halfSpread, skew, maxOffset, j);
    CentreIs(halfSpread, skew, i);
    CentreIs(halfSpread, skew, j);
    OneWrap(Centre(halfSpread, skew, i), Centre(halfSpread, skew, j), 2 * (skew as int));
  }

  /** The high level of a crossing pair has room only at an index next to nothing. */
  lemma HighNeedsTinyIndex(index: U64, halfSpread: I64, skew: I64, maxOffset: I64, low: I64, high: I64)
    requires LowLevel(skew, Distance(halfSpread, low)) && HighLevel(skew, Distance(halfSpread, high))
    requires LevelPriced(index, halfSpread, skew, maxOffset, high)
    ensures index < 20_000
  {
    SignedCases(skew + Distance(halfSpread, high));
    var a := AskBps(halfSpread, skew, high);
    assert BASE + a >= 0x8000_0000_0000_0000;
    Fixed.MulMono(index, 0x8000_0000_0000_0000, BASE + a);
    FloorMono(index * 0x8000_0000_0000_0000, index * (BASE + a), BASE);
  }

  /** No level's basis points leave the int64 range. */
  predicate NoWrap(halfSpread: I64, skew: I64, i: nat) {
    I64_MIN <= halfSpread * i <= I64_MAX && I64_MIN <= skew - halfSpread * i <= I64_MAX
    && I64_MIN <= skew + halfSpread * i <= I64_MAX
  }

  /** An offset limit below a quarter of the 64-bit range, an index of at least 0.0002, a skew away from the two narrow
      bands where the wrapped centre is still above -100%, or basis points that do not wrap: each alone makes every
      grid uncrossed. */
  predicate Tame(index: U64, n: nat, halfSpread: I64, skew: I64, maxOffset: I64) {
    || 0 < maxOffset <= 0x3FFF_FFFF_FFFF_FFFF
    || 20_000 <= index
    || !(-10_000 < skew < -1 || I64_MAX - 10_000 < skew < I64_MAX)
    || forall i: nat | 1 <= i <= n :: NoWrap(halfSpread, skew, i)
  }

  lemma GridNeverCrosses(index: U64, n: nat, halfSpread: I64, skew: I64, maxOffset: I64)
    requires n <= I64_MAX && Tame(index, n, halfSpread, skew, maxOffset)
    ensures Uncrossed(Grid(index, n, halfSpread, skew, maxOffset))
  {
    hide LevelOf, BidBps, AskBps, Grid, Uncrossed, NoWrap, LowLevel, HighLevel, LevelPriced, Distance;
    GridCrossesIff(index, n, halfSpread, skew, maxOffset);
    if LowAndHigh(index, n, halfSpread, skew, maxOffset) {
      var i: nat, j: nat :| 1 <= i <= n && 1 <= j <= n
                            && LowLevel(skew, Distance(halfSpread, i))
                            && LevelPriced(index, halfSpread, skew, maxOffset, i)
                            && HighLevel(skew, Distance(halfSpread, j))
                            && LevelPriced(index, halfSpread, skew, maxOffset, j);
      HighNeedsTinyIndex(index, halfSpread, skew, maxOffset, i, j);
      NotTame(index, halfSpread, skew, maxOffset, i, j);
    }
  }

  /** A low and a high level together leave the skew only the two bands, the limit no effect, and wrap somewhere. */
  lemma NotTame(index: U64, halfSpread: I64, skew: I64, maxOffset: I64, low: nat, high: nat)
    requires low <= I64_MAX && high <= I64_MAX
    requires LowLevel(skew, Distance(halfSpread, low)) && HighLevel(skew, Distance(halfSpread, high))
    requires LevelPriced(index, halfSpread, skew, maxOffset, high)
    ensures -10_000 < skew < -1 || I64_MAX - 10_000 < skew < I64_MAX
    ensures !(0 < maxOffset <= 0x3FFF_FFFF_FFFF_FFFF)
    ensures !NoWrap(halfSpread, skew, low) || !NoWrap(halfSpread, skew, high)
  {
    SignedCases(skew + Distance(halfSpread, high));
    if NoWrap(halfSpread, skew, low) && NoWrap(halfSpread, skew, high) {
      SignedSmall(halfSpread * low);
      SignedSmall(halfSpread * high);
    }
    hide Signed, BidBps;
  }

  /** Every price is the index scaled by at most maxOffset basis points either way, rounded down. */
  lemma GridWithinOffset(index: U64, n: nat, halfSpread: I64, skew: I64, maxOffset: I64, q: Quote)
    requires n <= I64_MAX && 0 < maxOffset && q in Grid(index, n, halfSpread, skew, maxOffset)
    ensures q.price <= index * (BASE + maxOffset) / BASE
    ensures maxOffset <= BASE ==> index * (BASE - maxOffset) / BASE <= q.price
  {
    hide LevelOf, ScaleBps, Grid, BidBps, AskBps;
    FromLevel(index, n, halfSpread, skew, maxOffset, q);
    var i: nat :| 1 <= i <= n && LevelOf(index, halfSpread, skew, maxOffset, i).Some?
                  && q.price == if q.side.Bid? then LevelOf(index, halfSpread, skew, maxOffset, i).value.0
                                else LevelOf(index, halfSpread, skew, maxOffset, i).value.1;
    KeptIs(index, halfSpread, skew, maxOffset, i);
    var bps := if q.side.Bid? then BidBps(halfSpread, skew, i) else AskBps(halfSpread, skew, i);
    ScaleIs(index, bps);
    ScaledBetween(index, bps, maxOffset);
  }

  lemma ScaledBetween(index: U64, bps: int, limit: I64)
    requires 0 - limit <= bps <= limit && 0 <= BASE + bps
    ensures index * (BASE + bps) / BASE <= index * (BASE + limit) / BASE
    ensures limit <= BASE ==> index * (BASE - limit) / BASE <= index * (BASE + bps) / BASE
  {
  }

  /** Without an offset limit a half spread that wraps can put one level's bid above another level's ask. */
  lemma WrappedSpreadCrosses()
    ensures var grid := Grid(10_000, 2, -0x7FFF_FFFF_FFFF_FFFF, -5, 0);
            Quote(Bid, 0x8000_0000_0000_270A) in grid && Quote(Ask, 9_997) in grid
  {
    var h: I64 := -0x7FFF_FFFF_FFFF_FFFF;
    assert Signed(h * 1) == h && Signed(h * 2) == 2;
    assert Signed(-5 - h) == 0x7FFF_FFFF_FFFF_FFFA && Signed(-5 + h) == 0x7FFF_FFFF_FFFF_FFFC;
    ScaleIs(10_000, 0x7FFF_FFFF_FFFF_FFFA);
    ScaleIs(10_000, 0x7FFF_FFFF_FFFF_FFFC);
    ScaleIs(10_000, -7);
    ScaleIs(10_000, -3);
    assert BidBps(h, -5, 2) == -7 && AskBps(h, -5, 2) == -3;
    assert BidBps(h, -5, 1) == 0x7FFF_FFFF_FFFF_FFFA && AskBps(h, -5, 1) == 0x7FFF_FFFF_FFFF_FFFC;
    hide ScaleBps, Signed, BidBps, AskBps;
    assert LevelOf(10_000, h, -5, 0, 1) == Some((0x8000_0000_0000_270A, 0x8000_0000_0000_270C));
    assert LevelOf(10_000, h, -5, 0, 2) == Some((9_993, 9_997));
    var first := Grid(10_000, 1, h, -5, 0);
    assert Grid(10_000, 0, h, -5, 0) == [];
    assert Quote(Bid, 0x8000_0000_0000_270A) in first;
  }

  // ---------- inventory skew ----------

  /** Division truncates towards zero. */
  function Quotient(a: int, b: int): int
    requires b != 0
  {
    if (a >= 0) == (b > 0) then (if a >= 0 then a / b else (-a) / (-b))
    else -(if a >= 0 then a / -b else (-a) / b)
  }

  lemma SignedNonZero(x: U64)
    requires x != 0
    ensures Signed(x) != 0
  {
  }

  /** -num * maxSkew / total, every step in 64 bits. */
  function Leaning(num: I64, maxSkew: I64, total: I64): I64
    requires total != 0
  {
    Signed(Quotient(Signed(Signed(-(num as int)) as int * maxSkew), total))
  }

  /** More base than quote pushes the grid down. */
  function InventorySkew(baseQty: U64, quoteQty: U64, index: U64, maxSkew: I64): I64 {
    if maxSkew <= 0 || index == 0 then 0
    else
      var v := Fixed.MulDiv(baseQty, index, SCALE);
      if v.Err? then 0
      else
        var total: U64 := (v.value as int + quoteQty) % U64_MODULUS;
        if total == 0 then 0
        else
          SignedNonZero(total);
          var s := Leaning(Signed(Signed(v.value) as int - Signed(quoteQty)), maxSkew, Signed(total));
          if s > maxSkew then maxSkew else if s < -(maxSkew as int) then -(maxSkew as int) else s
  }

  /** Whatever wraps around, the skew never leaves its limits. */
  lemma SkewBounded(baseQty: U64, quoteQty: U64, index: U64, maxSkew: I64)
    ensures var s := InventorySkew(baseQty, quoteQty, index, maxSkew);
            if maxSkew <= 0 then s == 0 else -maxSkew <= s <= maxSkew
  {
    hide Signed, Leaning, Fixed.MulDiv;
  }

  /** Without a limit, a price, holdings, or a value that fits, there is no skew. */
  lemma NoSkew(baseQty: U64, quoteQty: U64, index: U64, maxSkew: I64)
    requires maxSkew <= 0 || index == 0 || U64_MODULUS <= baseQty * index / SCALE
             || (baseQty * index / SCALE + quoteQty) % U64_MODULUS == 0
    ensures InventorySkew(baseQty, quoteQty, index, maxSkew) == 0
  {
    Fixed.MulDivIsFloor(baseQty, index, SCALE);
    hide Fixed.MulDiv, Leaning, Signed;
  }

  /** As long as the value times the limit fits in int64, the skew leans against the heavier side. */
  lemma SkewLeansBack(baseQty: U64, quoteQty: U64, index: U64, maxSkew: I64)
    requires 0 < maxSkew && 0 < index
    requires (baseQty * index / SCALE + quoteQty) * maxSkew <= I64_MAX
    ensures var v := baseQty * index / SCALE;
            var s := InventorySkew(baseQty, quoteQty, index, maxSkew);
            && (v >= quoteQty ==> s <= 0) && (v <= quoteQty ==> s >= 0)
            && (v + quoteQty > 0 ==> s == Quotient((quoteQty - v) * maxSkew, v + quoteQty))
  {
    hide Fixed.MulDiv, Quotient;
    var v := baseQty * index / SCALE;
    Fixed.MulDivIsFloor(baseQty, index, SCALE);
    assert v + quoteQty <= (v + quoteQty) * maxSkew by {
      Fixed.MulMono(v + quoteQty, 1, maxSkew);
    }
    SignedSmall(v);
    SignedSmall(quoteQty);
    SignedSmall(v - quoteQty);
    SignedSmall(quoteQty - v);
    ProductBound(quoteQty - v, v + quoteQty, maxSkew);
    SignedSmall((quoteQty - v) * maxSkew);
    SignedSmall(v + quoteQty);
    if v + quoteQty > 0 {
      QuotientBound((quoteQty - v) * maxSkew, v + quoteQty, maxSkew);
      SignedSmall(Quotient((quoteQty - v) * maxSkew, v + quoteQty));
      assert (v + quoteQty) % U64_MODULUS == v + quoteQty;
    }
    hide Signed;
  }

  lemma ProductBound(d: int, t: nat, k: nat)
    requires 0 - t <= d <= t
    ensures 0 - t * k <= d * k <= t * k
    ensures d >= 0 ==> d * k >= 0
    ensures d <= 0 ==> d * k <= 0
  {
  }

  lemma QuotientBound(a: int, b: int, k: nat)
    requires 0 < b && 0 - b * k <= a <= b * k
    ensures 0 - k <= Quotient(a, b) <= k && (a >= 0 ==> Quotient(a, b) >= 0) && (a <= 0 ==> Quotient(a, b) <= 0)
  {
    if a >= 0 {
      Fixed.FloorAtMost(a, k, b);
      Fixed.Over(a, 0, b);
    } else {
      Fixed.FloorAtMost(-a, k, b);
      Fixed.Over(-a, 0, b);
    }
  }
}
