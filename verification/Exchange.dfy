/**
 * Clearing against the engine's history: in every accounted state the next trade is settled exactly when
 * its parts do not round to nothing, terminal updates always release, and repeats change nothing.
 */
module Exchange {
  import opened Protocol
  import opened Book
  import opened History
  import opened Sums
  import opened Ledger
  import opened LedgerSound
  import opened Database
  import opened Reserve
  import opened Clearing
  import opened OrderService
  import opened Accounting
  import opened Settlement
  import opened Delivery

  predicate RowMatches(row: OrderRow, p: PlaceCommand) {
    row.user == p.userId && row.side == p.side && row.price == p.price && row.qty == p.qty
  }

  /** What the order's trades have taken out of its freeze. */
  function Consumed(m: Market, ev: seq<Event>, p: PlaceCommand, id: Id): nat {
    if p.side.Ask? then Traded(ev, id) else NotionalSpent(ev, id) + FeesSpent(m, ev, id)
  }

  /** The row still holds exactly what has not been consumed. */
  ghost predicate Outstanding(db: Rows, m: Market, ev: seq<Event>, id: Id, p: PlaceCommand) {
    && id in db.orders && RowMatches(db.orders[id], p)
    && (p.side.Bid? ==> p.orderType.Limit? && p.price.Some?)
    && db.orders[id].reserved + Consumed(m, ev, p, id) == Initial(m, p.side, p.price, p.qty) <= I64_MAX
  }

  ghost predicate Journaled(db: Rows, known: Orders, ev: seq<Event>) {
    && (forall x: nat :: TradeSettled(x) in db.ledger.journals <==> 1 <= x <= TradeCount(ev))
    && (forall id: Id :: OrderUnfreeze(id) in db.ledger.journals ==> id in db.orders)
    && (forall id | id in known && OrderUnfreeze(id) in db.ledger.journals :: Ended(ev, id))
    && (forall id | id in known && Ended(ev, id) ::
          OrderUnfreeze(id) in db.ledger.journals || (id in db.orders && db.orders[id].reserved == 0))
  }

  /** The money side agrees with the events consumed so far. */
  ghost predicate Accounted(db: Rows, m: Market, known: Orders, ev: seq<Event>) {
    && Sound(db.ledger) && OneWallet(db.ledger)
    && RowsInRange(db) && FrozenIsHeld(db, m)
    && (forall id | id in known :: Outstanding(db, m, ev, id, known[id]))
    && Journaled(db, known, ev)
  }

  lemma ConsumedGrows(m: Market, ev: seq<Event>, e: Event, p: PlaceCommand, id: Id)
    ensures Consumed(m, ev + [e], p, id)
         == Consumed(m, ev, p, id)
            + if !TradeNames(e, id) then 0
              else if p.side.Ask? then e.kind.trade.qty
              else Notional(e.kind.trade.price, e.kind.trade.qty)
                   + FeeOn(Notional(e.kind.trade.price, e.kind.trade.qty), RateIn(m, e.kind.trade, id))
  {
  }

  /** Never more than was frozen, whatever comes next. */
  lemma ConsumedAtMost(m: Market, known: Orders, ev: seq<Event>, id: Id)
    requires MarketOk(m) && LifeCycle(known, ev) && id in known
    requires known[id].side.Bid? ==> known[id].orderType.Limit? && known[id].price.Some?
    ensures Consumed(m, ev, known[id], id) <= Initial(m, known[id].side, known[id].price, known[id].qty)
  {
    if known[id].side.Ask? {
      TradedAtMost(known, ev, id);
    } else {
      ReserveSuffices(m, known, ev, id);
    }
  }

  // ---------- the next trade ----------

  /** Both rows exist, fit the trade, are unreleased and still hold what the trade takes. */
  ghost predicate PartiesReady(db: Rows, m: Market, t: Trade) {
    && SidesMatch(db.orders, t) && BuyOrder(t) != SellOrder(t)
    && db.orders[BuyOrder(t)].side.Bid? && db.orders[SellOrder(t)].side.Ask?
    && db.orders[BuyOrder(t)].user == Buyer(t) && db.orders[SellOrder(t)].user == Seller(t)
    && OrderUnfreeze(BuyOrder(t)) !in db.ledger.journals && OrderUnfreeze(SellOrder(t)) !in db.ledger.journals
    && Paid(m, t) <= db.orders[BuyOrder(t)].reserved && t.qty <= db.orders[SellOrder(t)].reserved
  }

  lemma TradeIsCovered(db: Rows, m: Market, known: Orders, ev: seq<Event>, e: Event)
    requires MarketOk(m) && Accounted(db, m, known, ev) && e.kind.TradeMade? && LifeCycle(known, ev + [e])
    ensures PartiesReady(db, m, e.kind.trade) && 0 < e.kind.trade.qty
    ensures TradeSettled(e.kind.trade.tradeId) !in db.ledger.journals
    ensures BuyOrder(e.kind.trade) in known && SellOrder(e.kind.trade) in known
    ensures Consumed(m, ev + [e], known[BuyOrder(e.kind.trade)], BuyOrder(e.kind.trade))
         == Consumed(m, ev, known[BuyOrder(e.kind.trade)], BuyOrder(e.kind.trade)) + Paid(m, e.kind.trade)
    ensures Consumed(m, ev + [e], known[SellOrder(e.kind.trade)], SellOrder(e.kind.trade))
         == Consumed(m, ev, known[SellOrder(e.kind.trade)], SellOrder(e.kind.trade)) + e.kind.trade.qty
  {
    var t := e.kind.trade;
    Append(ev, e);
    assert TradeOk(known, ev, t);
    var buy, sell := BuyOrder(t), SellOrder(t);
    assert Outstanding(db, m, ev, buy, known[buy]) && Outstanding(db, m, ev, sell, known[sell]);
    ConsumedGrows(m, ev, e, known[buy], buy);
    ConsumedGrows(m, ev, e, known[sell], sell);
    ConsumedAtMost(m, known, ev + [e], buy);
    ConsumedAtMost(m, known, ev + [e], sell);
  }

  /** The parties' frozen balances cover it, because frozen balances are sums of such freezes. */
  lemma ReadyIsCovered(db: Rows, m: Market, t: Trade)
    requires FrozenIsHeld(db, m) && RowsInRange(db) && PartiesReady(db, m, t)
    ensures Covered(db.ledger, m, t)
  {
    FrozenCovers(db, m, BuyOrder(t));
    FrozenCovers(db, m, SellOrder(t));
  }

  ghost function DeductBoth(db: Rows, m: Market, t: Trade): Rows {
    if t.side.Bid? then
      db.(orders := Deducted(Deducted(db.orders, BuyOrder(t), Paid(m, t)), SellOrder(t), t.qty))
    else
      db.(orders := Deducted(Deducted(db.orders, SellOrder(t), t.qty), BuyOrder(t), Paid(m, t)))
  }

  lemma DeductBothIs(db: Rows, m: Market, t: Trade)
    requires PartiesReady(db, m, t)
    ensures DeductBoth(db, m, t).orders
         == db.orders[BuyOrder(t) := db.orders[BuyOrder(t)].(reserved := db.orders[BuyOrder(t)].reserved - Paid(m, t))]
                     [SellOrder(t) := db.orders[SellOrder(t)].(reserved := db.orders[SellOrder(t)].reserved - t.qty)]
  {
  }

  lemma HeldBoth(db: Rows, m: Market, t: Trade, user: Id, c: Currency)
    requires PartiesReady(db, m, t)
    ensures Sum(HeldMap(DeductBoth(db, m, t), m, user, c))
         == Sum(HeldMap(db, m, user, c))
            - (if Buyer(t) == user && m.quote == c then Paid(m, t) else 0)
            - (if Seller(t) == user && m.base == c then t.qty else 0)
  {
    hide Paid, Sum, HeldMap;
    if t.side.Bid? {
      HeldDeducted(db, m, BuyOrder(t), Paid(m, t), user, c);
      HeldDeducted(db.(orders := Deducted(db.orders, BuyOrder(t), Paid(m, t))), m, SellOrder(t), t.qty, user, c);
    } else {
      HeldDeducted(db, m, SellOrder(t), t.qty, user, c);
      HeldDeducted(db.(orders := Deducted(db.orders, SellOrder(t), t.qty)), m, BuyOrder(t), Paid(m, t), user, c);
    }
  }

  /** What settling does once the parties are ready. */
  lemma SettleIs(db: Rows, m: Market, t: Trade)
    requires MarketOk(m) && Sound(db.ledger) && OneWallet(db.ledger) && RowsInRange(db) && PartiesReady(db, m, t)
    requires 0 < t.qty && Covered(db.ledger, m, t) && TradeSettled(t.tradeId) !in db.ledger.journals
    ensures var (db', out) := Settle(db, m, t);
            if Postable(m, t) then
              && out == Settled && db' == DeductBoth(db.(ledger := db'.ledger), m, t)
              && Sound(db'.ledger) && OneWallet(db'.ledger)
              && db'.ledger.journals == db.ledger.journals + {TradeSettled(t.tradeId)}
              && forall a: Account :: Balance(db'.ledger, a) == Balance(db.ledger, a) + Change(m, t, a)
            else
              db' == db && out.Stuck? && out.error.Posting? && out.error.error.AmountNotPositive?
  {
    hide Sound, OneWallet, Posted, SettleMoves, QuoteOf, Change, Postable, TakerConsume, MakerConsume,
         Paid, Received, Fees, Deducted, TooBig, Covered;
    ClaimsBounded(db.ledger, UserAccount(Buyer(t), m.quote, Frozen), FeeAccount(m.quote));
    ClaimsBounded(db.ledger, UserAccount(Seller(t), m.base, Frozen), FeeAccount(m.base));
    CoveredBy(db.ledger, m, t);
    SettlePosting(db.ledger, m, t);
    MovesArePlain(m, t);
    var q := QuoteOf(m, t).value;
    DeductedFits(db.orders, t, TakerConsume(t, q), MakerConsume(t, q));
  }

  lemma CoveredBy(t: Tables, m: Market, trade: Trade)
    requires Covered(t, m, trade)
    ensures Paid(m, trade) <= Balance(t, UserAccount(Buyer(trade), m.quote, Frozen))
    ensures trade.qty <= Balance(t, UserAccount(Seller(trade), m.base, Frozen))
  {
  }

  /** Taking something off a row never makes it too big. */
  lemma DeductedFits(orders: map<Id, OrderRow>, t: Trade, taken: nat, made: nat)
    requires forall id | id in orders :: orders[id].reserved <= I64_MAX
    ensures var orders' := Deducted(Deducted(orders, t.takerOrderId, taken), t.makerOrderId, made);
            !TooBig(orders', t.takerOrderId) && !TooBig(orders', t.makerOrderId)
  {
  }

  /** Settling the next trade: exact outcome, and the accounts stay in agreement. */
  lemma SettleNext(db: Rows, m: Market, known: Orders, ev: seq<Event>, e: Event)
    requires MarketOk(m) && Accounted(db, m, known, ev) && e.kind.TradeMade? && LifeCycle(known, ev + [e])
    ensures var (db', out) := Settle(db, m, e.kind.trade);
            if Postable(m, e.kind.trade) then out == Settled && Accounted(db', m, known, ev + [e])
            else db' == db && out.Stuck? && out.error.Posting? && out.error.error.AmountNotPositive?
  {
    hide Settle, Postable, LifeCycle, Sound, OneWallet, Consumed, Change, Covered, HeldMap;
    var t := e.kind.trade;
    TradeIsCovered(db, m, known, ev, e);
    ReadyIsCovered(db, m, t);
    SettleIs(db, m, t);
    if Postable(m, t) {
      var db' := Settle(db, m, t).0;
      SettledFrozen(db, db', m, t);
      SettledRows(db, db', m, known, ev, e);
      SettledJournals(db, db', m, known, ev, e);
    }
  }

  lemma SettledFrozen(db: Rows, db': Rows, m: Market, t: Trade)
    requires MarketOk(m) && FrozenIsHeld(db, m) && PartiesReady(db, m, t)
    requires db' == DeductBoth(db.(ledger := db'.ledger), m, t)
    requires db'.ledger.journals == db.ledger.journals + {TradeSettled(t.tradeId)}
    requires forall a: Account :: Balance(db'.ledger, a) == Balance(db.ledger, a) + Change(m, t, a)
    ensures FrozenIsHeld(db', m)
  {
    hide PartiesReady, DeductBoth, HeldMap, Change;
    var mid := db.(ledger := db'.ledger);
    StillReady(db, mid, m, t);
    forall user: Id, c: Currency
      ensures Balance(db'.ledger, UserAccount(user, c, Frozen)) == Sum(HeldMap(db', m, user, c))
    {
      HeldSame(db, mid, m, user, c);
      HeldBoth(mid, m, t, user, c);
      FrozenChange(m, t, user, c);
    }
  }

  lemma StillReady(db: Rows, db': Rows, m: Market, t: Trade)
    requires PartiesReady(db, m, t) && db'.orders == db.orders
    requires db'.ledger.journals == db.ledger.journals + {TradeSettled(t.tradeId)}
    ensures PartiesReady(db', m, t)
  {
  }

  lemma FrozenChange(m: Market, t: Trade, user: Id, c: Currency)
    requires m.base != m.quote
    ensures Change(m, t, UserAccount(user, c, Frozen))
         == (if Buyer(t) == user && m.quote == c then -Paid(m, t) else 0)
            + (if Seller(t) == user && m.base == c then -(t.qty as int) else 0)
  {
    hide Paid, Received, Fees;
  }

  lemma SettledRows(db: Rows, db': Rows, m: Market, known: Orders, ev: seq<Event>, e: Event)
    requires MarketOk(m) && e.kind.TradeMade? && RowsInRange(db) && PartiesReady(db, m, e.kind.trade)
    requires forall id | id in known :: Outstanding(db, m, ev, id, known[id])
    requires db'.orders == DeductBoth(db, m, e.kind.trade).orders
    requires var t := e.kind.trade;
             && BuyOrder(t) in known && SellOrder(t) in known && 0 <= Paid(m, t)
             && Consumed(m, ev + [e], known[BuyOrder(t)], BuyOrder(t))
                == Consumed(m, ev, known[BuyOrder(t)], BuyOrder(t)) + Paid(m, t)
             && Consumed(m, ev + [e], known[SellOrder(t)], SellOrder(t))
                == Consumed(m, ev, known[SellOrder(t)], SellOrder(t)) + t.qty
    ensures RowsInRange(db') && forall id | id in known :: Outstanding(db', m, ev + [e], id, known[id])
  {
    var t := e.kind.trade;
    DeductBothIs(db, m, t);
    forall id | id in known
      ensures Outstanding(db', m, ev + [e], id, known[id])
    {
      assert Outstanding(db, m, ev, id, known[id]);
      if id != BuyOrder(t) && id != SellOrder(t) {
        ConsumedGrows(m, ev, e, known[id], id);
      }
    }
  }

  lemma SettledJournals(db: Rows, db': Rows, m: Market, known: Orders, ev: seq<Event>, e: Event)
    requires e.kind.TradeMade? && Journaled(db, known, ev) && PartiesReady(db, m, e.kind.trade)
    requires LifeCycle(known, ev + [e])
    requires db'.orders == DeductBoth(db, m, e.kind.trade).orders
    requires db'.ledger.journals == db.ledger.journals + {TradeSettled(e.kind.trade.tradeId)}
    ensures Journaled(db', known, ev + [e])
  {
    var t := e.kind.trade;
    Append(ev, e);
    DeductBothIs(db, m, t);
    assert TradeOk(known, ev, t);
    hide LifeCycle, Paid, TradeCount, Ended, Traded, DeductBoth;
  }

  // ---------- updates ----------

  /** Events that are not trades consume nothing. */
  lemma UpdateConsumesNothing(db: Rows, m: Market, known: Orders, ev: seq<Event>, e: Event)
    requires e.kind.OrderChanged? && forall id | id in known :: Outstanding(db, m, ev, id, known[id])
    ensures forall id | id in known :: Outstanding(db, m, ev + [e], id, known[id])
    ensures TradeCount(ev + [e]) == TradeCount(ev)
  {
  }

  lemma KeepsOpen(db: Rows, m: Market, known: Orders, ev: seq<Event>, e: Event)
    requires Accounted(db, m, known, ev) && e.kind.OrderChanged?
    requires Terminal(e.kind.update.status) ==>
               var id := e.kind.update.orderId; id in db.orders && db.orders[id].reserved == 0
    ensures Accounted(db, m, known, ev + [e])
  {
    Append(ev, e);
    UpdateConsumesNothing(db, m, known, ev, e);
    hide Sound, OneWallet, FrozenIsHeld, Outstanding, Ended, TradeCount;
  }

  /** The two moves of a release or a freeze: one user's money changes its kind. */
  function Shift(user: Id, c: Currency, amount: I64, to: Kind): seq<Move>
    requires 0 <= amount
  {
    [Move(UserAccount(user, c, if to.Available? then Frozen else Available), -(amount as int)),
     Move(UserAccount(user, c, to), amount)]
  }

  lemma Volume2(x: Move, y: Move, debit: bool, c: Currency)
    ensures Volume([x, y], debit, c) == AmountOn(x, debit, c) + AmountOn(y, debit, c)
  {
    assert [x, y][..1] == [x] && [x][..0] == [];
    assert Volume([x], debit, c) == AmountOn(x, debit, c);
  }

  lemma Delta2(x: Move, y: Move, a: Account)
    ensures DeltaOn([x, y], a) == OneDelta(x, a) + OneDelta(y, a)
  {
    assert [x, y][1..] == [y] && [y][1..] == [];
    assert DeltaOn([y], a) == OneDelta(y, a);
  }

  lemma ShiftBalanced(user: Id, c: Currency, amount: I64, to: Kind)
    requires 0 <= amount
    ensures TrulyBalanced(Shift(user, c, amount, to)) && CheckPasses(Shift(user, c, amount, to))
  {
    var ms := Shift(user, c, amount, to);
    forall d: Currency
      ensures Volume(ms, true, d) == Volume(ms, false, d)
    {
      forall debit: bool
        ensures Volume(ms, debit, d) == AmountOn(ms[0], debit, d) + AmountOn(ms[1], debit, d)
      {
        Volume2(ms[0], ms[1], debit, d);
      }
      PlainAmount(ms[0], true, d);
      PlainAmount(ms[0], false, d);
      PlainAmount(ms[1], true, d);
      PlainAmount(ms[1], false, d);
    }
    BalancedPasses(ms);
  }

  /** Shifting a positive amount that is there always goes through. */
  lemma ShiftPosting(t: Tables, key: JournalKey, user: Id, c: Currency, amount: I64, to: Kind)
    requires Sound(t) && OneWallet(t) && key !in t.journals && 0 < amount
    requires amount <= Balance(t, UserAccount(user, c, if to.Available? then Frozen else Available))
    ensures var r := Posted(t, key, Shift(user, c, amount, to));
            && r.Ok? && Sound(r.value) && OneWallet(r.value) && r.value.journals == t.journals + {key}
            && forall a: Account ::
                 Balance(r.value, a) == Balance(t, a)
                   + if a == UserAccount(user, c, to) then amount
                     else if a == UserAccount(user, c, if to.Available? then Frozen else Available)
                          then -(amount as int)
                     else 0
  {
    var ms := Shift(user, c, amount, to);
    var here := UserAccount(user, c, if to.Available? then Frozen else Available);
    ShiftBalanced(user, c, amount, to);
    ClaimsBounded(t, here, UserAccount(user, c, to));
    AbsSign(ms[0].delta);
    AbsSign(ms[1].delta);
    hide Sound, OneWallet, Posted, TrulyBalanced, CheckPasses, Abs;
    GoodPosting(t, key, ms);
    forall a: Account
      ensures DeltaOn(ms, a) == OneDelta(ms[0], a) + OneDelta(ms[1], a)
    {
      Delta2(ms[0], ms[1], a);
    }
  }

  /** What a freeze needs: a positive amount that is available, or a negative one, as computed for an order whose
      freeze leaves the column, that is frozen already. */
  predicate Freezable(t: Tables, user: Id, c: Currency, reserved: I64) {
    || 0 < reserved <= Balance(t, UserAccount(user, c, Available))
    || (I64_MIN < reserved < 0 && -(reserved as int) <= Balance(t, UserAccount(user, c, Frozen)))
  }

  /** Moving `reserved` from available to frozen, whatever its sign: exactly when it goes through, and what it does. */
  lemma FreezePosting(t: Tables, key: JournalKey, m: Market, user: Id, side: Side, reserved: I64)
    requires Sound(t) && OneWallet(t) && key !in t.journals
    ensures var c := HeldCurrency(m, side);
            var r := Posted(t, key, FreezeMoves(m, user, side, reserved));
            && (r.Ok? <==> Freezable(t, user, c, reserved))
            && (r.Ok? ==>
                  && Sound(r.value) && OneWallet(r.value) && r.value.journals == t.journals + {key}
                  && forall a: Account ::
                       Balance(r.value, a) == Balance(t, a)
                         + if a == UserAccount(user, c, Frozen) then reserved as int
                           else if a == UserAccount(user, c, Available) then -(reserved as int) else 0)
  {
    hide Sound, OneWallet;
    var c := HeldCurrency(m, side);
    var ms := FreezeMoves(m, user, side, reserved);
    if Freezable(t, user, c, reserved) {
      hide Posted;
      FreezeBalanced(m, user, side, reserved);
      ClaimsBounded(t, UserAccount(user, c, Available), UserAccount(user, c, Frozen));
      AbsSign(ms[0].delta);
      AbsSign(ms[1].delta);
      hide Abs, Signed, TrulyBalanced, CheckPasses;
      GoodPosting(t, key, ms);
      forall a: Account
        ensures DeltaOn(ms, a) == OneDelta(ms[0], a) + OneDelta(ms[1], a)
      {
        Delta2(ms[0], ms[1], a);
      }
    } else if Posted(t, key, ms).Ok? {
      FrozenFirst(t.(journals := t.journals + {key}), key, m, user, side, reserved);
    }
  }

  lemma FreezeBalanced(m: Market, user: Id, side: Side, reserved: I64)
    requires I64_MIN < reserved
    ensures var ms := FreezeMoves(m, user, side, reserved);
            ms[0].delta == -reserved && TrulyBalanced(ms) && CheckPasses(ms)
  {
    SignedSmall(-(reserved as int));
    hide Signed, CheckPasses;
    var ms := FreezeMoves(m, user, side, reserved);
    forall d: Currency
      ensures Volume(ms, true, d) == Volume(ms, false, d)
    {
      forall debit: bool
        ensures Volume(ms, debit, d) == AmountOn(ms[0], debit, d) + AmountOn(ms[1], debit, d)
      {
        Volume2(ms[0], ms[1], debit, d);
      }
      PlainAmount(ms[0], true, d);
      PlainAmount(ms[0], false, d);
      PlainAmount(ms[1], true, d);
      PlainAmount(ms[1], false, d);
    }
    BalancedPasses(ms);
  }

  /** What went through was there. */
  lemma FrozenFirst(t: Tables, key: JournalKey, m: Market, user: Id, side: Side, reserved: I64)
    requires PostMoves(t, key, FreezeMoves(m, user, side, reserved)).Ok?
    ensures Freezable(t, user, HeldCurrency(m, side), reserved)
  {
    var ms := FreezeMoves(m, user, side, reserved);
    PostedAmounts(t, key, ms);
    assert ms[1] in ms;
    var t' := PostMove(t, key, ms[0]).value;
    assert PostMoves(t', key, ms[1..]).Ok? && ms[1..][0] == ms[1];
    SmallAbs(reserved);
    SignedSmall(-(reserved as int));
  }

  lemma ReleaseMovesPlain(m: Market, row: OrderRow)
    requires 0 <= row.reserved <= I64_MAX
    ensures ReleaseMoves(m, row) == Shift(row.user, HeldCurrency(m, row.side), row.reserved, Available)
  {
    hide Signed;
    SignedSmall(row.reserved);
    SignedSmall(-row.reserved);
  }

  /** Releasing an unreleased order with something left: it goes through and frees exactly that. */
  lemma ReleasePosts(db: Rows, m: Market, id: Id)
    requires Sound(db.ledger) && OneWallet(db.ledger) && RowsInRange(db) && FrozenIsHeld(db, m)
    requires id in db.orders && 0 < db.orders[id].reserved && OrderUnfreeze(id) !in db.ledger.journals
    ensures var r := Posted(db.ledger, OrderUnfreeze(id), ReleaseMoves(m, db.orders[id]));
            && r.Ok? && Sound(r.value) && OneWallet(r.value)
            && r.value.journals == db.ledger.journals + {OrderUnfreeze(id)}
            && FrozenIsHeld(db.(ledger := r.value), m)
  {
    var row := db.orders[id];
    FrozenCovers(db, m, id);
    ReleaseMovesPlain(m, row);
    ShiftPosting(db.ledger, OrderUnfreeze(id), row.user, HeldCurrency(m, row.side), row.reserved, Available);
    hide Sound, OneWallet, Posted, Shift, ReleaseMoves;
    var db' := db.(ledger := Posted(db.ledger, OrderUnfreeze(id), ReleaseMoves(m, row)).value);
    forall user: Id, c: Currency
      ensures Balance(db'.ledger, UserAccount(user, c, Frozen)) == Sum(HeldMap(db', m, user, c))
    {
      HeldReleased(db, db', m, id, user, c);
    }
  }

  /** A terminal update is never stuck, and afterwards the order holds nothing unreleased. */
  lemma ReleaseNext(db: Rows, m: Market, known: Orders, ev: seq<Event>, e: Event)
    requires MarketOk(m) && Accounted(db, m, known, ev) && LifeCycle(known, ev + [e])
    requires e.kind.OrderChanged? && Terminal(e.kind.update.status)
    ensures var (db', out) := Release(db, m, e.kind.update.orderId);
            out == Settled && Accounted(db', m, known, ev + [e])
  {
    var id := e.kind.update.orderId;
    Append(ev, e);
    assert UpdateOk(known, ev, e.kind.update);
    assert Outstanding(db, m, ev, id, known[id]);
    if db.orders[id].reserved == 0 {
      KeepsOpen(db, m, known, ev, e);
    } else {
      assert OrderUnfreeze(id) !in db.ledger.journals;
      ReleasePosts(db, m, id);
      UpdateConsumesNothing(db, m, known, ev, e);
      var db' := Release(db, m, id).0;
      hide LifeCycle, Sound, OneWallet, FrozenIsHeld, Posted, Consumed;
      ReleasedJournals(db, db', known, ev, e);
      hide Journaled;
      StillOutstanding(db, db', m, ev + [e], known);
    }
  }

  ghost predicate AllOutstanding(db: Rows, m: Market, ev: seq<Event>, known: Orders) {
    forall id | id in known :: Outstanding(db, m, ev, id, known[id])
  }

  lemma StillOutstanding(db: Rows, db': Rows, m: Market, ev: seq<Event>, known: Orders)
    requires AllOutstanding(db, m, ev, known)
    requires forall x | x in known :: x in db.orders ==> x in db'.orders && db'.orders[x] == db.orders[x]
    ensures AllOutstanding(db', m, ev, known)
  {
    hide Consumed, Initial;
    forall x | x in known
      ensures Outstanding(db', m, ev, x, known[x])
    {
      assert Outstanding(db, m, ev, x, known[x]);
    }
  }

  lemma ReleasedJournals(db: Rows, db': Rows, known: Orders, ev: seq<Event>, e: Event)
    requires Journaled(db, known, ev) && e.kind.OrderChanged? && Terminal(e.kind.update.status)
    requires e.kind.update.orderId in db.orders && db'.orders == db.orders
    requires db'.ledger.journals == db.ledger.journals + {OrderUnfreeze(e.kind.update.orderId)}
    ensures Journaled(db', known, ev + [e])
  {
    Append(ev, e);
    hide Ended, TradeCount;
  }

  /** Journals of other kinds, and rows of other orders, do not matter. */
  lemma JournaledElsewhere(db: Rows, db': Rows, known: Orders, ev: seq<Event>)
    requires Journaled(db, known, ev)
    requires forall x: nat :: TradeSettled(x) in db'.ledger.journals <==> TradeSettled(x) in db.ledger.journals
    requires forall x: Id :: OrderUnfreeze(x) in db'.ledger.journals <==> OrderUnfreeze(x) in db.ledger.journals
    requires forall x | x in db.orders :: x in db'.orders && db'.orders[x] == db.orders[x]
    ensures Journaled(db', known, ev)
  {
    hide Ended, TradeCount;
  }

  // ---------- one event, new or repeated ----------

  /** Consuming the next event: stuck only on a trade that rounds to nothing; otherwise all agrees again. */
  lemma HandleNext(db: Rows, m: Market, known: Orders, ev: seq<Event>, e: Event)
    requires MarketOk(m) && Accounted(db, m, known, ev) && LifeCycle(known, ev + [e])
    ensures var (db', out) := Handle(db, m, e);
            if e.kind.TradeMade? && !Postable(m, e.kind.trade) then
              db' == db && out.Stuck? && out.error.Posting? && out.error.error.AmountNotPositive?
            else out == Settled && Accounted(db', m, known, ev + [e])
  {
    match e.kind
    case TradeMade(_) => SettleNext(db, m, known, ev, e);
    case OrderChanged(u) =>
      if Terminal(u.status) {
        ReleaseNext(db, m, known, ev, e);
      } else {
        KeepsOpen(db, m, known, ev, e);
      }
  }

  lemma {:induction false} TradeCountUpTo(ev: seq<Event>, j: nat, k: nat)
    requires j <= k <= |ev|
    ensures TradeCount(ev[..j]) <= TradeCount(ev[..k])
  {
    if j < k {
      assert ev[..k][..k - 1] == ev[..k - 1];
      TradeCountUpTo(ev, j, k - 1);
    }
  }

  lemma {:induction false} PaidIsConsumed(m: Market, known: Orders, ev: seq<Event>, k: nat)
    requires LifeCycle(known, ev) && k < |ev| && ev[k].kind.TradeMade?
    requires BuyOrder(ev[k].kind.trade) in known && known[BuyOrder(ev[k].kind.trade)].side.Bid?
    requires SellOrder(ev[k].kind.trade) in known && known[SellOrder(ev[k].kind.trade)].side.Ask?
    requires BuyOrder(ev[k].kind.trade) != SellOrder(ev[k].kind.trade)
    ensures var t := ev[k].kind.trade;
            && Paid(m, t) <= Consumed(m, ev, known[BuyOrder(t)], BuyOrder(t))
            && t.qty <= Consumed(m, ev, known[SellOrder(t)], SellOrder(t))
  {
    var t := ev[k].kind.trade;
    var front := ev[..|ev| - 1];
    var last := ev[|ev| - 1];
    assert ev == front + [last];
    ConsumedGrows(m, front, last, known[BuyOrder(t)], BuyOrder(t));
    ConsumedGrows(m, front, last, known[SellOrder(t)], SellOrder(t));
    if k < |front| {
      PaidIsConsumed(m, known, front, k);
    }
  }

  /** An event that has been consumed before changes nothing and never gets stuck. */
  lemma HandleAgain(db: Rows, m: Market, known: Orders, ev: seq<Event>, k: nat)
    requires MarketOk(m) && Accounted(db, m, known, ev) && LifeCycle(known, ev) && k < |ev|
    ensures var (db', out) := Handle(db, m, ev[k]);
            db' == db && !out.Stuck? && out != Poison
  {
    hide LifeCycle, Accounted, Settle, Release, Terminal;
    match ev[k].kind
    case TradeMade(t) => SettleAgain(db, m, known, ev, k);
    case OrderChanged(u) =>
      if Terminal(u.status) {
        ReleaseAgain(db, m, known, ev, k);
      }
  }

  lemma ReleaseAgain(db: Rows, m: Market, known: Orders, ev: seq<Event>, k: nat)
    requires MarketOk(m) && Accounted(db, m, known, ev) && LifeCycle(known, ev) && k < |ev|
    requires ev[k].kind.OrderChanged? && Terminal(ev[k].kind.update.status)
    ensures var (db', out) := Release(db, m, ev[k].kind.update.orderId);
            db' == db && !out.Stuck? && out != Poison
  {
    var id := ev[k].kind.update.orderId;
    LifeCycleAt(known, ev, k);
    EndedFrom(ev, id, k, |ev|);
    assert ev[..|ev|] == ev;
    hide LifeCycle, Sound, OneWallet, FrozenIsHeld, Consumed, Ended, Traded, TradeCount;
    assert Outstanding(db, m, ev, id, known[id]);
    var row := db.orders[id];
    if row.reserved != 0 {
      ReleaseMovesPlain(m, row);
      ShiftBalanced(row.user, HeldCurrency(m, row.side), row.reserved, Available);
      hide ReleaseMoves, Shift, CheckPasses;
      Repeated(db.ledger, OrderUnfreeze(id), ReleaseMoves(m, row));
    }
  }

  lemma SettledFacts(db: Rows, m: Market, known: Orders, ev: seq<Event>, k: nat)
    requires MarketOk(m) && Accounted(db, m, known, ev) && LifeCycle(known, ev) && k < |ev| && ev[k].kind.TradeMade?
    ensures var t := ev[k].kind.trade;
            && TradeSettled(t.tradeId) in db.ledger.journals && SidesMatch(db.orders, t)
            && Paid(m, t) <= I64_MAX && 0 < t.qty <= I64_MAX
  {
    var t := ev[k].kind.trade;
    LifeCycleAt(known, ev, k);
    assert TradeOk(known, ev[..k], t);
    assert ev[..k + 1][..k] == ev[..k];
    assert TradeCount(ev[..k + 1]) == t.tradeId;
    TradeCountUpTo(ev, k + 1, |ev|);
    assert ev[..|ev|] == ev;
    hide LifeCycle, Sound, FrozenIsHeld, Paid, Consumed, TradeCount, Ended;
    assert Outstanding(db, m, ev, BuyOrder(t), known[BuyOrder(t)]);
    assert Outstanding(db, m, ev, SellOrder(t), known[SellOrder(t)]);
    PaidIsConsumed(m, known, ev, k);
  }

  lemma SettleAgain(db: Rows, m: Market, known: Orders, ev: seq<Event>, k: nat)
    requires MarketOk(m) && Accounted(db, m, known, ev) && LifeCycle(known, ev) && k < |ev| && ev[k].kind.TradeMade?
    ensures Clearing.Settle(db, m, ev[k].kind.trade) == (db, AlreadySettled)
  {
    SettledFacts(db, m, known, ev, k);
    hide *;
    RepeatedSettle(db, m, ev[k].kind.trade);
  }

  lemma RepeatedSettle(db: Rows, m: Market, t: Trade)
    requires MarketOk(m) && TradeSettled(t.tradeId) in db.ledger.journals && SidesMatch(db.orders, t)
    requires Paid(m, t) <= I64_MAX && 0 < t.qty <= I64_MAX
    ensures Clearing.Settle(db, m, t) == (db, AlreadySettled)
  {
    hide CheckPasses, TrulyBalanced, BuyFee, SellFee, Amount, Posted, SidesMatch, QuoteOf, SettleMoves;
    MovesArePlain(m, t);
    FiveBalanced(m, t, Paid(m, t), Received(m, t), Fees(m, t));
    BalancedPasses(PlainMoves(m, t));
    Repeated(db.ledger, TradeSettled(t.tradeId), PlainMoves(m, t));
  }

  lemma Repeated(t: Tables, key: JournalKey, moves: seq<Move>)
    requires key in t.journals && CheckPasses(moves) && |moves| >= 2
    ensures Posted(t, key, moves) == Ledger.Err(AlreadyProcessed)
  {
  }

  // ---------- a whole delivery ----------

  ghost function Cleared(db: Rows, m: Market, d: seq<Event>): Rows {
    if d == [] then db else Handle(Cleared(db, m, d[..|d| - 1]), m, d[|d| - 1]).0
  }

  lemma {:induction false} LifeCyclePrefix(known: Orders, ev: seq<Event>, n: nat)
    requires LifeCycle(known, ev) && n <= |ev|
    ensures LifeCycle(known, ev[..n])
  {
    if n < |ev| {
      LifeCyclePrefix(known, ev[..|ev| - 1], n);
      assert ev[..|ev| - 1][..n] == ev[..n];
    } else {
      assert ev[..n] == ev;
    }
  }

  lemma ClearedMore(db: Rows, m: Market, d: seq<Event>, e: Event)
    ensures Cleared(db, m, d + [e]) == Handle(Cleared(db, m, d), m, e).0
  {
    hide Handle;
    assert (d + [e])[..|d|] == d;
  }

  lemma ClearedNext(db: Rows, m: Market, full: seq<Event>, n: nat)
    requires n < |full|
    ensures Cleared(db, m, full[..n + 1]) == Handle(Cleared(db, m, full[..n]), m, full[n]).0
  {
    hide *;
    assert full[..n + 1] == full[..n] + [full[n]];
    ClearedMore(db, m, full[..n], full[n]);
  }

  /** The number of the last event that has taken effect; clearing does not move on from one that is stuck. */
  ghost function Progress(db: Rows, m: Market, d: seq<Event>): nat {
    if d == [] then 0
    else
      var front, e := d[..|d| - 1], d[|d| - 1];
      var n := Progress(db, m, front);
      if e.seqNo == n + 1 && !Handle(Cleared(db, m, front), m, e).1.Stuck? then n + 1 else n
  }

  /** What a clearing process that restarts at any earlier position, and stays at a stuck event, can be given. */
  ghost predicate Clears(db: Rows, m: Market, full: seq<Event>, d: seq<Event>) {
    d == [] ||
    (Clears(db, m, full, d[..|d| - 1]) &&
     var e := d[|d| - 1];
     1 <= e.seqNo <= |full| && e == full[e.seqNo - 1] && e.seqNo <= Progress(db, m, d[..|d| - 1]) + 1)
  }

  lemma ClearsLast(db: Rows, m: Market, full: seq<Event>, d: seq<Event>, e: Event)
    ensures Clears(db, m, full, d + [e]) <==>
            (Clears(db, m, full, d) && 1 <= e.seqNo <= |full| && e == full[e.seqNo - 1]
             && e.seqNo <= Progress(db, m, d) + 1)
    ensures Progress(db, m, d + [e])
         == if e.seqNo == Progress(db, m, d) + 1 && !Handle(Cleared(db, m, d), m, e).1.Stuck?
            then Progress(db, m, d) + 1 else Progress(db, m, d)
  {
    hide Handle, Cleared;
    assert (d + [e])[..|d|] == d;
  }

  /** One more event, new or repeated, on an accounted state. */
  lemma ClearedStep(db: Rows, m: Market, known: Orders, full: seq<Event>, n: nat, e: Event)
    requires MarketOk(m) && LifeCycle(known, full) && n <= |full| && Accounted(db, m, known, full[..n])
    requires 1 <= e.seqNo <= |full| && e == full[e.seqNo - 1] && e.seqNo <= n + 1
    ensures var (db', out) := Handle(db, m, e);
            if e.seqNo == n + 1 && !out.Stuck? then Accounted(db', m, known, full[..n + 1])
            else db' == db && (out.Stuck? ==> e.seqNo == n + 1 && e.kind.TradeMade? && !Postable(m, e.kind.trade))
  {
    hide Accounted, Handle, Postable;
    if e.seqNo <= n {
      LifeCyclePrefix(known, full, n);
      hide LifeCycle;
      assert full[..n][e.seqNo - 1] == e;
      HandleAgain(db, m, known, full[..n], e.seqNo - 1);
    } else {
      LifeCyclePrefix(known, full, n + 1);
      hide LifeCycle;
      assert full[..n + 1] == full[..n] + [e];
      HandleNext(db, m, known, full[..n], e);
    }
  }

  /** Any such delivery, whatever is repeated and wherever it gets stuck, gives the database of clearing once, one
      after the other, the events that took effect, and the accounts agree with exactly those. */
  lemma {:induction false} RedeliveredClearing(db: Rows, m: Market, known: Orders, full: seq<Event>, d: seq<Event>)
    requires MarketOk(m) && Accounted(db, m, known, []) && LifeCycle(known, full) && Clears(db, m, full, d)
    ensures var n := Progress(db, m, d);
            && n <= |full| && Cleared(db, m, d) == Cleared(db, m, full[..n])
            && Accounted(Cleared(db, m, d), m, known, full[..n])
  {
    hide *;
    if d == [] {
      NoProgress(db, m, known, full);
    } else {
      var front, e := d[..|d| - 1], d[|d| - 1];
      assert d == front + [e];
      ClearsLast(db, m, full, front, e);
      RedeliveredClearing(db, m, known, full, front);
      ClearedMore(db, m, front, e);
      ClearedStep(Cleared(db, m, front), m, known, full, Progress(db, m, front), e);
      if e.seqNo == Progress(db, m, front) + 1 {
        ProgressStep(db, m, full, front, e);
      }
    }
  }

  lemma NoProgress(db: Rows, m: Market, known: Orders, full: seq<Event>)
    requires Accounted(db, m, known, [])
    ensures Progress(db, m, []) == 0 && Cleared(db, m, []) == Cleared(db, m, full[..0])
    ensures Accounted(Cleared(db, m, []), m, known, full[..0])
  {
    hide Accounted;
    assert full[..0] == [];
  }

  lemma ProgressStep(db: Rows, m: Market, full: seq<Event>, d: seq<Event>, e: Event)
    requires Progress(db, m, d) < |full| && e == full[Progress(db, m, d)]
    requires Cleared(db, m, d) == Cleared(db, m, full[..Progress(db, m, d)])
    ensures var n := Progress(db, m, d); Handle(Cleared(db, m, d), m, e).0 == Cleared(db, m, full[..n + 1])
  {
    hide *;
    ClearedNext(db, m, full, Progress(db, m, d));
  }
}
