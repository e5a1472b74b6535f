/**
 * One settlement in plain numbers: who pays what, when the posting goes through, and what it changes.
 */
module Settlement {
  import opened Protocol
  import opened Book
  import opened Ledger
  import opened LedgerSound
  import opened Database
  import opened Reserve
  import opened Clearing
  import opened OrderService
  import opened Accounting
  import Fixed

  function BuyOrder(t: Trade): Id {
    if t.side.Bid? then t.takerOrderId else t.makerOrderId
  }

  function SellOrder(t: Trade): Id {
    if t.side.Bid? then t.makerOrderId else t.takerOrderId
  }

  function Buyer(t: Trade): Id {
    if t.side.Bid? then t.takerUserId else t.makerUserId
  }

  function Seller(t: Trade): Id {
    if t.side.Bid? then t.makerUserId else t.takerUserId
  }

  function Amount(t: Trade): int {
    Notional(t.price, t.qty)
  }

  function BuyFee(m: Market, t: Trade): int {
    FeeOn(Notional(t.price, t.qty), if t.side.Bid? then m.takerRate else m.makerRate)
  }

  function SellFee(m: Market, t: Trade): int {
    FeeOn(Notional(t.price, t.qty), if t.side.Bid? then m.makerRate else m.takerRate)
  }

  function Paid(m: Market, t: Trade): int {
    Amount(t) + BuyFee(m, t)
  }

  function Received(m: Market, t: Trade): int {
    Amount(t) - SellFee(m, t)
  }

  function Fees(m: Market, t: Trade): int {
    BuyFee(m, t) + SellFee(m, t)
  }

  /** Neither the seller's proceeds nor the exchange's fees round down to nothing. */
  predicate Postable(m: Market, t: Trade) {
    0 < Received(m, t) && 0 < Fees(m, t)
  }

  function SellRate(m: Market, t: Trade): U64 {
    if t.side.Bid? then m.makerRate else m.takerRate
  }

  /** In terms a caller can compute beforehand: the taker fee is at least one unit and the seller does not pay
      everything as a fee.  So small remainders cannot be settled, and on a market without fees nothing can. */
  lemma PostableIff(m: Market, t: Trade)
    requires MarketOk(m)
    ensures Postable(m, t) <==> SCALE <= Amount(t) * m.takerRate && SellRate(m, t) < SCALE
  {
    hide FeeOn, Amount, Notional;
    var a := Amount(t);
    AmountIs(t);
    FeeIff(a, m.makerRate);
    FeeIff(a, m.takerRate);
    MulUp(a, m.makerRate, m.takerRate);
    WholeFee(a);
    if SCALE <= a * m.takerRate && SellRate(m, t) < SCALE {
      Nonzero(a, m.takerRate);
      FeeBelow(a, SellRate(m, t));
    }
  }

  lemma AmountIs(t: Trade)
    ensures Amount(t) == Notional(t.price, t.qty)
  {
  }

  lemma FeeIff(amount: nat, rate: U64)
    ensures FeeOn(amount, rate) > 0 <==> SCALE <= amount * rate
  {
  }

  lemma WholeFee(amount: nat)
    ensures FeeOn(amount, SCALE) == amount
  {
  }

  lemma Nonzero(a: nat, b: nat)
    requires 0 < a * b
    ensures 0 < a
  {
  }

  lemma FeeBelow(amount: nat, rate: U64)
    requires rate < SCALE && 0 < amount
    ensures FeeOn(amount, rate) < amount
  {
    MulUp(amount, rate, SCALE - 1);
    Fixed.Under(amount * rate, amount, SCALE);
  }

  lemma FeesSmall(m: Market, t: Trade)
    requires MarketOk(m)
    ensures 0 <= BuyFee(m, t) <= Amount(t) && 0 <= SellFee(m, t) <= Amount(t)
  {
    FeeSmall(Amount(t), m.takerRate);
    FeeSmall(Amount(t), m.makerRate);
  }

  lemma FeeSmall(amount: nat, rate: U64)
    requires rate <= SCALE
    ensures FeeOn(amount, rate) <= amount
  {
  }

  lemma QuoteExact(m: Market, t: Trade)
    requires MarketOk(m) && Amount(t) <= I64_MAX
    ensures QuoteOf(m, t).Ok?
    ensures var q := QuoteOf(m, t).value;
            q.amount == Amount(t)
            && q.takerFee == FeeOn(Notional(t.price, t.qty), m.takerRate)
            && q.makerFee == FeeOn(Notional(t.price, t.qty), m.makerRate)
  {
    Fixed.MulDivIsFloor(t.price, t.qty, SCALE);
    Fixed.RateAtMostOne(Amount(t), m.takerRate);
    Fixed.RateAtMostOne(Amount(t), m.makerRate);
    hide Fixed.MulDiv;
  }

  /** The five moves: the taker's side first, then the maker's, then the fees. */
  function FiveMoves(m: Market, t: Trade, paid: I64, received: I64, fees: I64): seq<Move>
    requires 0 <= paid && t.qty <= I64_MAX
  {
    var pay := Move(UserAccount(Buyer(t), m.quote, Frozen), -(paid as int));
    var gain := Move(UserAccount(Buyer(t), m.base, Available), t.qty);
    var give := Move(UserAccount(Seller(t), m.base, Frozen), -(t.qty as int));
    var earn := Move(UserAccount(Seller(t), m.quote, Available), received);
    var fee := Move(FeeAccount(m.quote), fees);
    if t.side.Bid? then [pay, gain, give, earn, fee] else [give, earn, pay, gain, fee]
  }

  /** The numbers fit in signed 64-bit columns and nobody receives less than nothing. */
  predicate Moderate(m: Market, t: Trade) {
    && 0 <= Received(m, t) <= Paid(m, t) && 0 <= Fees(m, t) <= Paid(m, t) <= I64_MAX
    && 0 < t.qty <= I64_MAX
  }

  function PlainMoves(m: Market, t: Trade): seq<Move>
    requires Moderate(m, t)
  {
    FiveMoves(m, t, Paid(m, t), Received(m, t), Fees(m, t))
  }

  lemma SettleMovesPlain(m: Market, t: Trade, q: Quote, paid: I64, received: I64, fees: I64)
    requires 0 <= paid && 0 <= received && 0 <= fees && t.qty <= I64_MAX
    requires fees == q.takerFee as int + q.makerFee
    requires t.side.Bid? ==> paid == q.amount as int + q.takerFee && received == q.amount as int - q.makerFee
    requires t.side.Ask? ==> paid == q.amount as int + q.makerFee && received == q.amount as int - q.takerFee
    ensures SettleMoves(m, t, q) == FiveMoves(m, t, paid, received, fees)
    ensures if t.side.Bid? then TakerConsume(t, q) == paid && MakerConsume(t, q) == t.qty
            else TakerConsume(t, q) == t.qty && MakerConsume(t, q) == paid
  {
    SignedSmall(paid);
    SignedSmall(received);
    SignedSmall(fees);
    SignedSmall(t.qty);
    SignedSmall(-(paid as int));
    SignedSmall(-(t.qty as int));
    hide Signed;
  }

  lemma MovesArePlain(m: Market, t: Trade)
    requires MarketOk(m) && Paid(m, t) <= I64_MAX && 0 < t.qty <= I64_MAX
    ensures Moderate(m, t)
    ensures QuoteOf(m, t).Ok? && SettleMoves(m, t, QuoteOf(m, t).value) == PlainMoves(m, t)
    ensures var q := QuoteOf(m, t).value;
            if t.side.Bid? then TakerConsume(t, q) == Paid(m, t) && MakerConsume(t, q) == t.qty
            else TakerConsume(t, q) == t.qty && MakerConsume(t, q) == Paid(m, t)
  {
    FeesSmall(m, t);
    QuoteExact(m, t);
    hide FeeOn, Notional, QuoteOf, SettleMoves, TakerConsume, MakerConsume, FiveMoves;
    SettleMovesPlain(m, t, QuoteOf(m, t).value, Paid(m, t), Received(m, t), Fees(m, t));
  }

  /** The change of every balance. */
  function Change(m: Market, t: Trade, a: Account): int {
    if a == UserAccount(Buyer(t), m.quote, Frozen) then -Paid(m, t)
    else if a == UserAccount(Buyer(t), m.base, Available) then t.qty
    else if a == UserAccount(Seller(t), m.base, Frozen) then -(t.qty as int)
    else if a == UserAccount(Seller(t), m.quote, Available) then Received(m, t)
    else if a == FeeAccount(m.quote) then Fees(m, t)
    else 0
  }

  function OneDelta(x: Move, a: Account): int {
    if x.account == a then x.delta else 0
  }

  lemma Delta5(v: Move, w: Move, x: Move, y: Move, z: Move, a: Account)
    ensures DeltaOn([v, w, x, y, z], a)
         == OneDelta(v, a) + OneDelta(w, a) + OneDelta(x, a) + OneDelta(y, a) + OneDelta(z, a)
  {
    assert [v, w, x, y, z][1..] == [w, x, y, z] && [w, x, y, z][1..] == [x, y, z];
    assert [x, y, z][1..] == [y, z] && [y, z][1..] == [z] && [z][1..] == [];
    assert DeltaOn([z], a) == OneDelta(z, a);
    assert DeltaOn([y, z], a) == OneDelta(y, a) + DeltaOn([z], a);
    assert DeltaOn([x, y, z], a) == OneDelta(x, a) + DeltaOn([y, z], a);
    assert DeltaOn([w, x, y, z], a) == OneDelta(w, a) + DeltaOn([x, y, z], a);
  }

  lemma Volume5(v: Move, w: Move, x: Move, y: Move, z: Move, debit: bool, c: Currency)
    ensures Volume([v, w, x, y, z], debit, c)
         == AmountOn(v, debit, c) + AmountOn(w, debit, c) + AmountOn(x, debit, c)
            + AmountOn(y, debit, c) + AmountOn(z, debit, c)
  {
    assert [v, w, x, y, z][..4] == [v, w, x, y] && [v, w, x, y][..3] == [v, w, x];
    Volume3(v, w, x, debit, c);
    assert Volume([v, w, x, y], debit, c) == Volume([v, w, x], debit, c) + AmountOn(y, debit, c);
  }

  lemma PlainChange(m: Market, t: Trade, a: Account)
    requires MarketOk(m) && Moderate(m, t)
    ensures DeltaOn(PlainMoves(m, t), a) == Change(m, t, a)
    ensures DifferentAccounts(PlainMoves(m, t))
  {
    var ms := PlainMoves(m, t);
    assert ms == [ms[0], ms[1], ms[2], ms[3], ms[4]];
    Delta5(ms[0], ms[1], ms[2], ms[3], ms[4], a);
    hide DeltaOn, FeeOn, Notional;
  }

  lemma PlainAmount(x: Move, debit: bool, c: Currency)
    requires !x.account.ownerType.System? && x.delta > I64_MIN
    ensures AmountOn(x, debit, c)
         == if x.account.currency != c || (x.delta < 0) != debit then 0 else if x.delta < 0 then -x.delta else x.delta
  {
  }

  lemma FiveBalanced(m: Market, t: Trade, paid: I64, received: I64, fees: I64)
    requires m.base != m.quote && 0 <= received && 0 <= fees && paid == received + fees && t.qty <= I64_MAX
    ensures TrulyBalanced(FiveMoves(m, t, paid, received, fees))
  {
    var ms := FiveMoves(m, t, paid, received, fees);
    hide Volume;
    forall c: Currency
      ensures Volume(ms, true, c) == Volume(ms, false, c)
    {
      FiveVolumes(m, t, paid, received, fees, c);
    }
  }

  lemma FiveVolumes(m: Market, t: Trade, paid: I64, received: I64, fees: I64, c: Currency)
    requires m.base != m.quote && 0 <= received && 0 <= fees && paid == received + fees && t.qty <= I64_MAX
    ensures var ms := FiveMoves(m, t, paid, received, fees); Volume(ms, true, c) == Volume(ms, false, c)
  {
    hide Volume, AmountOn;
    var ms := FiveMoves(m, t, paid, received, fees);
    assert ms == [ms[0], ms[1], ms[2], ms[3], ms[4]];
    Volume5(ms[0], ms[1], ms[2], ms[3], ms[4], true, c);
    Volume5(ms[0], ms[1], ms[2], ms[3], ms[4], false, c);
    Amounts5(ms, true, c);
    Amounts5(ms, false, c);
  }

  lemma Amounts5(ms: seq<Move>, debit: bool, c: Currency)
    requires |ms| == 5 && forall i :: 0 <= i < 5 ==> !ms[i].account.ownerType.System? && ms[i].delta > I64_MIN
    ensures forall i :: 0 <= i < 5 ==>
              AmountOn(ms[i], debit, c)
              == if ms[i].account.currency != c || (ms[i].delta < 0) != debit then 0
                 else if ms[i].delta < 0 then -ms[i].delta else ms[i].delta
  {
  }

  lemma BalancedPasses(moves: seq<Move>)
    requires TrulyBalanced(moves)
    ensures CheckPasses(moves)
  {
  }

  /** The buyer's and the seller's frozen balances cover the trade. */
  predicate Covered(t: Tables, m: Market, trade: Trade) {
    && Paid(m, trade) <= Balance(t, UserAccount(Buyer(trade), m.quote, Frozen))
    && trade.qty <= Balance(t, UserAccount(Seller(trade), m.base, Frozen))
  }

  lemma CoveredIsAffordable(t: Tables, m: Market, trade: Trade)
    requires Sound(t) && OneWallet(t) && MarketOk(m) && Covered(t, m, trade) && Moderate(m, trade)
    ensures Affordable(t, PlainMoves(m, trade))
  {
    hide Sound, OneWallet, Paid, Received, Fees, Balance, Affordable, FiveMoves;
    var pay := UserAccount(Buyer(trade), m.quote, Frozen);
    var give := UserAccount(Seller(trade), m.base, Frozen);
    ClaimsBounded(t, give, UserAccount(Buyer(trade), m.base, Available));
    ClaimsBounded(t, pay, UserAccount(Seller(trade), m.quote, Available));
    ClaimsBounded(t, pay, FeeAccount(m.quote));
    FiveAffordable(t, m, trade, Paid(m, trade), Received(m, trade), Fees(m, trade));
  }

  lemma FiveAffordable(t: Tables, m: Market, trade: Trade, paid: I64, received: I64, fees: I64)
    requires 0 <= paid && 0 <= received && 0 <= fees && trade.qty <= I64_MAX
    requires paid <= Balance(t, UserAccount(Buyer(trade), m.quote, Frozen)) <= I64_MAX
    requires trade.qty <= Balance(t, UserAccount(Seller(trade), m.base, Frozen)) <= I64_MAX
    requires 0 <= Balance(t, UserAccount(Buyer(trade), m.base, Available)) <= I64_MAX - trade.qty
    requires 0 <= Balance(t, UserAccount(Seller(trade), m.quote, Available)) <= I64_MAX - received
    requires 0 <= Balance(t, FeeAccount(m.quote)) <= I64_MAX - fees
    ensures Affordable(t, FiveMoves(m, trade, paid, received, fees))
  {
    hide Balance;
  }

  lemma SettlePosting(t: Tables, m: Market, trade: Trade)
    requires Sound(t) && OneWallet(t) && MarketOk(m) && Covered(t, m, trade) && 0 < trade.qty
    requires TradeSettled(trade.tradeId) !in t.journals
    ensures Moderate(m, trade) && QuoteOf(m, trade).Ok?
    ensures var r := Posted(t, TradeSettled(trade.tradeId), SettleMoves(m, trade, QuoteOf(m, trade).value));
            && (r.Ok? <==> Postable(m, trade))
            && match r
               case Ok(t') =>
                 && Sound(t') && OneWallet(t') && t'.journals == t.journals + {TradeSettled(trade.tradeId)}
                 && forall a: Account :: Balance(t', a) == Balance(t, a) + Change(m, trade, a)
               case Err(e) => e.AmountNotPositive?
  {
    ClaimsBounded(t, UserAccount(Buyer(trade), m.quote, Frozen), FeeAccount(m.quote));
    ClaimsBounded(t, UserAccount(Seller(trade), m.base, Frozen), FeeAccount(m.base));
    MovesArePlain(m, trade);
    CoveredIsAffordable(t, m, trade);
    FiveBalanced(m, trade, Paid(m, trade), Received(m, trade), Fees(m, trade));
    var moves := PlainMoves(m, trade);
    BalancedPasses(moves);
    PlainChange(m, trade, FeeAccount(m.quote));
    PostableMoves(m, trade);
    hide Sound, OneWallet, Covered, Moderate, PlainMoves, Posted, Change, DeltaOn, TrulyBalanced, CheckPasses,
         SettleMoves, QuoteOf;
    GoodPosting(t, TradeSettled(trade.tradeId), moves);
    forall a: Account
      ensures DeltaOn(moves, a) == Change(m, trade, a)
    {
      PlainChange(m, trade, a);
    }
  }

  lemma PostableMoves(m: Market, t: Trade)
    requires MarketOk(m) && Moderate(m, t)
    ensures AllPositive(PlainMoves(m, t)) <==> Postable(m, t)
    ensures |PlainMoves(m, t)| == 5
    ensures forall i :: 0 <= i < 5 ==> !PlainMoves(m, t)[i].account.ownerType.System?
  {
    FeesSmall(m, t);
    var ms := PlainMoves(m, t);
    AbsSign(ms[0].delta);
    AbsSign(ms[1].delta);
    AbsSign(ms[2].delta);
    AbsSign(ms[3].delta);
    AbsSign(ms[4].delta);
    hide Abs, FeeOn, Notional;
  }

  lemma AbsSign(v: I64)
    requires v > I64_MIN
    ensures Abs(v) > 0 <==> v != 0
  {
  }

  // ---------- outcomes ----------

  lemma QuoteParts(m: Market, t: Trade)
    requires MarketOk(m) && QuoteOf(m, t).Ok?
    ensures var q := QuoteOf(m, t).value;
            && q.amount == Amount(t)
            && q.takerFee == (if t.side.Bid? then BuyFee(m, t) else SellFee(m, t))
            && q.makerFee == (if t.side.Bid? then SellFee(m, t) else BuyFee(m, t))
  {
    hide Fixed.MulDiv, Fixed.MulDivCeil, Fixed.CeilDiv;
    Fixed.MulDivIsFloor(t.price, t.qty, SCALE);
    Fixed.RateAtMostOne(QuoteOf(m, t).value.amount, m.takerRate);
    Fixed.RateAtMostOne(QuoteOf(m, t).value.amount, m.makerRate);
  }

  /** The arithmetic fails exactly when the notional needs more than 64 bits. */
  lemma QuoteFits(m: Market, t: Trade)
    requires MarketOk(m)
    ensures QuoteOf(m, t).Ok? <==> Amount(t) < U64_MODULUS
  {
    hide Fixed.MulDiv, Fixed.MulDivCeil, Fixed.CeilDiv;
    Fixed.MulDivIsFloor(t.price, t.qty, SCALE);
    if Amount(t) < U64_MODULUS {
      Fixed.RateAtMostOne(Amount(t), m.takerRate);
      Fixed.RateAtMostOne(Amount(t), m.makerRate);
    }
  }

  /** The rows of both orders exist, the taker's on the trade's side and the maker's on the other. */
  predicate RowsFit(db: Rows, t: Trade) {
    && t.takerOrderId in db.orders && db.orders[t.takerOrderId].side == t.side
    && t.makerOrderId in db.orders
    && db.orders[t.makerOrderId].side == (if t.side == Bid then Ask else Bid)
  }

  /** What each outcome of a settlement means: poison is skipped for its rows alone, a trade is settled once, and
      nothing is written otherwise. */
  lemma SettleOutcomes(db: Rows, m: Market, t: Trade)
    requires MarketOk(m)
    ensures var (db', out) := Settle(db, m, t);
            && (out == Stuck(Arithmetic) <==> U64_MODULUS <= Amount(t))
            && (out == Poison <==> Amount(t) < U64_MODULUS && !RowsFit(db, t))
            && (out == AlreadySettled ==> TradeSettled(t.tradeId) in db.ledger.journals)
            && (out == Settled ==>
                  TradeSettled(t.tradeId) !in db.ledger.journals && TradeSettled(t.tradeId) in db'.ledger.journals)
            && (out != Settled ==> db' == db)
  {
    hide QuoteOf, SettleMoves, Posted, Deducted, TakerConsume, MakerConsume, TooBig, Amount;
    QuoteFits(m, t);
    if QuoteOf(m, t).Ok? {
      PostedKeys(db.ledger, TradeSettled(t.tradeId), SettleMoves(m, t, QuoteOf(m, t).value));
    }
  }

  /** Whatever wraps, no row leaves the signed 64-bit column. */
  lemma RowsStayInColumn(db: Rows, m: Market, t: Trade)
    requires forall x | x in db.orders :: I64_MIN <= db.orders[x].reserved <= I64_MAX
    ensures var db' := Settle(db, m, t).0;
            forall x | x in db'.orders :: I64_MIN <= db'.orders[x].reserved <= I64_MAX
  {
    hide QuoteOf, SettleMoves, Posted, TakerConsume, MakerConsume;
  }

  /** A deduction takes place exactly when enough is left, so that no row ever falls below zero. */
  lemma DeductedIs(orders: map<Id, OrderRow>, id: Id, amount: int)
    ensures var orders' := Deducted(orders, id, amount);
            && orders'.Keys == orders.Keys
            && (forall x | x in orders :: orders'[x] == orders[x].(reserved := orders'[x].reserved))
            && (forall x | x in orders && x != id :: orders'[x].reserved == orders[x].reserved)
            && (id in orders ==>
                  orders'[id].reserved == orders[id].reserved - if amount <= orders[id].reserved then amount else 0)
            && (forall x | x in orders && 0 <= orders[x].reserved :: 0 <= orders'[x].reserved)
  {
  }

  /** Updates: only filled, canceled and rejected orders are released, an unknown one is never passed over, and a
      release is written once, for a row that still holds something. */
  lemma UpdateOutcomes(db: Rows, m: Market, e: Event)
    requires e.kind.OrderChanged?
    ensures var u := e.kind.update;
            var (db', out) := Handle(db, m, e);
            var over := u.status == Filled || u.status == Canceled || u.status == Rejected;
            && (!over ==> (db', out) == (db, Settled))
            && (out == Stuck(NoOrder) <==> over && u.orderId !in db.orders)
            && (over && u.orderId in db.orders && db.orders[u.orderId].reserved == 0 ==> (db', out) == (db, Settled))
            && (out == AlreadySettled ==> OrderUnfreeze(u.orderId) in db.ledger.journals)
            && (db' != db ==>
                  out == Settled && over && u.orderId in db.orders && db.orders[u.orderId].reserved != 0
                  && OrderUnfreeze(u.orderId) !in db.ledger.journals)
            && (out == Settled && over && u.orderId in db.orders && db.orders[u.orderId].reserved != 0 ==>
                  OrderUnfreeze(u.orderId) in db'.ledger.journals)
            && db'.orders == db.orders
  {
    hide ReleaseMoves, Posted;
    var id := e.kind.update.orderId;
    if id in db.orders {
      PostedKeys(db.ledger, OrderUnfreeze(id), ReleaseMoves(m, db.orders[id]));
    }
  }
}
