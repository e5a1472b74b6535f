/**
 * Clearing: trades are settled and terminal updates release what is left of the freeze, each as one
 * transaction keyed so that repeats have no effect.
 */
module Clearing {
  import opened Protocol
  import opened Ledger
  import opened Database
  import Fixed
  import opened Reserve

  function UserAccount(user: Id, c: Currency, kind: Kind): Account {
    Account(User, user, c, kind)
  }

  const FEE_OWNER: Id := 0

  function FeeAccount(c: Currency): Account {
    Account(Fee, FEE_OWNER, c, Available)
  }

  /** uint64 arithmetic followed by a conversion to int64. */
  function Cast(x: int): I64 {
    Signed(x)
  }

  function Negated(x: I64): I64 {
    Signed(-(x as int))
  }

  datatype Quote = Quote(amount: U64, takerFee: U64, makerFee: U64)

  /** The settled amounts; an error when an intermediate result does not fit in 64 bits. */
  function QuoteOf(m: Market, t: Trade): Fixed.Result<Quote> {
    match Fixed.MulDiv(t.price, t.qty, SCALE)
    case Err(e) => Fixed.Err(e)
    case Ok(amount) =>
      match Fixed.MulDiv(amount, m.takerRate, SCALE)
      case Err(e) => Fixed.Err(e)
      case Ok(takerFee) =>
        match Fixed.MulDiv(amount, m.makerRate, SCALE)
        case Err(e) => Fixed.Err(e)
        case Ok(makerFee) => Fixed.Ok(Quote(amount, takerFee, makerFee))
  }

  function TakerConsume(t: Trade, q: Quote): I64 {
    if t.side.Bid? then Cast(q.amount as int + q.takerFee) else Cast(t.qty)
  }

  function MakerConsume(t: Trade, q: Quote): I64 {
    if t.side.Bid? then Cast(t.qty) else Cast(q.amount as int + q.makerFee)
  }

  function SettleMoves(m: Market, t: Trade, q: Quote): seq<Move> {
    var fees := Cast(q.takerFee as int + q.makerFee);
    if t.side.Bid? then
      [Move(UserAccount(t.takerUserId, m.quote, Frozen), Negated(Cast(q.amount as int + q.takerFee))),
       Move(UserAccount(t.takerUserId, m.base, Available), Cast(t.qty)),
       Move(UserAccount(t.makerUserId, m.base, Frozen), Negated(Cast(t.qty))),
       Move(UserAccount(t.makerUserId, m.quote, Available), Cast(q.amount as int - q.makerFee)),
       Move(FeeAccount(m.quote), fees)]
    else
      [Move(UserAccount(t.takerUserId, m.base, Frozen), Negated(Cast(t.qty))),
       Move(UserAccount(t.takerUserId, m.quote, Available), Cast(q.amount as int - q.takerFee)),
       Move(UserAccount(t.makerUserId, m.quote, Frozen), Negated(Cast(q.amount as int + q.makerFee))),
       Move(UserAccount(t.makerUserId, m.base, Available), Cast(t.qty)),
       Move(FeeAccount(m.quote), fees)]
  }

  /** The guarded UPDATE: no row changes when less than the amount is left. */
  function Deducted(orders: map<Id, OrderRow>, id: Id, amount: int): map<Id, OrderRow> {
    if id in orders && orders[id].reserved >= amount
    then orders[id := orders[id].(reserved := orders[id].reserved - amount)]
    else orders
  }

  /** A result the signed 64-bit column cannot take fails the UPDATE and with it the transaction. */
  predicate TooBig(orders: map<Id, OrderRow>, id: Id) {
    id in orders && orders[id].reserved > I64_MAX
  }

  /** Poison is skipped; Stuck ends the process so that the record is read again. */
  datatype Outcome = Settled | AlreadySettled | Poison | Stuck(error: StuckError)
  datatype StuckError = Arithmetic | Posting(error: LedgerError) | NoOrder | ColumnRange

  predicate SidesMatch(orders: map<Id, OrderRow>, t: Trade) {
    && t.makerOrderId in orders && t.takerOrderId in orders
    && orders[t.takerOrderId].side == t.side
    && orders[t.makerOrderId].side != orders[t.takerOrderId].side
  }

  ghost function Settle(db: Rows, m: Market, t: Trade): (Rows, Outcome) {
    match QuoteOf(m, t)
    case Err(_) => (db, Stuck(Arithmetic))
    case Ok(q) =>
      if !SidesMatch(db.orders, t) then (db, Poison)
      else
        match Posted(db.ledger, TradeSettled(t.tradeId), SettleMoves(m, t, q))
        case Err(AlreadyProcessed) => (db, AlreadySettled)
        case Err(e) => (db, Stuck(Posting(e)))
        case Ok(ledger) =>
          var orders := Deducted(Deducted(db.orders, t.takerOrderId, TakerConsume(t, q)),
                                 t.makerOrderId, MakerConsume(t, q));
          if TooBig(orders, t.takerOrderId) || TooBig(orders, t.makerOrderId) then (db, Stuck(ColumnRange))
          else (db.(ledger := ledger, orders := orders), Settled)
  }

  function HeldCurrency(m: Market, side: Side): Currency {
    if side.Ask? then m.base else m.quote
  }

  function ReleaseMoves(m: Market, row: OrderRow): seq<Move> {
    var c := HeldCurrency(m, row.side);
    [Move(UserAccount(row.user, c, Frozen), Negated(Cast(row.reserved))),
     Move(UserAccount(row.user, c, Available), Cast(row.reserved))]
  }

  ghost function Release(db: Rows, m: Market, id: Id): (Rows, Outcome) {
    if id !in db.orders then (db, Stuck(NoOrder))
    else if db.orders[id].reserved == 0 then (db, Settled)
    else
      match Posted(db.ledger, OrderUnfreeze(id), ReleaseMoves(m, db.orders[id]))
      case Err(AlreadyProcessed) => (db, AlreadySettled)
      case Err(e) => (db, Stuck(Posting(e)))
      case Ok(ledger) => (db.(ledger := ledger), Settled)
  }

  /** What consuming one event does, and whether the position moves on. */
  ghost function Handle(db: Rows, m: Market, e: Event): (Rows, Outcome) {
    match e.kind
    case TradeMade(t) => Settle(db, m, t)
    case OrderChanged(u) => if Terminal(u.status) then Release(db, m, u.orderId) else (db, Settled)
  }

  class Service {
    const db: Database
    const market: Market

    constructor (db: Database, market: Market)
      ensures this.db == db && this.market == market
    {
      this.db, this.market := db, market;
    }

    method SettleTrade(t: Trade) returns (outcome: Outcome)
      modifies db
      ensures (db.View(), outcome) == Settle(old(db.View()), market, t)
    {
      var quote := QuoteOf(market, t);
      if quote.Err? {
        return Stuck(Arithmetic);
      }
      var q := quote.value;
      if t.makerOrderId !in db.orders || t.takerOrderId !in db.orders {
        return Poison;
      }
      var maker, taker := db.orders[t.makerOrderId], db.orders[t.takerOrderId];
      if taker.side != t.side {
        return Poison;
      }
      if maker.side == taker.side {
        return Poison;
      }
      var accounts, journals, entries, orders := db.accounts, db.journals, db.entries, db.orders;
      var status := db.PostTx(TradeSettled(t.tradeId), SettleMoves(market, t, q));
      if status.Done? {
        Deduct(t.takerOrderId, TakerConsume(t, q));
        Deduct(t.makerOrderId, MakerConsume(t, q));
        if !TooBig(db.orders, t.takerOrderId) && !TooBig(db.orders, t.makerOrderId) {
          return Settled;
        }
      }
      db.accounts, db.journals, db.entries, db.orders := accounts, journals, entries, orders;
      outcome := if status == Failed(AlreadyProcessed) then AlreadySettled
                 else if status.Failed? then Stuck(Posting(status.error)) else Stuck(ColumnRange);
    }

    method Deduct(id: Id, amount: int)
      modifies db`orders
      ensures db.orders == Deducted(old(db.orders), id, amount)
    {
      if id in db.orders && db.orders[id].reserved >= amount {
        var row := db.orders[id];
        db.orders := db.orders[id := row.(reserved := row.reserved - amount)];
      }
    }

    method UnfreezeReserved(id: Id) returns (outcome: Outcome)
      modifies db
      ensures (db.View(), outcome) == Release(old(db.View()), market, id)
    {
      if id !in db.orders {
        return Stuck(NoOrder);
      }
      var row := db.orders[id];
      if row.reserved == 0 {
        return Settled;
      }
      var status := db.Post(OrderUnfreeze(id), ReleaseMoves(market, row));
      if status == Failed(AlreadyProcessed) {
        return AlreadySettled;
      }
      if status.Failed? {
        return Stuck(Posting(status.error));
      }
      outcome := Settled;
    }

    method HandleRecord(e: Event) returns (outcome: Outcome)
      modifies db
      ensures (db.View(), outcome) == Handle(old(db.View()), market, e)
    {
      match e.kind
      case TradeMade(t) => outcome := SettleTrade(t);
      case OrderChanged(u) =>
        if Terminal(u.status) {
          outcome := UnfreezeReserved(u.orderId);
        } else {
          outcome := Settled;
        }
    }
  }
}
