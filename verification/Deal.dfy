/**
 * The shortest run with a trade to settle: two users get money, place a bid and an ask that it covers, and clearing
 * reads as far as the trade.
 */
module Deal {
  import opened Protocol
  import opened History
  import opened Scenario
  import opened Ledger
  import opened Reserve
  import opened Clearing
  import opened OrderService
  import opened Trading
  import opened Steps
  import Exchange

  function BuyerFunds(m: Market, bid: PlaceCommand, funds: U64): Action {
    AdminCredit("buyer", bid.userId, m.quote, funds)
  }

  function SellerFunds(m: Market, ask: PlaceCommand, stock: U64): Action {
    AdminCredit("seller", ask.userId, m.base, stock)
  }

  function Script(m: Market, bid: PlaceCommand, ask: PlaceCommand, funds: U64, stock: U64): seq<Action> {
    [] + [BuyerFunds(m, bid, funds)] + [SellerFunds(m, ask, stock)] + Submit(bid) + Submit(ask) + [Consume(0)]
  }

  function DealTrade(bid: PlaceCommand, ask: PlaceCommand): Trade {
    Trade(1, bid.orderId, ask.orderId, bid.userId, ask.userId, Ask, LimitOf(bid), ask.qty)
  }

  /** Both orders are accepted, with these freezes as computed, and the money is there. */
  ghost predicate Ready(m: Market, bid: PlaceCommand, ask: PlaceCommand, funds: U64, stock: U64,
                        paid: I64, given: I64)
  {
    && m.base != m.quote && Pair(bid, ask) && bid.userId != ask.userId && PriceFits(bid) && PriceFits(ask)
    && CheckPlace(m, bid) == Accepted(paid) && 0 < paid <= funds <= I64_MAX
    && CheckPlace(m, ask) == Accepted(given) && 0 < given <= stock <= I64_MAX
  }

  /** The state in which the trade is next. */
  ghost predicate Dealt(w: World, m: Market, bid: PlaceCommand, ask: PlaceCommand, paid: I64, given: I64) {
    && Healthy(w) && w.log == [Place(bid), Place(ask)] && w.pending == map[]
    && w.db.orders == map[bid.orderId := RowFor(bid, paid), ask.orderId := RowFor(ask, given)]
    && w.db.ledger.journals
       == {Deposit("buyer"), Deposit("seller"), OrderFreeze(bid.orderId), OrderFreeze(ask.orderId)}
    && Balance(w.db.ledger, UserAccount(bid.userId, m.quote, Frozen)) == paid
    && Balance(w.db.ledger, UserAccount(ask.userId, m.base, Frozen)) == given
    && Balance(w.db.ledger, UserAccount(ask.userId, m.quote, Available)) == 0
  }

  lemma Funded(m: Market, bid: PlaceCommand, ask: PlaceCommand, funds: U64, stock: U64)
    requires m.base != m.quote && 0 < funds <= I64_MAX && 0 < stock <= I64_MAX && bid.userId != ask.userId
    ensures var w := Exec(m, [] + [BuyerFunds(m, bid, funds)] + [SellerFunds(m, ask, stock)]);
            && Healthy(w) && w == GENESIS.(db := GENESIS.db.(ledger := w.db.ledger))
            && w.db.ledger.journals == {Deposit("buyer"), Deposit("seller")}
            && forall a: Account | a.ownerType.User? ::
                 Balance(w.db.ledger, a)
                 == if a == UserAccount(bid.userId, m.quote, Available) then funds
                    else if a == UserAccount(ask.userId, m.base, Available) then stock else 0
  {
    hide Exec, Healthy;
    Genesis(m);
    Credited(m, [], "buyer", bid.userId, m.quote, funds);
    Credited(m, [] + [BuyerFunds(m, bid, funds)], "seller", ask.userId, m.base, stock);
  }

  lemma BothSubmitted(m: Market, acts: seq<Action>, bid: PlaceCommand, ask: PlaceCommand, funds: U64, stock: U64,
                      paid: I64, given: I64)
    requires Ready(m, bid, ask, funds, stock, paid, given)
    requires var w := Exec(m, acts);
             && Healthy(w) && w == GENESIS.(db := GENESIS.db.(ledger := w.db.ledger))
             && w.db.ledger.journals == {Deposit("buyer"), Deposit("seller")}
             && forall a: Account | a.ownerType.User? ::
                  Balance(w.db.ledger, a)
                  == if a == UserAccount(bid.userId, m.quote, Available) then funds
                     else if a == UserAccount(ask.userId, m.base, Available) then stock else 0
    ensures Dealt(Exec(m, acts + Submit(bid) + Submit(ask)), m, bid, ask, paid, given)
    ensures Exec(m, acts + Submit(bid) + Submit(ask)).done == 0
  {
    hide Exec, Healthy, CheckPlace, Froze, Exchange.Freezable, Pair;
    var s1, s2 := acts + Submit(bid), acts + Submit(bid) + Submit(ask);
    DifferentOrders(bid, ask);
    HasIt(Exec(m, acts).db.ledger, bid.userId, m.quote, paid);
    Submitted(m, acts, bid, paid);
    FrozeIs(Exec(m, acts), Exec(m, s1), m, bid, paid);
    HasIt(Exec(m, s1).db.ledger, ask.userId, m.base, given);
    Submitted(m, s1, ask, given);
    FrozeIs(Exec(m, s1), Exec(m, s2), m, ask, given);
  }

  /** The opening update is consumed, and the trade is next. */
  lemma TradeIsNext(m: Market, bid: PlaceCommand, ask: PlaceCommand, funds: U64, stock: U64, paid: I64, given: I64)
    requires Ready(m, bid, ask, funds, stock, paid, given)
    ensures var w := Exec(m, Script(m, bid, ask, funds, stock));
            && Dealt(w, m, bid, ask, paid, given) && w.done == 1
            && 1 < |Emitted(w.log)| && Emitted(w.log)[1].kind == TradeMade(DealTrade(bid, ask))
  {
    hide Exec, Healthy, CheckPlace, Emitted, Pair;
    var s2 := [] + [BuyerFunds(m, bid, funds)] + [SellerFunds(m, ask, stock)];
    Funded(m, bid, ask, funds, stock);
    BothSubmitted(m, s2, bid, ask, funds, stock, paid, given);
    TwoOrders(bid, ask);
    FirstEvents(bid, ask);
    FirstRead(m, s2 + Submit(bid) + Submit(ask));
  }

  lemma FirstEvents(bid: PlaceCommand, ask: PlaceCommand)
    ensures var ev := OpeningEvents(bid) + FillingEvents(bid, ask);
            && |ev| > 1 && ev[0].kind.OrderChanged? && !Terminal(ev[0].kind.update.status)
            && ev[1].kind == TradeMade(DealTrade(bid, ask))
  {
  }

  lemma DifferentOrders(bid: PlaceCommand, ask: PlaceCommand)
    requires Pair(bid, ask)
    ensures bid.orderId != ask.orderId && bid.side.Bid? && ask.side.Ask?
  {
  }

  lemma HasIt(t: Tables, user: Id, c: Currency, need: I64)
    requires 0 < need <= Balance(t, UserAccount(user, c, Available))
    ensures Exchange.Freezable(t, user, c, need)
  {
  }

  lemma FrozeIs(w: World, w': World, m: Market, p: PlaceCommand, reserved: I64)
    requires Froze(w.db, w'.db, m, p, reserved)
    ensures w'.db.orders == w.db.orders[p.orderId := RowFor(p, reserved)]
    ensures w'.db.ledger.journals == w.db.ledger.journals + {OrderFreeze(p.orderId)}
    ensures var c := HeldCurrency(m, p.side);
            forall a: Account ::
              Balance(w'.db.ledger, a) == Balance(w.db.ledger, a)
                + if a == UserAccount(p.userId, c, Frozen) then reserved as int
                  else if a == UserAccount(p.userId, c, Available) then -(reserved as int) else 0
  {
  }
}
