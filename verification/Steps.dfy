/**
 * Steps that concrete runs are made of, each with the whole state it leaves behind.  They need sound books only, so
 * that they also lead to states where orders and freezes do not agree.
 */
module Steps {
  import opened Protocol
  import opened History
  import opened Ledger
  import opened LedgerSound
  import Database
  import opened Reserve
  import opened Clearing
  import opened OrderService
  import opened Accounting
  import opened Exchange
  import opened WalletService
  import opened Trading
  import Reconciliation
  import Transfers

  ghost predicate Healthy(w: World) {
    Sound(w.db.ledger) && OneWallet(w.db.ledger)
  }

  /** An order placed and dispatched. */
  function Submit(p: PlaceCommand): seq<Action> {
    [PlaceOrder(p), Dispatch(p.orderId)]
  }

  lemma Genesis(m: Market)
    ensures Exec(m, []) == GENESIS && Healthy(GENESIS)
  {
    GenesisInv(m);
    InvParts(GENESIS, m);
  }

  lemma Credited(m: Market, acts: seq<Action>, bizId: string, user: Id, c: Currency, amount: U64)
    requires Healthy(Exec(m, acts)) && Deposit(bizId) !in Exec(m, acts).db.ledger.journals && 0 < amount
    requires Balance(Exec(m, acts).db.ledger, Accounting.Wallet(c)) + amount <= I64_MAX
    ensures var w, w' := Exec(m, acts), Exec(m, acts + [AdminCredit(bizId, user, c, amount)]);
            && Healthy(w') && w' == w.(db := w.db.(ledger := w'.db.ledger))
            && w'.db.ledger.journals == w.db.ledger.journals + {Deposit(bizId)}
            && forall a: Account ::
                 Balance(w'.db.ledger, a) == Balance(w.db.ledger, a)
                   + if a == UserAccount(user, c, Available) || a == Accounting.Wallet(c) then amount else 0
  {
    hide Exec, Act, Sound, OneWallet, Posted, CreditMoves;
    ExecOne(m, acts, AdminCredit(bizId, user, c, amount));
    CreditActs(Exec(m, acts), m, bizId, user, c, amount);
    Transfers.CreditPosts(Exec(m, acts).db.ledger, Deposit(bizId), user, c, amount);
  }

  lemma CreditActs(w: World, m: Market, bizId: string, user: Id, c: Currency, amount: U64)
    ensures Act(w, m, AdminCredit(bizId, user, c, amount))
         == w.(db := PostOnly(w.db, Deposit(bizId), CreditMoves(user, c, amount)))
  {
    hide PostOnly, CreditMoves;
  }

  lemma Submitted(m: Market, acts: seq<Action>, p: PlaceCommand, reserved: I64)
    requires Healthy(Exec(m, acts)) && p.orderId !in Exec(m, acts).db.orders && p.orderId !in Exec(m, acts).pending
    requires CheckPlace(m, p) == Accepted(reserved) && PriceFits(p)
    requires Freezable(Exec(m, acts).db.ledger, p.userId, HeldCurrency(m, p.side), reserved)
    ensures var w, w' := Exec(m, acts), Exec(m, acts + Submit(p));
            && Healthy(w') && w' == w.(db := w'.db, log := w.log + [Place(p)])
            && Froze(w.db, w'.db, m, p, reserved)
  {
    Reconciliation.ExecRegistered(m, acts);
    var w := Exec(m, acts);
    hide Exec, Act, Sound, OneWallet, Posted, CheckPlace, FreezeMoves, Freezable, Placing;
    ExecTwo(m, acts, p);
    FreezePosting(w.db.ledger, OrderFreeze(p.orderId), m, p.userId, p.side, reserved);
    PlacingIs(w, m, p, reserved);
    PlaceThenDispatch(w, m, p, Freeze(w.db, m, p.orderId, p, reserved).0);
  }

  lemma ExecTwo(m: Market, acts: seq<Action>, p: PlaceCommand)
    ensures Exec(m, acts + Submit(p)) == Act(Act(Exec(m, acts), m, PlaceOrder(p)), m, Dispatch(p.orderId))
  {
    hide Exec, Act;
    assert acts + Submit(p) == (acts + [PlaceOrder(p)]) + [Dispatch(p.orderId)];
    ExecOne(m, acts, PlaceOrder(p));
    ExecOne(m, acts + [PlaceOrder(p)], Dispatch(p.orderId));
  }

  lemma PlacingIs(w: World, m: Market, p: PlaceCommand, reserved: I64)
    requires CheckPlace(m, p) == Accepted(reserved) && Freeze(w.db, m, p.orderId, p, reserved).1.Placed?
    ensures Placing(w, m, p)
         == w.(db := Freeze(w.db, m, p.orderId, p, reserved).0, pending := w.pending[p.orderId := p])
  {
    hide CheckPlace, Freeze;
  }

  lemma PlaceThenDispatch(w: World, m: Market, p: PlaceCommand, db': Database.Rows)
    requires p.orderId !in w.db.orders && p.orderId !in w.pending
    requires Placing(w, m, p) == w.(db := db', pending := w.pending[p.orderId := p])
    ensures Act(Act(w, m, PlaceOrder(p)), m, Dispatch(p.orderId)) == w.(db := db', log := w.log + [Place(p)])
  {
    hide Placing;
    assert w.pending[p.orderId := p] - {p.orderId} == w.pending;
  }

  /** The opening update of the first order is consumed. */
  lemma FirstRead(m: Market, acts: seq<Action>)
    requires Exec(m, acts).done == 0
    requires Emitted(Exec(m, acts).log) != [] && Emitted(Exec(m, acts).log)[0].kind.OrderChanged?
    requires !Terminal(Emitted(Exec(m, acts).log)[0].kind.update.status)
    ensures Exec(m, acts + [Consume(0)]) == Exec(m, acts).(done := 1)
    ensures Healthy(Exec(m, acts)) ==> Healthy(Exec(m, acts + [Consume(0)]))
  {
    hide Exec, Emitted, Sound, OneWallet;
    ExecOne(m, acts, Consume(0));
    ConsumeActs(Exec(m, acts), m, 0);
  }
}
