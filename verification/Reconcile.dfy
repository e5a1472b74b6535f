/**
 * Reconciliation: the ledger against itself and against deposit and withdrawal rows.  In every state an ordinary
 * run reaches the report is clean, and no withdrawal is held up by the hot wallet.
 */
module Reconciliation {
  import opened Protocol
  import opened History
  import opened Sums
  import opened Ledger
  import opened LedgerSound
  import opened Database
  import opened Reserve
  import opened Clearing
  import opened OrderService
  import opened Accounting
  import opened Exchange
  import opened WalletService
  import opened Transfers
  import opened Trading

  datatype Report = Report(mismatches: set<Account>, assets: int, claims: int,
                           orphanDeposits: set<DepositRef>, orphanWithdrawals: set<Id>)

  function Systemic(): Account -> bool {
    (a: Account) => a.ownerType.System?
  }

  function NotSystemic(): Account -> bool {
    (a: Account) => !a.ownerType.System?
  }

  /** Balances that differ from their entries, totals over all currencies, and rows without their journal. */
  ghost function Reconcile(db: Rows): Report {
    Report(
      (set a | a in db.ledger.accounts && db.ledger.accounts[a] != Derived(db.ledger.entries, a)),
      SumWhere(db.ledger.accounts, Systemic()),
      SumWhere(db.ledger.accounts, NotSystemic()),
      (set ref | ref in db.deposits && db.deposits[ref].credited && Deposit(OnchainId(ref)) !in db.ledger.journals),
      (set id | id in db.withdrawals && Withdraw(id) !in db.ledger.journals))
  }

  predicate Clean(r: Report) {
    r.mismatches == {} && r.assets == r.claims && r.orphanDeposits == {} && r.orphanWithdrawals == {}
  }

  // ---------- totals ----------

  ghost function Elsewhere(m: map<Account, int>, c: Currency): map<Account, int> {
    map a | a in m && a.currency != c :: m[a]
  }

  lemma OneCurrencyApart(m: map<Account, int>, c: Currency, p: Account -> bool, inC: Account -> bool)
    requires forall a | a in m :: inC(a) == (p(a) && a.currency == c)
    ensures SumWhere(m, p) == SumWhere(m, inC) + SumWhere(Elsewhere(m, c), p)
  {
    var here := (a: Account) => a.currency == c;
    var away := (a: Account) => a.currency != c;
    SumSplit(Part(m, p), here, away);
    assert Part(Part(m, p), here) == Part(m, inC);
    assert Part(Part(m, p), away) == Part(Elsewhere(m, c), p);
  }

  /** Balanced in every currency means balanced in total. */
  lemma {:induction false} TotalsAgree(m: map<Account, int>)
    requires forall c: Currency :: SumWhere(m, IsAsset(c)) == SumWhere(m, IsClaim(c))
    ensures SumWhere(m, Systemic()) == SumWhere(m, NotSystemic())
    decreases m.Keys
  {
    if m == map[] {
      assert Part(m, Systemic()) == Part(m, NotSystemic());
    } else {
      var a :| a in m;
      var rest := Elsewhere(m, a.currency);
      forall c: Currency
        ensures SumWhere(rest, IsAsset(c)) == SumWhere(rest, IsClaim(c))
      {
        if c == a.currency {
          assert Part(rest, IsAsset(c)) == Part(rest, IsClaim(c));
        } else {
          assert Part(rest, IsAsset(c)) == Part(m, IsAsset(c)) && Part(rest, IsClaim(c)) == Part(m, IsClaim(c));
          assert SumWhere(m, IsAsset(c)) == SumWhere(m, IsClaim(c));
        }
      }
      assert a !in rest;
      TotalsAgree(rest);
      OneCurrencyApart(m, a.currency, Systemic(), IsAsset(a.currency));
      OneCurrencyApart(m, a.currency, NotSystemic(), IsClaim(a.currency));
    }
  }

  // ---------- rows and journals ----------

  /** Credited deposits, withdrawals and freezes each have both their row and their journal. */
  ghost predicate Registered(db: Rows) {
    && (forall ref | ref in db.deposits && db.deposits[ref].credited :: Deposit(OnchainId(ref)) in db.ledger.journals)
    && (forall id | id in db.withdrawals :: Withdraw(id) in db.ledger.journals)
    && (forall id: Id :: OrderFreeze(id) in db.ledger.journals ==> id in db.orders)
  }

  lemma SoundIsClean(db: Rows)
    requires Sound(db.ledger) && Registered(db)
    ensures Clean(Reconcile(db))
  {
    assert forall a | a in db.ledger.accounts :: Balance(db.ledger, a) == Derived(db.ledger.entries, a);
    forall c: Currency
      ensures SumWhere(db.ledger.accounts, IsAsset(c)) == SumWhere(db.ledger.accounts, IsClaim(c))
    {
      assert Assets(db.ledger, c) == Claims(db.ledger, c);
    }
    TotalsAgree(db.ledger.accounts);
  }

  /** What a clean report says, in full, and what each kind of finding is about. */
  lemma CleanIff(db: Rows)
    ensures Clean(Reconcile(db)) <==>
            && (forall a | a in db.ledger.accounts :: db.ledger.accounts[a] == Derived(db.ledger.entries, a))
            && SumWhere(db.ledger.accounts, Systemic()) == SumWhere(db.ledger.accounts, NotSystemic())
            && (forall ref | ref in db.deposits && db.deposits[ref].credited ::
                  Deposit(OnchainId(ref)) in db.ledger.journals)
            && (forall id | id in db.withdrawals :: Withdraw(id) in db.ledger.journals)
  {
    hide Derived, SumWhere, OnchainId;
    var r := Reconcile(db);
    forall a | a in db.ledger.accounts
      ensures a in r.mismatches <==> db.ledger.accounts[a] != Derived(db.ledger.entries, a)
    {
    }
    forall ref | ref in db.deposits
      ensures ref in r.orphanDeposits <==>
              db.deposits[ref].credited && Deposit(OnchainId(ref)) !in db.ledger.journals
    {
    }
    forall id | id in db.withdrawals
      ensures id in r.orphanWithdrawals <==> Withdraw(id) !in db.ledger.journals
    {
    }
  }

  /** Books in one currency whose entries are right but whose assets and claims differ are always reported. */
  lemma ImbalanceReported(db: Rows, c: Currency)
    requires InRange(db.ledger) && FromEntries(db.ledger) && !Sound(db.ledger)
    requires forall a | a in db.ledger.accounts :: a.currency == c
    ensures !Clean(Reconcile(db)) && Reconcile(db).mismatches == {}
  {
    var m := db.ledger.accounts;
    var d: Currency :| Assets(db.ledger, d) != Claims(db.ledger, d);
    assert Part(m, IsAsset(d)) == if d == c then Part(m, Systemic()) else map[];
    assert Part(m, IsClaim(d)) == if d == c then Part(m, NotSystemic()) else map[];
    assert forall a | a in m :: Balance(db.ledger, a) == Derived(db.ledger.entries, a);
  }

  /** So the withdrawal that wraps does not go unnoticed as long as there is one currency. */
  lemma WrappedWithdrawalReported()
    ensures var c := "USDT";
            var t := Committed(NO_ROWS, Posted(NO_ROWS, Deposit("d"), CreditMoves(2, c, I64_MAX)));
            var r := Posted(t, Withdraw(1), DebitMoves(1, c, I64_MAX, 2));
            && r.Ok?
            && !Clean(Reconcile(Rows(r.value, map[], map[], map[1 := WithdrawalRow(1, c, I64_MAX, 2)])))
  {
    var c := "USDT";
    var credit, debit := CreditMoves(2, c, I64_MAX), DebitMoves(1, c, I64_MAX, 2);
    WrappedWithdrawalPays();
    OneDeposit(c);
    hide Sound, Posted, CreditMoves, DebitMoves;
    var t := Committed(NO_ROWS, Posted(NO_ROWS, Deposit("d"), credit));
    PostingSoundIff(t, Withdraw(1), debit);
    OnlyUsdt(credit, debit);
    InOneCurrency(NO_ROWS, Deposit("d"), credit, c);
    InOneCurrency(t, Withdraw(1), debit, c);
    var t' := Posted(t, Withdraw(1), debit).value;
    ImbalanceReported(Rows(t', map[], map[], map[1 := WithdrawalRow(1, c, I64_MAX, 2)]), c);
  }

  lemma OnlyUsdt(credit: seq<Ledger.Move>, debit: seq<Ledger.Move>)
    requires credit == CreditMoves(2, "USDT", I64_MAX) && debit == DebitMoves(1, "USDT", I64_MAX, 2)
    ensures forall i :: 0 <= i < |credit| ==> credit[i].account.currency == "USDT"
    ensures forall i :: 0 <= i < |debit| ==> debit[i].account.currency == "USDT"
  {
  }

  lemma InOneCurrency(t: Tables, key: JournalKey, moves: seq<Ledger.Move>, c: Currency)
    requires (forall a | a in t.accounts :: a.currency == c) && Posted(t, key, moves).Ok?
    requires forall i :: 0 <= i < |moves| ==> moves[i].account.currency == c
    ensures forall a | a in Posted(t, key, moves).value.accounts :: a.currency == c
  {
    PostedAccounts(t.(journals := t.journals + {key}), key, moves);
  }

  /** The totals mix currencies: a missing coin of one and a surplus of another go unnoticed. */
  lemma TotalsMixCurrencies(user: Id)
    ensures var a, b := Accounting.Wallet("USDT"), UserAccount(user, "BTC", Available);
            var key := Deposit("d");
            var db := Rows(Tables(map[a := 5, b := 5], {key}, [Entry(key, a, true, 5, 5), Entry(key, b, false, 5, 5)]),
                           map[], map[], map[]);
            Clean(Reconcile(db)) && !Sound(db.ledger)
  {
    var a, b := Accounting.Wallet("USDT"), UserAccount(user, "BTC", Available);
    var key := Deposit("d");
    var es := [Entry(key, a, true, 5, 5), Entry(key, b, false, 5, 5)];
    var m: map<Account, int> := map[a := 5, b := 5];
    assert es[..1] == [es[0]] && es[..1][..0] == [];
    assert Derived(es[..1], a) == 5 && Derived(es[..1], b) == 0;
    assert Derived(es, a) == 5 && Derived(es, b) == 5;
    OnlyOne(Part(m, Systemic()), a);
    OnlyOne(Part(m, NotSystemic()), b);
    OnlyOne(Part(m, IsAsset("USDT")), a);
    assert Part(m, IsClaim("USDT")) == map[];
    var t := Tables(m, {key}, es);
    assert Assets(t, "USDT") == 5 && Claims(t, "USDT") == 0;
  }

  lemma OnlyOne(m: map<Account, int>, a: Account)
    requires m.Keys == {a}
    ensures Sum(m) == m[a]
  {
  }

  ghost predicate RowsKept(db: Rows, db': Rows) {
    && db'.deposits == db.deposits && db'.withdrawals == db.withdrawals
    && db.orders.Keys <= db'.orders.Keys && db.ledger.journals <= db'.ledger.journals
    && (forall id: Id :: OrderFreeze(id) in db'.ledger.journals ==>
          OrderFreeze(id) in db.ledger.journals || id in db'.orders)
  }

  lemma HandleKeepsRows(db: Rows, m: Market, e: Event)
    ensures RowsKept(db, Handle(db, m, e).0)
  {
    match e.kind
    case TradeMade(t) =>
      if QuoteOf(m, t).Ok? {
        PostedJournals(db.ledger, TradeSettled(t.tradeId), SettleMoves(m, t, QuoteOf(m, t).value));
      }
    case OrderChanged(u) =>
      if u.orderId in db.orders {
        PostedJournals(db.ledger, OrderUnfreeze(u.orderId), ReleaseMoves(m, db.orders[u.orderId]));
      }
  }

  lemma PlacingKeepsRows(w: World, m: Market, p: PlaceCommand)
    ensures RowsKept(w.db, Placing(w, m, p).db)
  {
    hide Posted;
    if CheckPlace(m, p).Accepted? {
      var reserved := CheckPlace(m, p).reserved;
      PostedJournals(w.db.ledger, OrderFreeze(p.orderId), FreezeMoves(m, p.userId, p.side, reserved));
    }
  }

  lemma RefundKeepsRows(db: Rows, m: Market, id: Id, p: PlaceCommand, reserved: I64)
    ensures RowsKept(db, Refund(db, m, id, p, reserved))
  {
    hide Posted;
    PostedJournals(db.ledger, OrderUnfreeze(id), ReleaseMoves(m, RowFor(p, reserved)));
  }

  lemma WalletRegistered(db: Rows, db': Rows, key: JournalKey, moves: seq<Move>)
    requires db'.orders == db.orders && db'.ledger == Committed(db.ledger, Posted(db.ledger, key, moves))
    ensures db.ledger.journals <= db'.ledger.journals
    ensures db'.ledger.journals <= db.ledger.journals + {key}
    ensures Posted(db.ledger, key, moves).Ok? ==> key in db'.ledger.journals
    ensures Posted(db.ledger, key, moves) == Ledger.Err(AlreadyProcessed) ==> key in db'.ledger.journals
  {
    PostedJournals(db.ledger, key, moves);
    if Posted(db.ledger, key, moves) == Ledger.Err(AlreadyProcessed) && key !in db.ledger.journals {
      NeverRepeated(db.ledger.(journals := db.ledger.journals + {key}), key, moves);
    }
  }

  lemma ActRegistered(w: World, m: Market, a: Action)
    requires Registered(w.db)
    ensures Registered(Act(w, m, a).db)
  {
    hide Placing, Handle, Refund, Initial, CheckPlace, Emitted, CreditMoves, DebitMoves, Posted, OnchainId;
    match a
    case PlaceOrder(p) => PlacingKeepsRows(w, m, p);
    case Dispatch(_) =>
    case DispatchFailed(id) =>
      if id in w.pending && CheckPlace(m, w.pending[id]).Accepted? {
        RefundKeepsRows(w.db, m, id, w.pending[id], CheckPlace(m, w.pending[id]).reserved);
      }
    case CancelOrder(_) =>
    case Consume(k) =>
      if k < |Emitted(w.log)| && k <= w.done {
        HandleKeepsRows(w.db, m, Emitted(w.log)[k]);
      }
    case AdminCredit(bizId, user, c, amount) =>
      WalletRegistered(w.db, Act(w, m, a).db, Deposit(bizId), CreditMoves(user, c, amount));
    case ReportDeposit(ref, user, c, amount, confirmations) =>
    case CreditDeposit(ref, user, c, amount) =>
      if ref in w.db.deposits {
        WalletRegistered(w.db, Act(w, m, a).db, Deposit(OnchainId(ref)), CreditMoves(user, c, amount));
      }
    case WithdrawFunds(chain, id, user, c, amount) =>
      if Act(w, m, a) != w {
        WalletRegistered(w.db, Act(w, m, a).db, Withdraw(id), DebitMoves(user, c, amount, chain.withdrawFee));
      }
  }

  lemma {:induction false} ExecRegistered(m: Market, acts: seq<Action>)
    ensures Registered(Exec(m, acts).db)
  {
    if acts != [] {
      ExecRegistered(m, acts[..|acts| - 1]);
      ActRegistered(Exec(m, acts[..|acts| - 1]), m, acts[|acts| - 1]);
    }
  }

  /** Whatever users, matching, clearing and the chain do, the report is clean. */
  lemma ReconcileAlwaysClean(m: Market, acts: seq<Action>)
    requires MarketOk(m) && Ordinary(m, acts)
    ensures Clean(Reconcile(Exec(m, acts).db))
  {
    ExecInv(m, acts);
    ExecRegistered(m, acts);
    SoundIsClean(Exec(m, acts).db);
  }

  // ---------- withdrawals ----------

  /** In every state an ordinary run reaches, a covered withdrawal with a fee goes through. */
  lemma WithdrawalNeverBlocked(m: Market, acts: seq<Action>, chain: Chain, id: Id, user: Id, c: Currency, amount: U64)
    requires MarketOk(m) && Ordinary(m, acts) && Withdraw(id) !in Exec(m, acts).db.ledger.journals
    requires 0 < amount && chain.minWithdraw <= amount
    requires 0 < chain.withdrawFee && amount as int + chain.withdrawFee <= I64_MAX
    ensures var db := Exec(m, acts).db;
            Withdrawn(db, chain, id, user, c, amount).1
            == if amount as int + chain.withdrawFee <= Balance(db.ledger, UserAccount(user, c, Available))
               then Broadcasting else NotEnough
  {
    BooksStaySound(m, acts);
    SignedSmall(amount);
    SignedSmall(chain.withdrawFee);
    hide Exec, Posted, Sound, OneWallet, DebitMoves, Signed;
    WithdrawalExact(Exec(m, acts).db.ledger, id, user, c, amount, chain.withdrawFee);
  }

  // ---------- placements ----------

  /** A placement goes through iff its price fits the column and its freeze, as computed, is positive and available
      or negative and already frozen. */
  lemma PlacementExact(m: Market, acts: seq<Action>, p: PlaceCommand)
    requires MarketOk(m) && Ordinary(m, acts)
    requires CheckPlace(m, p).Accepted? && p.orderId !in Exec(m, acts).db.orders
    ensures var w := Exec(m, acts);
            var reserved := CheckPlace(m, p).reserved;
            && (Freeze(w.db, m, p.orderId, p, reserved).1.Placed?
                <==> (p.price.Some? ==> p.price.value <= I64_MAX)
                     && Freezable(w.db.ledger, p.userId, HeldCurrency(m, p.side), reserved))
            && reserved == Signed(Initial(m, p.side, p.price, p.qty))
            && (0 < reserved ==>
                  (Freeze(w.db, m, p.orderId, p, reserved).1 == NotPlaced(InsufficientBalance)
                   <==> (p.price.Some? ==> p.price.value <= I64_MAX)
                        && Balance(w.db.ledger, UserAccount(p.userId, HeldCurrency(m, p.side), Available)) < reserved))
  {
    hide *;
    BooksStaySound(m, acts);
    ExecRegistered(m, acts);
    CheckedReserve(m, p);
    var w := Exec(m, acts);
    NeverFrozen(w.db, p.orderId);
    FreezeReplies(w.db, m, p, CheckPlace(m, p).reserved);
  }

  lemma NeverFrozen(db: Rows, id: Id)
    requires Registered(db) && id !in db.orders
    ensures OrderFreeze(id) !in db.ledger.journals
  {
  }

  lemma FreezeReplies(db: Rows, m: Market, p: PlaceCommand, reserved: I64)
    requires Sound(db.ledger) && OneWallet(db.ledger) && OrderFreeze(p.orderId) !in db.ledger.journals
    ensures var reply := Freeze(db, m, p.orderId, p, reserved).1;
            && (reply.Placed? <==> (p.price.Some? ==> p.price.value <= I64_MAX)
                                   && Freezable(db.ledger, p.userId, HeldCurrency(m, p.side), reserved))
            && (0 < reserved ==>
                  (reply == NotPlaced(InsufficientBalance)
                   <==> (p.price.Some? ==> p.price.value <= I64_MAX)
                        && Balance(db.ledger, UserAccount(p.userId, HeldCurrency(m, p.side), Available)) < reserved))
  {
    hide Sound, OneWallet, Posted, FreezeMoves;
    FreezePosting(db.ledger, OrderFreeze(p.orderId), m, p.userId, p.side, reserved);
    if 0 < reserved {
      ShortIsInsufficient(db.ledger, OrderFreeze(p.orderId), m, p.userId, p.side, reserved);
    }
  }

  /** Too little available is what a positive freeze is refused for. */
  lemma ShortIsInsufficient(t: Tables, key: JournalKey, m: Market, user: Id, side: Side, reserved: I64)
    requires Sound(t) && key !in t.journals && 0 < reserved
    ensures Balance(t, UserAccount(user, HeldCurrency(m, side), Available)) < reserved ==>
              Posted(t, key, FreezeMoves(m, user, side, reserved))
              == Ledger.Err(Insufficient(UserAccount(user, HeldCurrency(m, side), Available)))
  {
    SignedSmall(-(reserved as int));
    FreezeBalanced(m, user, side, reserved);
    hide CheckPasses, TrulyBalanced;
  }
}
