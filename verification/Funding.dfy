/**
 * What the money path means for the engine's fill-or-kill check: asks are backed by frozen base currency, so their
 * total cannot leave the 64-bit range and buys are never refused by wrap-around.
 */
module Funding {
  import opened Protocol
  import opened Book
  import opened Matching
  import opened History
  import opened Duplicates
  import opened Scenario
  import opened Sums
  import opened Ledger
  import opened LedgerSound
  import opened Database
  import opened Reserve
  import opened Clearing
  import opened Accounting
  import opened Exchange
  import Trading

  // ---------- all users' freezes together ----------

  /** Remaining unreleased freezes in the currency of the orders of the given users. */
  ghost function HeldAmong(db: Rows, m: Market, users: set<Id>, c: Currency): map<Id, int> {
    map id | id in db.orders && OrderUnfreeze(id) !in db.ledger.journals
             && db.orders[id].user in users && HeldCurrency(m, db.orders[id].side) == c
      :: db.orders[id].reserved
  }

  ghost function FrozenAmong(users: set<Id>, c: Currency): Account -> bool {
    (a: Account) => a.ownerType.User? && a.owner in users && a.currency == c && a.kind.Frozen?
  }

  lemma {:induction false} HeldIsFrozen(db: Rows, m: Market, users: set<Id>, c: Currency)
    requires FrozenIsHeld(db, m)
    ensures Sum(HeldAmong(db, m, users, c)) == SumWhere(db.ledger.accounts, FrozenAmong(users, c))
  {
    if users == {} {
      assert HeldAmong(db, m, users, c) == map[] && Part(db.ledger.accounts, FrozenAmong(users, c)) == map[];
    } else {
      var user :| user in users;
      HeldIsFrozen(db, m, users - {user}, c);
      HeldOneMore(db, m, users, user, c);
      FrozenOneMore(db.ledger, users, user, c);
    }
  }

  lemma HeldOneMore(db: Rows, m: Market, users: set<Id>, user: Id, c: Currency)
    requires user in users
    ensures Sum(HeldAmong(db, m, users, c)) == Sum(HeldMap(db, m, user, c)) + Sum(HeldAmong(db, m, users - {user}, c))
  {
    var held := HeldAmong(db, m, users, c);
    var p, q := (id: Id) => id in db.orders && db.orders[id].user == user,
                (id: Id) => !(id in db.orders && db.orders[id].user == user);
    SumSplit(held, p, q);
    assert Part(held, p) == HeldMap(db, m, user, c);
    assert Part(held, q) == HeldAmong(db, m, users - {user}, c);
  }

  lemma FrozenOneMore(t: Tables, users: set<Id>, user: Id, c: Currency)
    requires user in users
    ensures SumWhere(t.accounts, FrozenAmong(users, c))
         == Balance(t, UserAccount(user, c, Frozen)) + SumWhere(t.accounts, FrozenAmong(users - {user}, c))
  {
    var a := UserAccount(user, c, Frozen);
    var all := Part(t.accounts, FrozenAmong(users, c));
    var rest := Part(t.accounts, FrozenAmong(users - {user}, c));
    if a in t.accounts {
      SumTakeOut(all, a);
      assert all - {a} == rest;
    } else {
      assert all == rest;
    }
  }

  /** However many users there are, their freezes in one currency never exceed the hot wallet. */
  lemma HeldBounded(db: Rows, m: Market, users: set<Id>, c: Currency)
    requires Sound(db.ledger) && OneWallet(db.ledger) && FrozenIsHeld(db, m)
    ensures Sum(HeldAmong(db, m, users, c)) <= Balance(db.ledger, Accounting.Wallet(c)) <= I64_MAX
  {
    HeldIsFrozen(db, m, users, c);
    AssetsAreWallet(db.ledger, c);
    assert Assets(db.ledger, c) == Claims(db.ledger, c);
    PartAtMost(db.ledger.accounts, FrozenAmong(users, c), IsClaim(c));
  }

  lemma PartAtMost<K>(m: map<K, int>, p: K -> bool, q: K -> bool)
    requires NonNegative(m) && forall k :: p(k) ==> q(k)
    ensures SumWhere(m, p) <= SumWhere(m, q)
  {
    var n := Part(m, q);
    SumSplit(n, p, k => !p(k));
    assert Part(n, p) == Part(m, p);
    SumNonNegative(Part(n, k => !p(k)));
  }

  // ---------- asks are backed ----------

  lemma {:induction false} OpenBacked(os: seq<Order>, held: map<Id, int>)
    requires BookOk(os) && Distinct(os) && NonNegative(held)
    requires forall o | o in os :: o.id in held && o.remaining <= held[o.id]
    ensures Matching.Open(os) <= Sum(held)
  {
    if os == [] {
      SumNonNegative(held);
    } else {
      SumTakeOut(held, os[0].id);
      OpenBacked(os[1..], held - {os[0].id});
    }
  }

  lemma {:induction false} EndedStays(ev: seq<Event>, n: nat, id: Id)
    requires n <= |ev|
    ensures Ended(ev[..n], id) ==> Ended(ev, id)
    ensures Traded(ev[..n], id) <= Traded(ev, id)
  {
    if n == |ev| {
      assert ev[..n] == ev;
    } else {
      assert ev[..n] == ev[..|ev| - 1][..n];
      EndedStays(ev[..|ev| - 1], n, id);
    }
  }

  /** Clearing may be behind: the row of a resting ask then holds even more than what still rests. */
  lemma AskBacked(w: Trading.World, m: Market, o: Order)
    requires Trading.Inv(w, m) && o in After(w.log).asks
    ensures o.id in w.db.orders && OrderUnfreeze(o.id) !in w.db.ledger.journals
    ensures w.db.orders[o.id].side.Ask? && o.remaining <= w.db.orders[o.id].reserved
  {
    var ev := Emitted(w.log);
    RunHist(w.log);
    assert Live(Known(w.log), ev, Ask, o);
    EndedStays(ev, w.done, o.id);
    hide Hist, Emitted, After, Known, Sound, OneWallet, FrozenIsHeld, Trading.AllWaiting, Ended, Traded;
    assert Outstanding(w.db, m, ev[..w.done], o.id, Known(w.log)[o.id]);
  }

  lemma AsksFit(w: Trading.World, m: Market)
    requires Trading.Inv(w, m)
    ensures Matching.Open(After(w.log).asks) <= I64_MAX
  {
    var asks := After(w.log).asks;
    var users := set id | id in w.db.orders :: w.db.orders[id].user;
    var held := HeldAmong(w.db, m, users, m.base);
    AskOrders(w.log);
    HeldInRange(w, m, users);
    forall o | o in asks
      ensures o.id in held && o.remaining <= held[o.id]
    {
      AskBacked(w, m, o);
    }
    hide *;
    OpenBacked(asks, held);
  }

  lemma AskOrders(log: seq<Command>)
    ensures BookOk(After(log).asks) && Distinct(After(log).asks)
  {
    var s := After(log);
    DistinctConcat(s.bids, s.asks);
  }

  lemma HeldInRange(w: Trading.World, m: Market, users: set<Id>)
    requires Trading.Inv(w, m)
    ensures var held := HeldAmong(w.db, m, users, m.base); NonNegative(held) && Sum(held) <= I64_MAX
  {
    hide Emitted, Known, Trading.AllWaiting, Journaled, Outstanding;
    HeldBounded(w.db, m, users, m.base);
  }

  lemma {:induction false} FillableAtMost(p: PlaceCommand, limit: Px, os: seq<Order>)
    requires BookOk(os)
    ensures Fillable(p, limit, os) <= Matching.Open(os)
  {
    if os != [] {
      FillableAtMost(p, limit, os[1..]);
    }
  }

  /** In every state an ordinary run reaches, the check on a fill-or-kill buy is exact: no wrap-around refuses it. */
  lemma BuysNeverWrap(m: Market, acts: seq<Trading.Action>, p: PlaceCommand)
    requires MarketOk(m) && Trading.Ordinary(m, acts) && p.side.Bid? && WellFormedFok(p)
    ensures var asks := After(Trading.Exec(m, acts).log).asks;
            && BookOk(asks) && !FokSumWraps(p, asks)
            && (Admit(p, asks).Some? <==> Match(p, LimitOf(p), asks, p.qty).left == 0)
  {
    var w := Trading.Exec(m, acts);
    Trading.ExecInv(m, acts);
    AsksFit(w, m);
    AskOrders(w.log);
    FillableAtMost(p, LimitOf(p), After(w.log).asks);
    FokRefusalExact(After(w.log), p);
  }
}
