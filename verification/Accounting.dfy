/**
 * What keeps the money right: in every state each user's frozen balance is the sum of what open orders
 * still hold, so that settling and releasing never run out of money.
 */
module Accounting {
  import opened Protocol
  import opened Book
  import opened Sums
  import opened Ledger
  import opened LedgerSound
  import opened Database
  import opened Reserve
  import opened Clearing
  import opened OrderService

  // ---------- postings to different accounts ----------

  predicate DifferentAccounts(moves: seq<Move>) {
    forall i, j :: 0 <= i < j < |moves| ==> moves[i].account != moves[j].account
  }

  predicate Affordable(t: Tables, moves: seq<Move>) {
    forall i :: 0 <= i < |moves| ==> 0 <= Balance(t, moves[i].account) + moves[i].delta <= I64_MAX
  }

  predicate AllPositive(moves: seq<Move>) {
    forall i :: 0 <= i < |moves| ==> Abs(moves[i].delta) > 0
  }

  function DeltaOn(moves: seq<Move>, a: Account): int {
    if moves == [] then 0
    else (if moves[0].account == a then moves[0].delta as int else 0) + DeltaOn(moves[1..], a)
  }

  /** Moves on different accounts that are all affordable succeed iff none of them is empty. */
  lemma {:induction false} AffordablePosting(t: Tables, key: JournalKey, moves: seq<Move>)
    requires DifferentAccounts(moves) && Affordable(t, moves)
    ensures match PostMoves(t, key, moves)
            case Ok(t') =>
              && AllPositive(moves)
              && t'.journals == t.journals
              && forall a: Account :: Balance(t', a) == Balance(t, a) + DeltaOn(moves, a)
            case Err(e) => !AllPositive(moves) && e.AmountNotPositive?
    decreases |moves|
  {
    if moves != [] && Abs(moves[0].delta) > 0 {
      var t1 := PostMove(t, key, moves[0]).value;
      assert forall i :: 0 <= i < |moves[1..]| ==> moves[1..][i] == moves[i + 1];
      AffordablePosting(t1, key, moves[1..]);
    }
  }

  // ---------- bounds from soundness ----------

  /** The only asset account of a currency is the hot wallet. */
  ghost predicate OneWallet(t: Tables) {
    forall a | a in t.accounts && a.ownerType.System? :: a == Wallet(a.currency)
  }

  function Wallet(c: Currency): Account {
    Account(System, 0, c, Available)
  }

  lemma AssetsAreWallet(t: Tables, c: Currency)
    requires OneWallet(t)
    ensures Assets(t, c) == Balance(t, Wallet(c))
  {
    var m := Part(t.accounts, IsAsset(c));
    var w := Wallet(c);
    assert forall a | a in m :: a == w;
    if w in t.accounts {
      assert m == map[w := t.accounts[w]];
      SumPut(map[], w, t.accounts[w]);
      assert map[][w := t.accounts[w]] == m;
    } else {
      assert m == map[];
    }
  }

  /** No two balances of claims on one currency exceed the wallet, hence never the 64-bit range. */
  lemma ClaimsBounded(t: Tables, a: Account, b: Account)
    requires Sound(t) && OneWallet(t) && a.currency == b.currency
    requires !a.ownerType.System? && !b.ownerType.System? && a != b
    ensures 0 <= Balance(t, a) && 0 <= Balance(t, b)
    ensures Balance(t, a) + Balance(t, b) <= Balance(t, Wallet(a.currency)) <= I64_MAX
  {
    var c := a.currency;
    AssetsAreWallet(t, c);
    assert Assets(t, c) == Claims(t, c);
    SumNonNegative(Part(t.accounts, IsClaim(c)));
    if a in t.accounts && b in t.accounts {
      SumAtLeast(t.accounts, IsClaim(c), a, b);
    } else if a in t.accounts {
      SumAtLeast(t.accounts, IsClaim(c), a, a);
    } else if b in t.accounts {
      SumAtLeast(t.accounts, IsClaim(c), b, b);
    }
  }

  // ---------- what orders hold ----------

  /** Remaining freezes of the user's orders in the currency that have not been released. */
  ghost function HeldMap(db: Rows, m: Market, user: Id, c: Currency): map<Id, int> {
    map id | id in db.orders && OrderUnfreeze(id) !in db.ledger.journals
             && db.orders[id].user == user && HeldCurrency(m, db.orders[id].side) == c
      :: db.orders[id].reserved
  }

  ghost predicate FrozenIsHeld(db: Rows, m: Market) {
    forall user: Id, c: Currency ::
      Balance(db.ledger, UserAccount(user, c, Frozen)) == Sum(HeldMap(db, m, user, c))
  }

  ghost predicate RowsInRange(db: Rows) {
    forall id | id in db.orders :: 0 <= db.orders[id].reserved <= I64_MAX
  }

  /** An unreleased order's freeze is part of its owner's frozen balance. */
  lemma FrozenCovers(db: Rows, m: Market, id: Id)
    requires FrozenIsHeld(db, m) && RowsInRange(db)
    requires id in db.orders && OrderUnfreeze(id) !in db.ledger.journals
    ensures var row := db.orders[id];
            row.reserved <= Balance(db.ledger, UserAccount(row.user, HeldCurrency(m, row.side), Frozen))
  {
    var row := db.orders[id];
    var held := HeldMap(db, m, row.user, HeldCurrency(m, row.side));
    SumTakeOut(held, id);
    SumNonNegative(held - {id});
  }

  lemma {:induction false} PostedAccounts(t: Tables, key: JournalKey, moves: seq<Move>)
    requires PostMoves(t, key, moves).Ok?
    ensures forall a | a in PostMoves(t, key, moves).value.accounts ::
              a in t.accounts || exists i :: 0 <= i < |moves| && moves[i].account == a
    decreases |moves|
  {
    if moves != [] {
      var t1 := PostMove(t, key, moves[0]).value;
      PostedAccounts(t1, key, moves[1..]);
      forall a | a in PostMoves(t, key, moves).value.accounts && a !in t.accounts
        ensures exists i :: 0 <= i < |moves| && moves[i].account == a
      {
        if a == moves[0].account {
          assert 0 <= 0 < |moves|;
        } else {
          assert a !in t1.accounts;
          var i :| 0 <= i < |moves[1..]| && moves[1..][i].account == a;
          assert moves[i + 1].account == a;
        }
      }
    }
  }

  /** An affordable, truly balanced posting under a new key: it goes through iff no move is empty,
      keeps the books sound and changes balances exactly as its moves say. */
  lemma GoodPosting(t: Tables, key: JournalKey, moves: seq<Move>)
    requires Sound(t) && OneWallet(t) && key !in t.journals && |moves| >= 2
    requires DifferentAccounts(moves) && Affordable(t, moves) && TrulyBalanced(moves) && CheckPasses(moves)
    requires forall i :: 0 <= i < |moves| && moves[i].account.ownerType.System? ==>
               moves[i].account == Wallet(moves[i].account.currency)
    ensures Posted(t, key, moves).Ok? <==> AllPositive(moves)
    ensures match Posted(t, key, moves)
            case Ok(t') =>
              && Sound(t') && OneWallet(t') && t'.journals == t.journals + {key}
              && forall a: Account :: Balance(t', a) == Balance(t, a) + DeltaOn(moves, a)
            case Err(e) => e.AmountNotPositive?
  {
    var t0 := t.(journals := t.journals + {key});
    assert forall a: Account :: Balance(t0, a) == Balance(t, a);
    AffordablePosting(t0, key, moves);
    if PostMoves(t0, key, moves).Ok? {
      PostingSoundIff(t, key, moves);
      PostedAccounts(t0, key, moves);
    }
  }

  // ---------- how holdings change ----------

  ghost function HeldBy(m: Market, row: OrderRow, user: Id, c: Currency): int {
    if row.user == user && HeldCurrency(m, row.side) == c then row.reserved else 0
  }

  /** Deducting from an unreleased order. */
  lemma HeldDeducted(db: Rows, m: Market, id: Id, amount: int, user: Id, c: Currency)
    requires id in db.orders && OrderUnfreeze(id) !in db.ledger.journals && amount <= db.orders[id].reserved
    ensures var row := db.orders[id];
            var db' := db.(orders := Deducted(db.orders, id, amount));
            Sum(HeldMap(db', m, user, c))
            == Sum(HeldMap(db, m, user, c)) - if row.user == user && HeldCurrency(m, row.side) == c then amount else 0
  {
    var row := db.orders[id];
    var db' := db.(orders := Deducted(db.orders, id, amount));
    var held := HeldMap(db, m, user, c);
    if row.user == user && HeldCurrency(m, row.side) == c {
      assert HeldMap(db', m, user, c) == held[id := row.reserved - amount];
      SumPut(held, id, row.reserved - amount);
    } else {
      assert HeldMap(db', m, user, c) == held;
    }
  }

  /** Releasing an order takes it out of the sum. */
  lemma HeldReleased(db: Rows, db': Rows, m: Market, id: Id, user: Id, c: Currency)
    requires id in db.orders && OrderUnfreeze(id) !in db.ledger.journals
    requires db'.orders == db.orders && db'.ledger.journals == db.ledger.journals + {OrderUnfreeze(id)}
    ensures Sum(HeldMap(db', m, user, c)) == Sum(HeldMap(db, m, user, c)) - HeldBy(m, db.orders[id], user, c)
  {
    var row := db.orders[id];
    var held := HeldMap(db, m, user, c);
    if row.user == user && HeldCurrency(m, row.side) == c {
      assert HeldMap(db', m, user, c) == held - {id};
      SumTakeOut(held, id);
    } else {
      assert HeldMap(db', m, user, c) == held;
    }
  }

  /** A new row adds its freeze. */
  lemma HeldAdded(db: Rows, db': Rows, m: Market, id: Id, row: OrderRow, user: Id, c: Currency)
    requires id !in db.orders && OrderUnfreeze(id) !in db'.ledger.journals
    requires db'.orders == db.orders[id := row]
    requires forall x: Id :: OrderUnfreeze(x) in db'.ledger.journals <==> OrderUnfreeze(x) in db.ledger.journals
    ensures Sum(HeldMap(db', m, user, c)) == Sum(HeldMap(db, m, user, c)) + HeldBy(m, row, user, c)
  {
    var held := HeldMap(db, m, user, c);
    if row.user == user && HeldCurrency(m, row.side) == c {
      assert HeldMap(db', m, user, c) == held[id := row.reserved];
      SumPut(held, id, row.reserved);
    } else {
      assert HeldMap(db', m, user, c) == held;
    }
  }

  /** Journals other than releases do not matter. */
  lemma HeldSame(db: Rows, db': Rows, m: Market, user: Id, c: Currency)
    requires db'.orders == db.orders
    requires forall x: Id :: OrderUnfreeze(x) in db'.ledger.journals <==> OrderUnfreeze(x) in db.ledger.journals
    ensures HeldMap(db', m, user, c) == HeldMap(db, m, user, c)
  {
  }
}
