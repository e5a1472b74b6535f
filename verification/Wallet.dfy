/**
 * Deposits and withdrawals: an on-chain output is credited under its own journal key once it has enough
 * confirmations; a withdrawal row and its posting are written together or not at all.
 */
module WalletService {
  import opened Protocol
  import opened Ledger
  import opened Database
  import opened Clearing
  import opened Accounting
  import opened Decimal

  /** One currency on one network. */
  datatype Chain = Chain(confirmations: int, minDeposit: U64, minWithdraw: U64, withdrawFee: U64)

  /** biz_id of the credit of one transaction output. */
  function OnchainId(ref: DepositRef): string {
    "onchain-" + ref.0 + "-" + Itoa(ref.1)
  }

  function CreditMoves(user: Id, c: Currency, amount: U64): seq<Move> {
    [Move(Accounting.Wallet(c), Cast(amount)), Move(UserAccount(user, c, Available), Cast(amount))]
  }

  function DebitMoves(user: Id, c: Currency, amount: U64, fee: U64): seq<Move> {
    [Move(UserAccount(user, c, Available), Negated(Cast(amount as int + fee))),
     Move(Accounting.Wallet(c), Negated(Cast(amount))),
     Move(FeeAccount(c), Cast(fee))]
  }

  ghost function PostOnly(db: Rows, key: JournalKey, moves: seq<Move>): Rows {
    db.(ledger := Committed(db.ledger, Posted(db.ledger, key, moves)))
  }

  // ---------- deposits ----------

  /** The upsert: a known output only has its confirmations replaced. */
  function Reported(db: Rows, ref: DepositRef, user: Id, c: Currency, amount: U64, confirmations: int): Rows {
    var row := if ref in db.deposits then db.deposits[ref].(confirmations := confirmations)
               else DepositRow(user, c, Cast(amount), confirmations, false);
    db.(deposits := db.deposits[ref := row])
  }

  /** The credit transaction: an output that was credited before is only marked. */
  ghost function CreditOutput(db: Rows, ref: DepositRef, user: Id, c: Currency, amount: U64): (Rows, Status)
    requires ref in db.deposits
  {
    var marked := db.(deposits := db.deposits[ref := db.deposits[ref].(credited := true)]);
    match Posted(db.ledger, Deposit(OnchainId(ref)), CreditMoves(user, c, amount))
    case Ok(ledger) => (marked.(ledger := ledger), Done)
    case Err(AlreadyProcessed) => (marked, Done)
    case Err(e) => (db, Failed(e))
  }

  datatype DepositReply =
    InvalidAmount | BelowMinimum | NotStored | NotCredited(error: LedgerError) | Pending | Credited

  ghost function ChainDeposit(db: Rows, chain: Chain, ref: DepositRef, user: Id, c: Currency, amount: U64,
                              confirmations: int): (Rows, DepositReply)
  {
    if amount == 0 then (db, InvalidAmount)
    else if amount < chain.minDeposit then (db, BelowMinimum)
    else if Cast(amount) <= 0 then (db, NotStored)
    else
      var seen := Reported(db, ref, user, c, amount, confirmations);
      if seen.deposits[ref].credited then (seen, Credited)
      else if confirmations < chain.confirmations then (seen, Pending)
      else
        var (db', status) := CreditOutput(seen, ref, user, c, amount);
        (db', if status.Done? then Credited else NotCredited(status.error))
  }

  // ---------- withdrawals ----------

  datatype WithdrawReply = Refused | NotWritten | NotEnough | NotPosted(error: LedgerError) | Broadcasting

  ghost function Withdrawn(db: Rows, chain: Chain, id: Id, user: Id, c: Currency, amount: U64): (Rows, WithdrawReply) {
    if amount == 0 || amount < chain.minWithdraw then (db, Refused)
    else if Cast(amount) <= 0 || Cast(chain.withdrawFee) < 0 then (db, NotWritten)
    else
      match Posted(db.ledger, Withdraw(id), DebitMoves(user, c, amount, chain.withdrawFee))
      case Ok(ledger) =>
        (db.(ledger := ledger,
             withdrawals := db.withdrawals[id := WithdrawalRow(user, c, Cast(amount), Cast(chain.withdrawFee))]),
         Broadcasting)
      case Err(Insufficient(_)) => (db, NotEnough)
      case Err(e) => (db, NotPosted(e))
  }

  class Service {
    const db: Database

    constructor (db: Database)
      ensures this.db == db
    {
      this.db := db;
    }

    /** An administrator's credit; replays are reported, not repeated. */
    method CreditUser(user: Id, c: Currency, amount: U64, bizId: string) returns (replayed: bool, status: Status)
      modifies db
      ensures db.View() == PostOnly(old(db.View()), Deposit(bizId), CreditMoves(user, c, amount))
      ensures replayed <==>
              Posted(old(db.Books()), Deposit(bizId), CreditMoves(user, c, amount)) == Ledger.Err(AlreadyProcessed)
      ensures !replayed ==>
                (status == Done <==> Posted(old(db.Books()), Deposit(bizId), CreditMoves(user, c, amount)).Ok?)
    {
      status := db.Post(Deposit(bizId), CreditMoves(user, c, amount));
      if status == Failed(AlreadyProcessed) {
        return true, Done;
      }
      replayed := false;
    }

    method HandleChainDeposit(chain: Chain, ref: DepositRef, user: Id, c: Currency, amount: U64, confirmations: int)
      returns (reply: DepositReply)
      modifies db
      ensures (db.View(), reply) == ChainDeposit(old(db.View()), chain, ref, user, c, amount, confirmations)
    {
      if amount == 0 {
        return InvalidAmount;
      }
      if amount < chain.minDeposit {
        return BelowMinimum;
      }
      if Cast(amount) <= 0 {
        return NotStored;
      }
      var row := if ref in db.deposits then db.deposits[ref].(confirmations := confirmations)
                 else DepositRow(user, c, Cast(amount), confirmations, false);
      db.deposits := db.deposits[ref := row];
      if row.credited {
        return Credited;
      }
      if row.confirmations < chain.confirmations {
        return Pending;
      }
      var accounts, journals, entries := db.accounts, db.journals, db.entries;
      var status := db.PostTx(Deposit(OnchainId(ref)), CreditMoves(user, c, amount));
      if status.Failed? && status.error != AlreadyProcessed {
        db.accounts, db.journals, db.entries := accounts, journals, entries;
        return NotCredited(status.error);
      }
      db.deposits := db.deposits[ref := row.(credited := true)];
      reply := Credited;
    }

    /** `id` is the identity drawn for the new row. */
    method HandleWithdraw(chain: Chain, id: Id, user: Id, c: Currency, amount: U64) returns (reply: WithdrawReply)
      modifies db
      ensures (db.View(), reply) == Withdrawn(old(db.View()), chain, id, user, c, amount)
    {
      if amount == 0 || amount < chain.minWithdraw {
        return Refused;
      }
      if Cast(amount) <= 0 || Cast(chain.withdrawFee) < 0 {
        return NotWritten;
      }
      var accounts, journals, entries, withdrawals := db.accounts, db.journals, db.entries, db.withdrawals;
      db.withdrawals := db.withdrawals[id := WithdrawalRow(user, c, Cast(amount), Cast(chain.withdrawFee))];
      var status := db.PostTx(Withdraw(id), DebitMoves(user, c, amount, chain.withdrawFee));
      if status.Failed? {
        db.accounts, db.journals, db.entries, db.withdrawals := accounts, journals, entries, withdrawals;
        return if status.error.Insufficient? then NotEnough else NotPosted(status.error);
      }
      reply := Broadcasting;
    }
  }

  // ---------- one journal key for each output ----------

  /** How a reference reads once its number is printed: a minus sign becomes part of the transaction id. */
  function Spelled(ref: DepositRef): DepositRef {
    if ref.1 < 0 then (ref.0 + "-", -ref.1) else ref
  }

  lemma SpelledAlike(ref: DepositRef)
    ensures OnchainId(ref) == OnchainId(Spelled(ref))
  {
    if ref.1 < 0 {
      var t, d := ref.0, Digits(-ref.1);
      hide Digits;
      assert "onchain-" + t + "-" + ("-" + d) == "onchain-" + (t + "-") + "-" + d;
    }
  }

  /** Two outputs share a journal key, so that only the first is ever credited, exactly when they are spelled
      alike; with numbers from zero up that means they are the same output. */
  lemma SameKeyIff(a: DepositRef, b: DepositRef)
    ensures OnchainId(a) == OnchainId(b) <==> Spelled(a) == Spelled(b)
  {
    SpelledAlike(a);
    SpelledAlike(b);
    if OnchainId(a) == OnchainId(b) {
      OnchainIdInjective(Spelled(a), Spelled(b));
    }
  }

  lemma OnchainIdInjective(a: DepositRef, b: DepositRef)
    requires a.1 >= 0 && b.1 >= 0 && OnchainId(a) == OnchainId(b)
    ensures a == b
  {
    NotShorter(a, b);
    NotShorter(b, a);
    Suffix(a);
    Suffix(b);
    hide Digits;
    ValueOfDigits(a.1);
    ValueOfDigits(b.1);
    assert a.1 == Value(Digits(a.1)) == b.1;
    Prefix(a);
    Prefix(b);
    hide OnchainId;
    var s := OnchainId(a);
    assert a.0 == s[8..|s| - |Digits(a.1)| - 1] == b.0;
  }

  lemma NotShorter(a: DepositRef, b: DepositRef)
    requires a.1 >= 0 && b.1 >= 0 && OnchainId(a) == OnchainId(b)
    ensures |Digits(a.1)| >= |Digits(b.1)|
  {
    DashBefore(a);
    Suffix(b);
    hide OnchainId, Digits;
  }

  lemma Prefix(a: DepositRef)
    requires a.1 >= 0
    ensures var s, d := OnchainId(a), Digits(a.1);
            9 + |d| <= |s| && s[8..|s| - |d| - 1] == a.0
  {
  }

  lemma DashBefore(a: DepositRef)
    requires a.1 >= 0
    ensures var s, d := OnchainId(a), Digits(a.1); |d| < |s| && s[|s| - |d| - 1] == '-'
  {
  }

  lemma Suffix(a: DepositRef)
    requires a.1 >= 0
    ensures var s, d := OnchainId(a), Digits(a.1);
            |d| <= |s| && s[|s| - |d|..] == d && forall k :: |s| - |d| <= k < |s| ==> s[k] != '-'
  {
  }

  /** A negative output number can take another output's key, whose credit is then swallowed. */
  lemma NegativeIndexCollides()
    ensures OnchainId(("a-", 1)) == OnchainId(("a", -1))
  {
  }
}
