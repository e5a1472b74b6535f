/**
 * The shared database: ledger tables, order rows, deposits and withdrawals.  A posting runs inside a
 * transaction; when it fails, the tables are put back as they were.
 */
module Database {
  import opened Protocol
  import opened Ledger

  /** `reserved` is what is left of the order's own freeze. */
  datatype OrderRow = OrderRow(user: Id, side: Side, price: Option<Px>, qty: Qty, reserved: int)

  datatype DepositRow = DepositRow(user: Id, currency: Currency, amount: int, confirmations: int, credited: bool)

  datatype WithdrawalRow = WithdrawalRow(user: Id, currency: Currency, amount: int, fee: int)

  /** (txid, output index): unique in the deposits table. */
  type DepositRef = (string, int)

  datatype Rows = Rows(ledger: Tables, orders: map<Id, OrderRow>,
                       deposits: map<DepositRef, DepositRow>, withdrawals: map<Id, WithdrawalRow>)

  datatype Status = Done | Failed(error: LedgerError)

  class Database {
    var accounts: map<Account, int>
    var journals: set<JournalKey>
    var entries: seq<Entry>
    var orders: map<Id, OrderRow>
    var deposits: map<DepositRef, DepositRow>
    var withdrawals: map<Id, WithdrawalRow>

    ghost function Books(): Tables
      reads this
    {
      Tables(accounts, journals, entries)
    }

    ghost function View(): Rows
      reads this
    {
      Rows(Books(), orders, deposits, withdrawals)
    }

    constructor ()
      ensures View() == Rows(NO_ROWS, map[], map[], map[])
    {
      accounts, journals, entries := map[], {}, [];
      orders, deposits, withdrawals := map[], map[], map[];
    }

    /** One balance change with its entry; on failure nothing more of it is written. */
    method Move(key: JournalKey, m: Ledger.Move) returns (status: Status)
      modifies this`accounts, this`entries
      ensures match PostMove(old(Books()), key, m)
              case Ok(t) => status == Done && Books() == t
              case Err(e) => status == Failed(e)
    {
      var balance := (if m.account in accounts then accounts[m.account] else 0) + m.delta;
      if balance > I64_MAX || balance < I64_MIN {
        return Failed(OutOfRange(m.account));
      }
      if balance < 0 {
        return Failed(Insufficient(m.account));
      }
      accounts := accounts[m.account := balance];
      var debit := IsDebit(m.account.ownerType, m.delta);
      var amount := Abs(m.delta);
      if amount <= 0 {
        return Failed(AmountNotPositive(m.account));
      }
      entries := entries + [Entry(key, m.account, debit, amount, balance)];
      status := Done;
    }

    /** PostTx: inside the caller's transaction, so a failure may leave partial writes to roll back. */
    method PostTx(key: JournalKey, moves: seq<Ledger.Move>) returns (status: Status)
      modifies this`accounts, this`journals, this`entries
      ensures match Posted(old(Books()), key, moves)
              case Ok(t) => status == Done && Books() == t
              case Err(e) => status == Failed(e) && (e.AlreadyProcessed? ==> Books() == old(Books()))
    {
      if |moves| < 2 {
        return Failed(TooFewEntries);
      }
      var balanced := CheckBalanced(moves);
      if !balanced {
        return Failed(Unbalanced);
      }
      if key in journals {
        return Failed(AlreadyProcessed);
      }
      journals := journals + {key};
      ghost var start := Books();
      var i := 0;
      while i < |moves|
        invariant i <= |moves|
        invariant PostMoves(start, key, moves) == PostMoves(Books(), key, moves[i..])
      {
        assert moves[i..][1..] == moves[i + 1..];
        status := Move(key, moves[i]);
        if status.Failed? {
          return;
        }
        i := i + 1;
      }
      status := Done;
    }

    /** A transaction of its own: commit on success, roll back on failure. */
    method Post(key: JournalKey, moves: seq<Ledger.Move>) returns (status: Status)
      modifies this`accounts, this`journals, this`entries
      ensures Books() == Committed(old(Books()), Posted(old(Books()), key, moves))
      ensures status == match Posted(old(Books()), key, moves) case Ok(_) => Done case Err(e) => Failed(e)
    {
      var accounts0, journals0, entries0 := accounts, journals, entries;
      status := PostTx(key, moves);
      if status.Failed? {
        accounts, journals, entries := accounts0, journals0, entries0;
      }
    }
  }
}
