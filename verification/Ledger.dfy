/**
 * Double-entry postings: balanced, idempotent, all or nothing.  Balances, journals and entries are
 * updated in place inside a transaction; the functions say what one posting does.
 */
module Ledger {
  import opened Protocol

  const I64_MAX := 0x7FFF_FFFF_FFFF_FFFF
  const I64_MIN := -0x8000_0000_0000_0000

  type I64 = x: int | -0x8000_0000_0000_0000 <= x <= 0x7FFF_FFFF_FFFF_FFFF

  /** Two's complement reading of an integer modulo 2^64. */
  function Signed(x: int): I64 {
    var r := x % U64_MODULUS;
    if r > I64_MAX then r - U64_MODULUS else r
  }

  lemma SignedSmall(x: int)
    requires I64_MIN <= x <= I64_MAX
    ensures Signed(x) == x
  {
  }

  datatype OwnerType = User | MarketMaker | System | Fee | Equity
  datatype Kind = Available | Frozen
  type Currency = string

  datatype Account = Account(ownerType: OwnerType, owner: Id, currency: Currency, kind: Kind)

  /** A signed change of one balance. */
  datatype Move = Move(account: Account, delta: I64)

  /** (biz_type, biz_id): one constructor per business type and id format. */
  datatype JournalKey =
    | OrderFreeze(orderId: Id)
    | OrderUnfreeze(orderId: Id)
    | TradeSettled(tradeId: nat)
    | Deposit(bizId: string)
    | Withdraw(withdrawalId: Id)

  datatype Entry = Entry(key: JournalKey, account: Account, debit: bool, amount: int, balanceAfter: int)

  datatype Tables = Tables(accounts: map<Account, int>, journals: set<JournalKey>, entries: seq<Entry>)

  const NO_ROWS := Tables(map[], {}, [])

  datatype LedgerError =
    | TooFewEntries
    | Unbalanced
    | AlreadyProcessed
    | Insufficient(account: Account)
    | OutOfRange(account: Account)
    | AmountNotPositive(account: Account)

  datatype Result<+T> = Ok(value: T) | Err(error: LedgerError)

  /** Asset accounts grow by debits, all others by credits. */
  predicate IsDebit(ownerType: OwnerType, delta: int) {
    if ownerType.System? then delta >= 0 else delta < 0
  }

  /** 64-bit absolute value: the smallest integer is its own. */
  function Abs(v: I64): I64 {
    if v < 0 then Signed(-(v as int)) else v
  }

  function AmountOn(m: Move, debit: bool, c: Currency): int {
    if m.account.currency == c && IsDebit(m.account.ownerType, m.delta) == debit then Abs(m.delta) else 0
  }

  /** Unbounded total of the debit (or credit) amounts in one currency. */
  function Volume(moves: seq<Move>, debit: bool, c: Currency): int {
    if moves == [] then 0
    else Volume(moves[..|moves| - 1], debit, c) + AmountOn(moves[|moves| - 1], debit, c)
  }

  /** What the 64-bit check compares: the wrapped totals, currency by currency. */
  ghost predicate CheckPasses(moves: seq<Move>) {
    forall c: Currency :: Signed(Volume(moves, true, c)) == Signed(Volume(moves, false, c))
  }

  function Balance(t: Tables, a: Account): int {
    if a in t.accounts then t.accounts[a] else 0
  }

  function PostMove(t: Tables, key: JournalKey, m: Move): Result<Tables> {
    var balance := Balance(t, m.account) + m.delta;
    if balance > I64_MAX || balance < I64_MIN then Err(OutOfRange(m.account))
    else if balance < 0 then Err(Insufficient(m.account))
    else if Abs(m.delta) <= 0 then Err(AmountNotPositive(m.account))
    else
      Ok(t.(accounts := t.accounts[m.account := balance],
            entries := t.entries
                       + [Entry(key, m.account, IsDebit(m.account.ownerType, m.delta), Abs(m.delta), balance)]))
  }

  function PostMoves(t: Tables, key: JournalKey, moves: seq<Move>): Result<Tables>
    decreases |moves|
  {
    if moves == [] then Ok(t)
    else
      match PostMove(t, key, moves[0])
      case Err(e) => Err(e)
      case Ok(t') => PostMoves(t', key, moves[1..])
  }

  ghost function Posted(t: Tables, key: JournalKey, moves: seq<Move>): Result<Tables> {
    if |moves| < 2 then Err(TooFewEntries)
    else if !CheckPasses(moves) then Err(Unbalanced)
    else if key in t.journals then Err(AlreadyProcessed)
    else PostMoves(t.(journals := t.journals + {key}), key, moves)
  }

  /** The state a transaction leaves behind: its result, or what was there before. */
  function Committed(t: Tables, r: Result<Tables>): Tables {
    if r.Ok? then r.value else t
  }

  method CheckBalanced(moves: seq<Move>) returns (ok: bool)
    ensures ok <==> CheckPasses(moves)
  {
    var tots: map<Currency, (I64, I64)> := map[];
    var i := 0;
    while i < |moves|
      invariant i <= |moves|
      invariant Tallied(tots, moves[..i])
    {
      TalliedStep(tots, moves, i);
      tots := AddMove(tots, moves[i]);
      i := i + 1;
    }
    assert moves[..i] == moves;
    ok := forall c | c in tots :: tots[c].0 == tots[c].1;
    if ok {
      forall c: Currency
        ensures Signed(Volume(moves, true, c)) == Signed(Volume(moves, false, c))
      {
        assert Tally(tots, c).0 == Tally(tots, c).1;
      }
    } else {
      var c :| c in tots && tots[c].0 != tots[c].1;
      assert Tally(tots, c) == tots[c];
    }
  }

  /** The running totals of each currency, as 64-bit accumulators. */
  ghost predicate Tallied(tots: map<Currency, (I64, I64)>, moves: seq<Move>) {
    forall c: Currency :: Tally(tots, c) == (Signed(Volume(moves, true, c)), Signed(Volume(moves, false, c)))
  }

  function AddMove(tots: map<Currency, (I64, I64)>, m: Move): map<Currency, (I64, I64)> {
    var t := Tally(tots, m.account.currency);
    var amount := Abs(m.delta) as int;
    tots[m.account.currency :=
      if IsDebit(m.account.ownerType, m.delta) then (Signed(t.0 as int + amount), t.1)
      else (t.0, Signed(t.1 as int + amount))]
  }

  lemma TalliedStep(tots: map<Currency, (I64, I64)>, moves: seq<Move>, i: nat)
    requires i < |moves| && Tallied(tots, moves[..i])
    ensures Tallied(AddMove(tots, moves[i]), moves[..i + 1])
  {
    hide Signed, Abs, Volume, AmountOn, IsDebit;
    forall c: Currency
      ensures Tally(AddMove(tots, moves[i]), c)
           == (Signed(Volume(moves[..i + 1], true, c)), Signed(Volume(moves[..i + 1], false, c)))
    {
      assert Tally(tots, c) == (Signed(Volume(moves[..i], true, c)), Signed(Volume(moves[..i], false, c)));
      VolumeNext(moves, i, true, c);
      VolumeNext(moves, i, false, c);
      TallyNext(tots, moves[i], c);
      SignedAdd(Volume(moves[..i], true, c), AmountOn(moves[i], true, c));
      SignedAdd(Volume(moves[..i], false, c), AmountOn(moves[i], false, c));
    }
  }

  lemma VolumeNext(moves: seq<Move>, i: nat, debit: bool, c: Currency)
    requires i < |moves|
    ensures Volume(moves[..i + 1], debit, c) == Volume(moves[..i], debit, c) + AmountOn(moves[i], debit, c)
  {
    assert moves[..i + 1][..i] == moves[..i];
  }

  lemma TallyNext(tots: map<Currency, (I64, I64)>, x: Move, c: Currency)
    ensures Tally(AddMove(tots, x), c)
         == (Signed(Tally(tots, c).0 as int + AmountOn(x, true, c)),
             Signed(Tally(tots, c).1 as int + AmountOn(x, false, c)))
  {
    SignedSmall(Tally(tots, c).0);
    SignedSmall(Tally(tots, c).1);
    hide Signed, Abs;
  }

  function Tally(tots: map<Currency, (I64, I64)>, c: Currency): (I64, I64) {
    if c in tots then tots[c] else (0, 0)
  }

  lemma SignedAdd(x: int, y: int)
    ensures Signed(Signed(x) + y) == Signed(x + y)
  {
  }
}
