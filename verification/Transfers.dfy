/**
 * What deposits and withdrawals do to the ledger: exactly when each posting goes through, what it changes, and
 * where 64-bit arithmetic lets a withdrawal through that it should not.
 */
module Transfers {
  import opened Protocol
  import opened Ledger
  import opened LedgerSound
  import opened Database
  import opened Clearing
  import opened Accounting
  import opened Settlement
  import opened Exchange
  import opened WalletService

  // ---------- deposits ----------

  lemma CreditBalanced(user: Id, c: Currency, amount: U64)
    requires 0 < amount <= I64_MAX
    ensures TrulyBalanced(CreditMoves(user, c, amount)) && CheckPasses(CreditMoves(user, c, amount))
  {
    var ms := CreditMoves(user, c, amount);
    SignedSmall(amount);
    forall d: Currency
      ensures Volume(ms, true, d) == Volume(ms, false, d)
    {
      Volume2(ms[0], ms[1], true, d);
      Volume2(ms[0], ms[1], false, d);
    }
    BalancedPasses(ms);
  }

  /** A credit under a new key that the hot wallet's column can take goes through. */
  lemma CreditPosts(t: Tables, key: JournalKey, user: Id, c: Currency, amount: U64)
    requires Sound(t) && OneWallet(t) && key !in t.journals && 0 < amount
    requires Balance(t, Accounting.Wallet(c)) + amount <= I64_MAX
    ensures var r := Posted(t, key, CreditMoves(user, c, amount));
            && r.Ok? && Sound(r.value) && OneWallet(r.value) && r.value.journals == t.journals + {key}
            && forall a: Account ::
                 Balance(r.value, a) == Balance(t, a)
                   + if a == UserAccount(user, c, Available) || a == Accounting.Wallet(c) then amount else 0
  {
    ClaimsBounded(t, UserAccount(user, c, Available), FeeAccount(c));
    CreditBalanced(user, c, amount);
    SignedSmall(amount);
    var ms := CreditMoves(user, c, amount);
    AbsSign(ms[0].delta);
    hide Sound, OneWallet, TrulyBalanced, CheckPasses, Abs, Signed;
    GoodPosting(t, key, ms);
    forall a: Account
      ensures DeltaOn(ms, a) == OneDelta(ms[0], a) + OneDelta(ms[1], a)
    {
      Delta2(ms[0], ms[1], a);
    }
  }

  /** A first credit goes through iff the hot wallet's balance stays in range, and then gives exactly the
      amount; any later credit of the same output, whatever amount it names, changes no balance. */
  lemma CreditExact(db: Rows, ref: DepositRef, user: Id, c: Currency, amount: U64)
    requires Sound(db.ledger) && OneWallet(db.ledger) && ref in db.deposits && 0 < amount <= I64_MAX
    ensures var (db', status) := CreditOutput(db, ref, user, c, amount);
            if Deposit(OnchainId(ref)) in db.ledger.journals then status == Done && db'.ledger == db.ledger
            else
              && (status == Done <==> Balance(db.ledger, Accounting.Wallet(c)) + amount <= I64_MAX)
              && (status != Done ==> db' == db)
              && (status == Done ==>
                    && db'.ledger.journals == db.ledger.journals + {Deposit(OnchainId(ref))}
                    && forall a: Account ::
                         Balance(db'.ledger, a) == Balance(db.ledger, a)
                           + if a == UserAccount(user, c, Available) || a == Accounting.Wallet(c) then amount else 0)
  {
    var t, key, ms := db.ledger, Deposit(OnchainId(ref)), CreditMoves(user, c, amount);
    CreditBalanced(user, c, amount);
    SignedSmall(amount);
    ClaimsBounded(t, UserAccount(user, c, Available), FeeAccount(c));
    if key !in t.journals && Balance(t, Accounting.Wallet(c)) + amount <= I64_MAX {
      hide Sound, OneWallet, TrulyBalanced, CheckPasses, Abs, Signed, OnchainId, CreditMoves;
      CreditPosts(t, key, user, c, amount);
    }
  }

  // ---------- withdrawals ----------

  lemma DebitMovesPlain(user: Id, c: Currency, amount: U64, fee: U64)
    requires 0 < amount && amount as int + fee <= I64_MAX
    ensures DebitMoves(user, c, amount, fee)
         == [Move(UserAccount(user, c, Available), -(amount as int + fee)),
             Move(Accounting.Wallet(c), -(amount as int)), Move(FeeAccount(c), fee)]
  {
    SignedSmall(amount as int + fee);
    SignedSmall(amount);
    SignedSmall(fee);
    SignedSmall(-(amount as int + fee));
    SignedSmall(-(amount as int));
  }

  lemma DebitVolume(user: Id, c: Currency, amount: U64, fee: U64, debit: bool, d: Currency)
    requires 0 < amount && amount as int + fee <= I64_MAX
    ensures Volume(DebitMoves(user, c, amount, fee), debit, d) == if d == c then amount as int + fee else 0
  {
    var ms := DebitMoves(user, c, amount, fee);
    DebitMovesPlain(user, c, amount, fee);
    SignedSmall(amount as int + fee);
    SignedSmall(amount);
    Volume3(ms[0], ms[1], ms[2], debit, d);
  }

  lemma DebitBalanced(user: Id, c: Currency, amount: U64, fee: U64)
    requires 0 < amount && amount as int + fee <= I64_MAX
    ensures TrulyBalanced(DebitMoves(user, c, amount, fee)) && CheckPasses(DebitMoves(user, c, amount, fee))
  {
    forall d: Currency
      ensures Volume(DebitMoves(user, c, amount, fee), true, d) == Volume(DebitMoves(user, c, amount, fee), false, d)
    {
      DebitVolume(user, c, amount, fee, true, d);
      DebitVolume(user, c, amount, fee, false, d);
    }
    BalancedPasses(DebitMoves(user, c, amount, fee));
  }

  /** A user who has the money can withdraw it: the hot wallet never stands in the way.  The posting goes
      through iff the available balance covers amount and fee, and the fee is not zero. */
  lemma WithdrawalExact(t: Tables, id: Id, user: Id, c: Currency, amount: U64, fee: U64)
    requires Sound(t) && OneWallet(t) && Withdraw(id) !in t.journals
    requires 0 < amount && amount as int + fee <= I64_MAX
    ensures var r := Posted(t, Withdraw(id), DebitMoves(user, c, amount, fee));
            && (r.Ok? <==> amount as int + fee <= Balance(t, UserAccount(user, c, Available)) && 0 < fee)
            && (amount as int + fee > Balance(t, UserAccount(user, c, Available)) ==>
                  r == Ledger.Err(Insufficient(UserAccount(user, c, Available))))
            && r != Ledger.Err(Insufficient(Accounting.Wallet(c)))
            && (r.Ok? ==>
                  forall a: Account :: Balance(r.value, a) == Balance(t, a) + Withdrawal(user, c, amount, fee, a))
  {
    var ms := DebitMoves(user, c, amount, fee);
    DebitMovesPlain(user, c, amount, fee);
    DebitBalanced(user, c, amount, fee);
    ClaimsBounded(t, UserAccount(user, c, Available), FeeAccount(c));
    if amount as int + fee <= Balance(t, UserAccount(user, c, Available)) {
      AbsSign(ms[0].delta);
      AbsSign(ms[1].delta);
      AbsSign(ms[2].delta);
      hide Sound, OneWallet, Posted, TrulyBalanced, CheckPasses, Abs, DebitMoves;
      GoodPosting(t, Withdraw(id), ms);
      forall a: Account
        ensures DeltaOn(ms, a) == Withdrawal(user, c, amount, fee, a)
      {
        Delta3(ms[0], ms[1], ms[2], a);
      }
    }
  }

  /** The change of every balance: the user pays both, the wallet gives the amount, the exchange keeps the fee. */
  function Withdrawal(user: Id, c: Currency, amount: U64, fee: U64, a: Account): int {
    if a == UserAccount(user, c, Available) then -(amount as int + fee)
    else if a == Accounting.Wallet(c) then -(amount as int)
    else if a == FeeAccount(c) then fee
    else 0
  }

  lemma Delta3(x: Move, y: Move, z: Move, a: Account)
    ensures DeltaOn([x, y, z], a) == OneDelta(x, a) + OneDelta(y, a) + OneDelta(z, a)
  {
    assert [x, y, z][1..] == [y, z];
    Delta2(y, z, a);
  }

  /** Where amount and fee leave the signed 64-bit range the negated total wraps into a credit: an accepted
      withdrawal keeps the books sound exactly when their sum fits. */
  lemma WithdrawalSoundIff(t: Tables, id: Id, user: Id, c: Currency, amount: U64, fee: U64)
    requires Sound(t) && 0 < amount <= I64_MAX && fee <= I64_MAX
    requires Posted(t, Withdraw(id), DebitMoves(user, c, amount, fee)).Ok?
    ensures Sound(Posted(t, Withdraw(id), DebitMoves(user, c, amount, fee)).value) <==> amount as int + fee <= I64_MAX
  {
    var ms := DebitMoves(user, c, amount, fee);
    PostingSoundIff(t, Withdraw(id), ms);
    if amount as int + fee <= I64_MAX {
      DebitBalanced(user, c, amount, fee);
    } else {
      hide Posted, Sound;
      WrappedVolume(user, c, amount, fee);
      assert Volume(ms, true, c) != Volume(ms, false, c);
    }
  }

  lemma WrappedTotal(x: int)
    requires I64_MAX < x <= 2 * I64_MAX
    ensures Negated(Cast(x)) == if x == I64_MAX + 1 then I64_MIN else U64_MODULUS - x
    ensures Abs(I64_MIN) == I64_MIN
  {
  }

  lemma WrappedVolume(user: Id, c: Currency, amount: U64, fee: U64)
    requires 0 < amount <= I64_MAX && fee <= I64_MAX && amount as int + fee > I64_MAX
    ensures Volume(DebitMoves(user, c, amount, fee), true, c) <= 0 < Volume(DebitMoves(user, c, amount, fee), false, c)
  {
    WrappedTotal(amount as int + fee);
    SignedSmall(amount);
    SignedSmall(fee);
    SignedSmall(-(amount as int));
    hide Signed, Volume;
    var ms := DebitMoves(user, c, amount, fee);
    Volume3(ms[0], ms[1], ms[2], true, c);
    Volume3(ms[0], ms[1], ms[2], false, c);
  }

  /** Such a withdrawal exists: it is accepted and pays its user the whole wallet. */
  lemma WrappedWithdrawalPays()
    ensures var c := "USDT";
            var t := Committed(NO_ROWS, Posted(NO_ROWS, Deposit("d"), CreditMoves(2, c, I64_MAX)));
            var r := Posted(t, Withdraw(1), DebitMoves(1, c, I64_MAX, 2));
            && Sound(t) && Balance(t, UserAccount(1, c, Available)) == 0
            && r.Ok? && Balance(r.value, UserAccount(1, c, Available)) == I64_MAX && !Sound(r.value)
  {
    var c := "USDT";
    var user, wallet, fee := UserAccount(1, c, Available), Accounting.Wallet(c), FeeAccount(c);
    OneDeposit(c);
    hide Sound, Posted;
    var t := Committed(NO_ROWS, Posted(NO_ROWS, Deposit("d"), CreditMoves(2, c, I64_MAX)));
    var ms := [Move(user, I64_MAX), Move(wallet, -I64_MAX), Move(fee, 2)];
    assert DebitMoves(1, c, I64_MAX, 2) == ms;
    WrappedPosting(t, ms, user, wallet, fee);
    WithdrawalSoundIff(t, 1, 1, c, I64_MAX, 2);
  }

  lemma OneDeposit(c: Currency)
    ensures var r := Posted(NO_ROWS, Deposit("d"), CreditMoves(2, c, I64_MAX));
            && r.Ok? && Sound(r.value) && Withdraw(1) !in r.value.journals
            && Balance(r.value, UserAccount(1, c, Available)) == 0 && Balance(r.value, FeeAccount(c)) == 0
            && Balance(r.value, Accounting.Wallet(c)) == I64_MAX
  {
    var first := CreditMoves(2, c, I64_MAX);
    CreditBalanced(2, c, I64_MAX);
    EmptySound();
    SignedSmall(I64_MAX);
    AbsSign(I64_MAX);
    hide Sound, Posted, TrulyBalanced, CheckPasses;
    GoodPosting(NO_ROWS, Deposit("d"), first);
    Delta2(first[0], first[1], UserAccount(1, c, Available));
    Delta2(first[0], first[1], Accounting.Wallet(c));
    Delta2(first[0], first[1], FeeAccount(c));
  }

  lemma WrappedPosting(t: Tables, ms: seq<Move>, user: Account, wallet: Account, fee: Account)
    requires ms == [Move(user, I64_MAX), Move(wallet, -I64_MAX), Move(fee, 2)]
    requires !user.ownerType.System? && wallet.ownerType.System? && !fee.ownerType.System? && user != fee
    requires user.currency == wallet.currency == fee.currency && Withdraw(1) !in t.journals
    requires Balance(t, user) == 0 && Balance(t, fee) == 0 && Balance(t, wallet) == I64_MAX
    ensures var r := Posted(t, Withdraw(1), ms); r.Ok? && Balance(r.value, user) == I64_MAX
  {
    forall d: Currency
      ensures Signed(Volume(ms, true, d)) == Signed(Volume(ms, false, d))
    {
      Volume3(ms[0], ms[1], ms[2], true, d);
      Volume3(ms[0], ms[1], ms[2], false, d);
    }
    var t0 := t.(journals := t.journals + {Withdraw(1)});
    assert ms[1..] == [ms[1], ms[2]] && ms[1..][1..] == [ms[2]];
    var t1 := PostMove(t0, Withdraw(1), ms[0]).value;
    var t2 := PostMove(t1, Withdraw(1), ms[1]).value;
    var t3 := PostMove(t2, Withdraw(1), ms[2]).value;
    assert [ms[2]][1..] == [];
    assert PostMoves(t2, Withdraw(1), [ms[2]]) == Ledger.Ok(t3);
    assert PostMoves(t1, Withdraw(1), [ms[1], ms[2]]) == Ledger.Ok(t3);
  }

  // ---------- whole requests ----------

  /** The one case in which a report of an output is credited. */
  ghost predicate Due(db: Rows, chain: Chain, ref: DepositRef, c: Currency, amount: U64, confirmations: int) {
    && 0 < amount <= I64_MAX && chain.minDeposit <= amount && chain.confirmations <= confirmations
    && !(ref in db.deposits && db.deposits[ref].credited)
    && Deposit(OnchainId(ref)) !in db.ledger.journals
    && Balance(db.ledger, Accounting.Wallet(c)) + amount <= I64_MAX
  }

  /** A report of an on-chain output moves money exactly when the output is due, and then exactly its amount. */
  lemma DepositExact(db: Rows, chain: Chain, ref: DepositRef, user: Id, c: Currency, amount: U64, confirmations: int)
    requires Sound(db.ledger) && OneWallet(db.ledger)
    ensures var (db', reply) := ChainDeposit(db, chain, ref, user, c, amount, confirmations);
            && (db'.ledger != db.ledger <==> Due(db, chain, ref, c, amount, confirmations))
            && (Due(db, chain, ref, c, amount, confirmations) ==>
                  && reply == Credited
                  && db'.ledger.journals == db.ledger.journals + {Deposit(OnchainId(ref))}
                  && forall a: Account ::
                       Balance(db'.ledger, a) == Balance(db.ledger, a)
                         + if a == UserAccount(user, c, Available) || a == Accounting.Wallet(c) then amount else 0)
  {
    hide Sound, OneWallet, CreditOutput, OnchainId;
    CastPositive(amount);
    if 0 < amount <= I64_MAX {
      var seen := Reported(db, ref, user, c, amount, confirmations);
      CreditExact(seen, ref, user, c, amount);
    }
  }

  lemma CastPositive(x: U64)
    ensures 0 < Cast(x) <==> 0 < x <= I64_MAX
    ensures 0 <= Cast(x) <==> x <= I64_MAX
  {
  }

  /** What the reporter is told: refusals by amount alone, pending below the required confirmations, credited or not
      from there on. */
  lemma DepositReplies(db: Rows, chain: Chain, ref: DepositRef, user: Id, c: Currency, amount: U64, confirmations: int)
    requires Sound(db.ledger) && OneWallet(db.ledger)
    ensures var reply := ChainDeposit(db, chain, ref, user, c, amount, confirmations).1;
            var before := ref in db.deposits && db.deposits[ref].credited;
            && (reply == InvalidAmount <==> amount == 0)
            && (reply == BelowMinimum <==> 0 < amount < chain.minDeposit)
            && (reply == NotStored <==> chain.minDeposit <= amount && I64_MAX < amount)
            && (reply == Pending <==>
                  0 < amount <= I64_MAX && chain.minDeposit <= amount && !before && confirmations < chain.confirmations)
            && (reply == Credited <==>
                  && 0 < amount <= I64_MAX && chain.minDeposit <= amount
                  && (before || (chain.confirmations <= confirmations
                                 && (Deposit(OnchainId(ref)) in db.ledger.journals
                                     || Due(db, chain, ref, c, amount, confirmations)))))
  {
    hide Sound, OneWallet, CreditOutput, OnchainId;
    CastPositive(amount);
    if 0 < amount <= I64_MAX {
      CreditExact(Reported(db, ref, user, c, amount, confirmations), ref, user, c, amount);
    }
  }

  /** The row keeps who and how much from the first report, takes the latest confirmations, and is marked exactly when
      the reporter is told that it is credited. */
  lemma DepositRowKept(db: Rows, chain: Chain, ref: DepositRef, user: Id, c: Currency, amount: U64, confirmations: int)
    ensures var (db', reply) := ChainDeposit(db, chain, ref, user, c, amount, confirmations);
            if reply.InvalidAmount? || reply.BelowMinimum? || reply.NotStored? then db' == db
            else
              && db'.deposits.Keys == db.deposits.Keys + {ref}
              && (forall x | x in db.deposits && x != ref :: db'.deposits[x] == db.deposits[x])
              && db'.orders == db.orders && db'.withdrawals == db.withdrawals
              && var row := db'.deposits[ref];
              && row.confirmations == confirmations && (row.credited <==> reply.Credited?)
              && if ref in db.deposits then
                   (row.user, row.currency, row.amount)
                   == (db.deposits[ref].user, db.deposits[ref].currency, db.deposits[ref].amount)
                 else (row.user, row.currency, row.amount) == (user, c, amount)
  {
    hide Cast, CreditOutput;
    CastPositive(amount);
    CastIs(amount);
    CreditMarks(Reported(db, ref, user, c, amount, confirmations), ref, user, c, amount);
  }

  lemma CreditMarks(db: Rows, ref: DepositRef, user: Id, c: Currency, amount: U64)
    requires ref in db.deposits
    ensures var (db', status) := CreditOutput(db, ref, user, c, amount);
            && db' == db.(ledger := db'.ledger, deposits := db'.deposits)
            && db'.deposits
               == if status.Done? then db.deposits[ref := db.deposits[ref].(credited := true)] else db.deposits
  {
    hide Posted, CreditMoves, OnchainId;
  }

  lemma CastIs(x: U64)
    ensures x <= I64_MAX ==> Cast(x) == x
  {
  }

  /** A withdrawal request under a new number: every reply, and exactly what an accepted one writes. */
  lemma WithdrawalReplies(db: Rows, chain: Chain, id: Id, user: Id, c: Currency, amount: U64)
    requires Sound(db.ledger) && OneWallet(db.ledger) && Withdraw(id) !in db.ledger.journals
    ensures var (db', reply) := Withdrawn(db, chain, id, user, c, amount);
            var refused := amount == 0 || amount < chain.minWithdraw;
            var total := amount as int + chain.withdrawFee;
            var available := Balance(db.ledger, UserAccount(user, c, Available));
            && (reply == Refused <==> refused)
            && (reply == NotWritten <==> !refused && (amount > I64_MAX || chain.withdrawFee > I64_MAX))
            && (!refused && total <= I64_MAX ==>
                  && (reply == Broadcasting <==> total <= available && 0 < chain.withdrawFee)
                  && (reply == NotEnough <==> available < total))
            && (reply != Broadcasting ==> db' == db)
            && (reply == Broadcasting ==>
                  db' == db.(ledger := db'.ledger,
                             withdrawals := db.withdrawals[id := WithdrawalRow(user, c, amount, chain.withdrawFee)]))
  {
    hide Sound, OneWallet, Posted, DebitMoves;
    CastPositive(amount);
    CastPositive(chain.withdrawFee);
    if amount <= I64_MAX {
      SignedSmall(amount);
    }
    if chain.withdrawFee <= I64_MAX {
      SignedSmall(chain.withdrawFee);
    }
    if 0 < amount && amount as int + chain.withdrawFee <= I64_MAX {
      WithdrawalExact(db.ledger, id, user, c, amount, chain.withdrawFee);
      if amount as int + chain.withdrawFee <= Balance(db.ledger, UserAccount(user, c, Available)) {
        EnoughIsNotRefused(db.ledger, id, user, c, amount, chain.withdrawFee);
      }
    }
    hide Cast;
  }

  /** With enough available, the only other thing that can be wrong is an empty fee. */
  lemma EnoughIsNotRefused(t: Tables, id: Id, user: Id, c: Currency, amount: U64, fee: U64)
    requires Sound(t) && OneWallet(t) && Withdraw(id) !in t.journals
    requires 0 < amount && amount as int + fee <= I64_MAX
    requires amount as int + fee <= Balance(t, UserAccount(user, c, Available))
    ensures match Posted(t, Withdraw(id), DebitMoves(user, c, amount, fee))
            case Ok(_) => true
            case Err(e) => e.AmountNotPositive?
  {
    var ms := DebitMoves(user, c, amount, fee);
    DebitMovesPlain(user, c, amount, fee);
    DebitBalanced(user, c, amount, fee);
    ClaimsBounded(t, UserAccount(user, c, Available), FeeAccount(c));
    hide Sound, OneWallet, Posted, TrulyBalanced, CheckPasses, Abs, DebitMoves;
    GoodPosting(t, Withdraw(id), ms);
  }
}
