/**
 * Soundness of the books over any sequence of postings: balances derive from entries, stay non-negative,
 * assets equal claims, and every journal key takes effect at most once.
 */
module LedgerSound {
  import opened Protocol
  import opened Sums
  import opened Ledger

  /** The balance an account's entries add up to. */
  function Derived(entries: seq<Entry>, a: Account): int {
    if entries == [] then 0
    else
      var e := entries[|entries| - 1];
      Derived(entries[..|entries| - 1], a)
      + if e.account != a then 0 else if e.debit == a.ownerType.System? then e.amount else -e.amount
  }

  ghost function IsAsset(c: Currency): Account -> bool {
    (a: Account) => a.ownerType.System? && a.currency == c
  }

  ghost function IsClaim(c: Currency): Account -> bool {
    (a: Account) => !a.ownerType.System? && a.currency == c
  }

  ghost function Assets(t: Tables, c: Currency): int {
    SumWhere(t.accounts, IsAsset(c))
  }

  ghost function Claims(t: Tables, c: Currency): int {
    SumWhere(t.accounts, IsClaim(c))
  }

  ghost predicate InRange(t: Tables) {
    forall a | a in t.accounts :: 0 <= t.accounts[a] <= I64_MAX
  }

  /** Each entry records what its account's entries add up to with it. */
  ghost predicate Running(entries: seq<Entry>) {
    forall k :: 0 <= k < |entries| ==> entries[k].balanceAfter == Derived(entries[..k + 1], entries[k].account)
  }

  ghost predicate FromEntries(t: Tables) {
    && (forall a: Account :: Balance(t, a) == Derived(t.entries, a))
    && Running(t.entries)
    && (forall e | e in t.entries :: e.key in t.journals && e.amount > 0)
  }

  ghost predicate InBalance(t: Tables) {
    forall c: Currency :: Assets(t, c) == Claims(t, c)
  }

  ghost predicate Sound(t: Tables) {
    InRange(t) && FromEntries(t) && InBalance(t)
  }

  // ---------- one move ----------

  lemma MoveKeeps(t: Tables, key: JournalKey, m: Move)
    requires InRange(t) && FromEntries(t) && key in t.journals && PostMove(t, key, m).Ok?
    ensures var t' := PostMove(t, key, m).value;
            InRange(t') && FromEntries(t') && t'.journals == t.journals
  {
    hide Derived, Running;
    var t' := PostMove(t, key, m).value;
    var e := t'.entries[|t.entries|];
    SmallAbs(m.delta);
    forall a: Account
      ensures Balance(t', a) == Derived(t'.entries, a)
    {
      assert Balance(t, a) == Derived(t.entries, a);
      DerivedMore(t.entries, e, a);
    }
    RunningMore(t.entries, e);
    hide Abs;
  }

  lemma DerivedMore(entries: seq<Entry>, e: Entry, a: Account)
    ensures Derived(entries + [e], a)
         == Derived(entries, a)
            + if e.account != a then 0 else if e.debit == a.ownerType.System? then e.amount else -e.amount
  {
    assert (entries + [e])[..|entries|] == entries;
  }

  lemma RunningMore(entries: seq<Entry>, e: Entry)
    requires Running(entries) && e.balanceAfter == Derived(entries + [e], e.account)
    ensures Running(entries + [e])
  {
    var es := entries + [e];
    forall k | 0 <= k < |es|
      ensures es[k].balanceAfter == Derived(es[..k + 1], es[k].account)
    {
      if k < |entries| {
        assert es[..k + 1] == entries[..k + 1];
      } else {
        assert es[..k + 1] == es;
      }
    }
  }

  /** So the last entry of an account shows its balance. */
  lemma LastEntryShowsBalance(t: Tables, k: nat)
    requires Sound(t) && k < |t.entries|
    requires forall i :: k < i < |t.entries| ==> t.entries[i].account != t.entries[k].account
    ensures t.entries[k].balanceAfter == Balance(t, t.entries[k].account)
  {
    var a := t.entries[k].account;
    DerivedStays(t.entries, k + 1, a);
    assert Balance(t, a) == Derived(t.entries, a);
  }

  lemma {:induction false} DerivedStays(entries: seq<Entry>, n: nat, a: Account)
    requires n <= |entries| && forall i :: n <= i < |entries| ==> entries[i].account != a
    ensures Derived(entries[..n], a) == Derived(entries, a)
  {
    if n == |entries| {
      assert entries[..n] == entries;
    } else {
      assert entries[..|entries| - 1][..n] == entries[..n];
      DerivedStays(entries[..|entries| - 1], n, a);
    }
  }

  lemma SmallAbs(v: I64)
    requires Abs(v) > 0
    ensures Abs(v) == if v < 0 then -v else v
  {
  }

  lemma MoveShifts(t: Tables, key: JournalKey, m: Move, c: Currency)
    requires PostMove(t, key, m).Ok?
    ensures var t' := PostMove(t, key, m).value;
            Assets(t', c) - Claims(t', c)
            == Assets(t, c) - Claims(t, c) + AmountOn(m, true, c) - AmountOn(m, false, c)
  {
    SmallAbs(m.delta);
    var balance := Balance(t, m.account) + m.delta;
    SumWherePut(t.accounts, IsAsset(c), m.account, balance);
    SumWherePut(t.accounts, IsClaim(c), m.account, balance);
  }

  // ---------- one posting ----------

  lemma {:induction false} VolumeCons(m: Move, moves: seq<Move>, debit: bool, c: Currency)
    ensures Volume([m] + moves, debit, c) == AmountOn(m, debit, c) + Volume(moves, debit, c)
  {
    if moves == [] {
      assert [m] + moves == [m] && [m][..0] == [];
    } else {
      VolumeCons(m, moves[..|moves| - 1], debit, c);
      assert ([m] + moves)[..|moves|] == [m] + moves[..|moves| - 1];
    }
  }

  lemma {:induction false} MovesKeep(t: Tables, key: JournalKey, moves: seq<Move>)
    requires InRange(t) && FromEntries(t) && key in t.journals && PostMoves(t, key, moves).Ok?
    ensures var t' := PostMoves(t, key, moves).value;
            InRange(t') && FromEntries(t') && t'.journals == t.journals
    decreases |moves|
  {
    if moves != [] {
      MoveKeeps(t, key, moves[0]);
      MovesKeep(PostMove(t, key, moves[0]).value, key, moves[1..]);
    }
  }

  lemma {:induction false} MovesShift(t: Tables, key: JournalKey, moves: seq<Move>, c: Currency)
    requires PostMoves(t, key, moves).Ok?
    ensures var t' := PostMoves(t, key, moves).value;
            Assets(t', c) - Claims(t', c)
            == Assets(t, c) - Claims(t, c) + Volume(moves, true, c) - Volume(moves, false, c)
    decreases |moves|
  {
    if moves != [] {
      MoveShifts(t, key, moves[0], c);
      MovesShift(PostMove(t, key, moves[0]).value, key, moves[1..], c);
      assert moves == [moves[0]] + moves[1..];
      VolumeCons(moves[0], moves[1..], true, c);
      VolumeCons(moves[0], moves[1..], false, c);
    }
  }

  /** Debits equal credits in every currency, in unbounded arithmetic. */
  ghost predicate TrulyBalanced(moves: seq<Move>) {
    forall c: Currency :: Volume(moves, true, c) == Volume(moves, false, c)
  }

  /** Exactness: an accepted posting keeps assets equal to claims iff its unbounded totals agree. */
  lemma PostingSoundIff(t: Tables, key: JournalKey, moves: seq<Move>)
    requires Sound(t) && Posted(t, key, moves).Ok?
    ensures var t' := Posted(t, key, moves).value;
            && InRange(t') && FromEntries(t') && t'.journals == t.journals + {key}
            && (Sound(t') <==> TrulyBalanced(moves))
  {
    var t0 := t.(journals := t.journals + {key});
    MovesKeep(t0, key, moves);
    var t' := PostMoves(t0, key, moves).value;
    forall c: Currency
      ensures Assets(t', c) - Claims(t', c) == Volume(moves, true, c) - Volume(moves, false, c)
    {
      MovesShift(t0, key, moves, c);
      assert Assets(t, c) == Claims(t, c);
    }
    if Sound(t') {
      forall c: Currency
        ensures Volume(moves, true, c) == Volume(moves, false, c)
      {
        assert Assets(t', c) == Claims(t', c);
      }
    }
    if TrulyBalanced(moves) {
      forall c: Currency
        ensures Assets(t', c) == Claims(t', c)
      {
        assert Volume(moves, true, c) == Volume(moves, false, c);
      }
    }
  }

  /** What an accepted posting writes: one entry for each move, in order, under its key, with the move's account, the
      size of its change, and the direction in which such an account grows or shrinks. */
  lemma PostedEntries(t: Tables, key: JournalKey, moves: seq<Move>, i: nat)
    requires Posted(t, key, moves).Ok? && i < |moves|
    ensures var es := Posted(t, key, moves).value.entries;
            && |es| == |t.entries| + |moves| && es[..|t.entries|] == t.entries
            && var e, m := es[|t.entries| + i], moves[i];
            && e.key == key && e.account == m.account
            && e.amount == (if m.delta < 0 then -(m.delta as int) else m.delta)
            && (e.debit <==> (m.account.ownerType == System <==> m.delta > 0))
  {
    MovesEntries(t.(journals := t.journals + {key}), key, moves, i);
  }

  lemma {:induction false} MovesEntries(t: Tables, key: JournalKey, moves: seq<Move>, i: nat)
    requires PostMoves(t, key, moves).Ok? && i < |moves|
    ensures var es := PostMoves(t, key, moves).value.entries;
            && |es| == |t.entries| + |moves| && es[..|t.entries|] == t.entries
            && var e, m := es[|t.entries| + i], moves[i];
            && e.key == key && e.account == m.account
            && e.amount == (if m.delta < 0 then -(m.delta as int) else m.delta)
            && (e.debit <==> (m.account.ownerType == System <==> m.delta > 0))
    decreases |moves|
  {
    var t1 := PostMove(t, key, moves[0]).value;
    SmallAbs(moves[0].delta);
    assert t1.entries[..|t.entries|] == t.entries;
    hide Abs;
    if |moves| > 1 {
      MovesEntries(t1, key, moves[1..], if i == 0 then 0 else i - 1);
      var es := PostMoves(t1, key, moves[1..]).value.entries;
      assert es[..|t.entries|] == es[..|t1.entries|][..|t.entries|];
      assert es[|t.entries|] == es[..|t1.entries|][|t.entries|];
    }
  }

  /** Why a move is refused: too little, too much, or nothing to write. */
  lemma MoveRefusals(t: Tables, key: JournalKey, m: Move)
    ensures var after := Balance(t, m.account) + m.delta;
            var r := PostMove(t, key, m);
            && (r == Ledger.Err(Insufficient(m.account)) <==> I64_MIN <= after < 0)
            && (r == Ledger.Err(OutOfRange(m.account)) <==> !(I64_MIN <= after <= I64_MAX))
            && (r == Ledger.Err(AmountNotPositive(m.account)) <==>
                  0 <= after <= I64_MAX && (m.delta == 0 || m.delta == I64_MIN))
            && (r.Ok? <==> 0 <= after <= I64_MAX && m.delta != 0 && m.delta != I64_MIN)
  {
  }

  /** Debits and credits of the currency agree modulo 2^64. */
  ghost predicate Agree(moves: seq<Move>, c: Currency) {
    (Volume(moves, true, c) - Volume(moves, false, c)) % U64_MODULUS == 0
  }

  /** Why a posting is refused before any move: fewer than two entries, totals that disagree, a used key. */
  lemma PostingRefusals(t: Tables, key: JournalKey, moves: seq<Move>)
    ensures var r := Posted(t, key, moves);
            var agree := forall c: Currency :: Agree(moves, c);
            && (r == Ledger.Err(TooFewEntries) <==> |moves| < 2)
            && (r == Ledger.Err(Unbalanced) <==> |moves| >= 2 && !agree)
            && (r == Ledger.Err(AlreadyProcessed) <==> |moves| >= 2 && agree && key in t.journals)
  {
    NeverRepeated(t.(journals := t.journals + {key}), key, moves);
    CheckIs(moves);
    hide CheckPasses, Agree, PostMoves;
  }

  lemma PostedKeys(t: Tables, key: JournalKey, moves: seq<Move>)
    ensures Posted(t, key, moves).Ok? ==> key !in t.journals && key in Posted(t, key, moves).value.journals
    ensures Posted(t, key, moves) == Ledger.Err(AlreadyProcessed) ==> key in t.journals
  {
    var t0 := t.(journals := t.journals + {key});
    NeverRepeated(t0, key, moves);
    if PostMoves(t0, key, moves).Ok? {
      JournalGrows(t0, key, moves);
    }
    hide CheckPasses, PostMoves;
  }

  lemma CheckIs(moves: seq<Move>)
    ensures CheckPasses(moves) <==> forall c: Currency :: Agree(moves, c)
  {
    hide Signed;
    forall c: Currency
      ensures Signed(Volume(moves, true, c)) == Signed(Volume(moves, false, c)) <==> Agree(moves, c)
    {
      SignedSame(Volume(moves, true, c), Volume(moves, false, c));
    }
  }

  lemma SignedSame(x: int, y: int)
    ensures Signed(x) == Signed(y) <==> (x - y) % U64_MODULUS == 0
  {
  }

  lemma {:induction false} NeverRepeated(t: Tables, key: JournalKey, moves: seq<Move>)
    ensures match PostMoves(t, key, moves)
            case Ok(_) => true
            case Err(e) => !e.AlreadyProcessed? && !e.TooFewEntries? && !e.Unbalanced?
    decreases |moves|
  {
    if moves != [] && PostMove(t, key, moves[0]).Ok? {
      NeverRepeated(PostMove(t, key, moves[0]).value, key, moves[1..]);
    }
  }

  /** How many moves of the posting debit (or credit) the currency. */
  function Count(moves: seq<Move>, debit: bool, c: Currency): nat {
    if moves == [] then 0
    else
      var m := moves[|moves| - 1];
      Count(moves[..|moves| - 1], debit, c)
      + if m.account.currency == c && IsDebit(m.account.ownerType, m.delta) == debit then 1 else 0
  }

  /** At most two debits and two credits in every currency: true of every posting in the system. */
  ghost predicate Narrow(moves: seq<Move>) {
    forall c: Currency :: Count(moves, true, c) <= 2 && Count(moves, false, c) <= 2
  }

  lemma {:induction false} VolumeBound(moves: seq<Move>, debit: bool, c: Currency)
    requires forall m | m in moves :: Abs(m.delta) > 0
    ensures 0 <= Volume(moves, debit, c) <= Count(moves, debit, c) * I64_MAX
  {
    if moves != [] {
      var front := moves[..|moves| - 1];
      assert moves == front + [moves[|moves| - 1]];
      VolumeBound(front, debit, c);
    }
  }

  lemma {:induction false} PostedAmounts(t: Tables, key: JournalKey, moves: seq<Move>)
    requires PostMoves(t, key, moves).Ok?
    ensures forall m | m in moves :: Abs(m.delta) > 0
    decreases |moves|
  {
    if moves != [] {
      PostedAmounts(PostMove(t, key, moves[0]).value, key, moves[1..]);
      assert moves == [moves[0]] + moves[1..];
    }
  }

  lemma SignedEqual(x: nat, y: nat)
    requires Signed(x) == Signed(y) && x < U64_MODULUS && y < U64_MODULUS
    ensures x == y
  {
  }

  /** With at most two amounts a side the 64-bit check cannot be fooled by wrap-around. */
  lemma NarrowPostingKeeps(t: Tables, key: JournalKey, moves: seq<Move>)
    requires Sound(t) && Narrow(moves)
    ensures Sound(Committed(t, Posted(t, key, moves)))
  {
    if Posted(t, key, moves).Ok? {
      PostedAmounts(t.(journals := t.journals + {key}), key, moves);
      forall c: Currency
        ensures Volume(moves, true, c) == Volume(moves, false, c)
      {
        VolumeBound(moves, true, c);
        VolumeBound(moves, false, c);
        SignedEqual(Volume(moves, true, c), Volume(moves, false, c));
      }
      PostingSoundIff(t, key, moves);
    }
  }

  /** Three credits are enough to fool it: they wrap to zero and money appears without an asset. */
  lemma ThreeCreditsWrap(x: Account, y: Account, z: Account)
    requires x == Account(User, 1, "USDT", Available) && y == x.(owner := 2) && z == x.(owner := 3)
    ensures var moves :=
              [Move(x, 0x5555_5555_5555_5555), Move(y, 0x5555_5555_5555_5555), Move(z, 0x5555_5555_5555_5556)];
            && !Narrow(moves) && Posted(NO_ROWS, Deposit("d"), moves).Ok?
            && !Sound(Posted(NO_ROWS, Deposit("d"), moves).value)
  {
    var a := Move(x, 0x5555_5555_5555_5555);
    var b := Move(y, 0x5555_5555_5555_5555);
    var d := Move(z, 0x5555_5555_5555_5556);
    var moves := [a, b, d];
    forall c: Currency
      ensures Volume(moves, true, c) == 0
      ensures Volume(moves, false, c) == if c == "USDT" then U64_MODULUS else 0
    {
      Volume3(a, b, d, true, c);
      Volume3(a, b, d, false, c);
    }
    assert !Narrow(moves) by {
      assert moves[..2] == [a, b] && [a, b][..1] == [a] && [a][..0] == [];
      assert Count([a], false, "USDT") == 1;
      assert Count([a, b], false, "USDT") == 2;
      assert Count(moves, false, "USDT") == 3;
    }
    assert CheckPasses(moves);
    var t0 := NO_ROWS.(journals := NO_ROWS.journals + {Deposit("d")});
    var t1 := PostMove(t0, Deposit("d"), a).value;
    var t2 := PostMove(t1, Deposit("d"), b).value;
    assert moves[1..] == [b, d] && [b, d][1..] == [d] && [d][1..] == [];
    assert PostMoves(t2, Deposit("d"), [d]).Ok?;
    assert PostMoves(t1, Deposit("d"), [b, d]).Ok?;
    assert PostMoves(t0, Deposit("d"), moves) == PostMoves(t1, Deposit("d"), [b, d]);
    EmptySound();
    PostingSoundIff(NO_ROWS, Deposit("d"), moves);
    assert Volume(moves, true, "USDT") != Volume(moves, false, "USDT");
  }

  lemma Volume3(a: Move, b: Move, d: Move, debit: bool, c: Currency)
    ensures Volume([a, b, d], debit, c) == AmountOn(a, debit, c) + AmountOn(b, debit, c) + AmountOn(d, debit, c)
  {
    assert [a, b, d][..2] == [a, b] && [a, b][..1] == [a] && [a][..0] == [];
    assert Volume([a], debit, c) == AmountOn(a, debit, c);
    assert Volume([a, b], debit, c) == Volume([a], debit, c) + AmountOn(b, debit, c);
  }

  lemma EmptySound()
    ensures Sound(NO_ROWS)
  {
  }

  // ---------- sequences of postings ----------

  datatype Posting = Posting(key: JournalKey, moves: seq<Move>)

  ghost function RunPosts(t: Tables, ps: seq<Posting>): Tables {
    if ps == [] then t
    else
      var t' := RunPosts(t, ps[..|ps| - 1]);
      var p := ps[|ps| - 1];
      Committed(t', Posted(t', p.key, p.moves))
  }

  /** Any run of narrow postings, failed and repeated ones included, leaves the books sound. */
  lemma {:induction false} RunSound(t: Tables, ps: seq<Posting>)
    requires Sound(t) && forall p | p in ps :: Narrow(p.moves)
    ensures Sound(RunPosts(t, ps)) && t.journals <= RunPosts(t, ps).journals
  {
    if ps != [] {
      var front := ps[..|ps| - 1];
      var p := ps[|ps| - 1];
      assert ps == front + [p];
      RunSound(t, front);
      var t' := RunPosts(t, front);
      NarrowPostingKeeps(t', p.key, p.moves);
      if Posted(t', p.key, p.moves).Ok? {
        PostingSoundIff(t', p.key, p.moves);
      }
    }
  }

  lemma {:induction false} JournalsStay(t: Tables, ps: seq<Posting>, key: JournalKey, n: nat)
    requires n <= |ps| && key in RunPosts(t, ps[..n]).journals
    ensures key in RunPosts(t, ps).journals
  {
    if n < |ps| {
      var front := ps[..|ps| - 1];
      assert front[..n] == ps[..n];
      JournalsStay(t, front, key, n);
      var t' := RunPosts(t, front);
      var p := ps[|ps| - 1];
      if Posted(t', p.key, p.moves).Ok? {
        JournalGrows(t'.(journals := t'.journals + {p.key}), p.key, p.moves);
      }
    } else {
      assert ps[..n] == ps;
    }
  }

  lemma {:induction false} JournalGrows(t: Tables, key: JournalKey, moves: seq<Move>)
    requires PostMoves(t, key, moves).Ok?
    ensures PostMoves(t, key, moves).value.journals == t.journals
    decreases |moves|
  {
    if moves != [] {
      JournalGrows(PostMove(t, key, moves[0]).value, key, moves[1..]);
    }
  }

  /** A key that took effect once never does again, whatever moves come with it. */
  lemma AtMostOnce(t: Tables, ps: seq<Posting>, i: nat, moves: seq<Move>)
    requires i < |ps| && Posted(RunPosts(t, ps[..i]), ps[i].key, ps[i].moves).Ok?
    ensures !Posted(RunPosts(t, ps), ps[i].key, moves).Ok?
    ensures Committed(RunPosts(t, ps), Posted(RunPosts(t, ps), ps[i].key, moves)) == RunPosts(t, ps)
  {
    var before := RunPosts(t, ps[..i]);
    JournalGrows(before.(journals := before.journals + {ps[i].key}), ps[i].key, ps[i].moves);
    assert ps[..i + 1][..i] == ps[..i];
    JournalsStay(t, ps, ps[i].key, i + 1);
  }
}
