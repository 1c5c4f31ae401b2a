/** Many records over one journal: wallets and pending compensation belong to users, so what
    one record posts is part of the balance every other record reads. */
module SharedAccounts {
  import opened Base
  import opened Journal
  import opened TerminationModel
  import opened TerminationInvariant
  import opened TerminationRuns

  predicate IsShared(a: Account) { a.WalletAvailable? || a.ProviderPending? }

  /** The shared accounts a record's own transactions can move. */
  function Parties(b: Book): set<Account> {
    if b.rental.None? then {}
    else
      var r := b.rental.value;
      {WalletAvailable(r.buyer), WalletAvailable(r.provider), ProviderPending(r.provider)}
  }

  /** Record `b` after another record went from `was` to `now`: only balances move. */
  function Shift(b: Book, was: Book, now: Book): Book {
    b.(foreign := map a | a in b.foreign.Keys + Parties(was) ::
      Foreign(b, a) + if a in Parties(was) then Balance(now, a) - Balance(was, a) else 0)
  }

  /** The records after one of them is replaced. */
  function Commit(books: map<string, Book>, id: string, now: Book): map<string, Book>
    requires id in books
  {
    map x | x in books :: if x == id then now else Shift(books[x], books[id], now)
  }

  /** All records read the same balance of every shared account. */
  ghost predicate Agree(books: map<string, Book>) {
    forall x, y, a :: x in books && y in books && IsShared(a) ==> Balance(books[x], a) == Balance(books[y], a)
  }

  /** The same record, up to what other records have posted. */
  predicate SameRecord(b: Book, d: Book) { d == b.(foreign := d.foreign) }

  /** A transaction moved no shared account but its parties'. */
  ghost predicate TouchesOnly(was: Book, now: Book) {
    forall a :: IsShared(a) && a !in Parties(was) ==> Balance(now, a) == Balance(was, a)
  }

  // ---------------------------------------------------------------- shifting

  lemma ShiftBalance(b: Book, was: Book, now: Book, a: Account)
    ensures Balance(Shift(b, was, now), a) ==
            Balance(b, a) + if a in Parties(was) then Balance(now, a) - Balance(was, a) else 0
  {
    hide Total;
  }

  /** Soundness reads foreign balances only through the record's own liability. */
  lemma SameRecordSound(b: Book, d: Book)
    requires Sound(b) && SameRecord(b, d) && LiabilityOk(d)
    ensures Sound(d)
  {
    hide Compensation, Total, SumOn, RentalOk, JournalOk, ClaimOk, AmountsOk, Linked, LiabilityOk, Stake, Settled,
        Picks, EntryOn;
  }

  lemma ShiftSound(b: Book, was: Book, now: Book)
    requires Sound(b)
    ensures Sound(Shift(b, was, now)) && SameRecord(b, Shift(b, was, now))
  {
    var d := Shift(b, was, now);
    ShiftIsSame(b, was, now);
    assert LiabilityOk(b);
    if b.rental.Some? && b.rental.value.period.Some? {
      ShiftBalance(b, was, now, Unfulfilled(b.rental.value.period.value.id));
    }
    hide Sound, Shift, Balance;
    assert LiabilityOk(d);
    SameRecordSound(b, d);
  }

  lemma ShiftIsSame(b: Book, was: Book, now: Book)
    ensures SameRecord(b, Shift(b, was, now))
  {
  }

  /** Replacing one record keeps all records reading the same balances. */
  lemma CommitKeepsAgree(books: map<string, Book>, id: string, now: Book)
    requires Agree(books) && id in books && TouchesOnly(books[id], now)
    ensures Agree(Commit(books, id, now))
  {
    var d := Commit(books, id, now);
    forall x, a | x in books && IsShared(a)
      ensures Balance(d[x], a) == Balance(books[x], a) + Balance(now, a) - Balance(books[id], a)
    {
      if x != id { ShiftBalance(books[x], books[id], now, a); }
    }
    hide Balance, Shift, Parties;
  }

  lemma CommitKeepsSound(books: map<string, Book>, id: string, now: Book)
    requires (forall x :: x in books ==> Sound(books[x])) && id in books && Sound(now)
    ensures forall x :: x in books ==> Sound(Commit(books, id, now)[x])
    ensures forall x :: x in books && x != id ==> SameRecord(books[x], Commit(books, id, now)[x])
  {
    hide Sound, Shift;
    forall x | x in books && x != id
      ensures Sound(Shift(books[x], books[id], now)) && SameRecord(books[x], Shift(books[x], books[id], now))
    {
      ShiftSound(books[x], books[id], now);
    }
  }

  // ---------------------------------------------------------------- what each transaction touches

  lemma MovedTouches(j: seq<Entry>, action: Action, from: Account, to: Account, units: int, a: Account)
    requires from != to && a != from && a != to
    ensures Total(j + Moved(action, from, to, units), Every, a) == Total(j, Every, a)
  {
    MovedTotal(j, action, from, to, units, Every, a);
  }

  /** Same foreign balances, and the journal sums of all but the parties' accounts. */
  lemma SumsSuffice(b: Book, n: Book)
    requires n.foreign == b.foreign
    requires forall a :: IsShared(a) && a !in Parties(b) ==> Total(n.journal, Every, a) == Total(b.journal, Every, a)
    ensures TouchesOnly(b, n)
  {
    hide Total, Parties;
  }

  lemma DecidedTouches(b: Book, t: Termination, who: Authority, award: int, wanted: Responsibility, at: int)
    requires b.rental.Some? && b.rental.value.buyer == t.frozen.buyer && b.rental.value.provider == t.frozen.provider
    ensures TouchesOnly(b, Decided(b, t, who, award, wanted, at))
  {
    var n := Decided(b, t, who, award, wanted, at);
    var cut := Stake(t) - award;
    var granted := if StillDisputed(who, t, award) then 0 else award;
    var wallet, pending, source := WalletAvailable(t.frozen.buyer), ProviderPending(t.frozen.provider),
        ReductionSource(t);
    var j1 := b.journal + Moved(ReturnDisputed(t.version), source, wallet, cut);
    hide Total, Moved, RefundPeriod, StillDisputed, Stake, DecidedResponse, DecidedResponsibility;
    forall a | IsShared(a) && a !in Parties(b) ensures Total(n.journal, Every, a) == Total(b.journal, Every, a) {
      if t.confirmed.None? {
      } else if t.compensation > 0 {
        MovedTouches(b.journal, ReturnCompensation(t.version), pending, wallet, cut, a);
      } else {
        MovedTouches(b.journal, ReturnDisputed(t.version), source, wallet, cut, a);
        MovedTouches(j1, Award, source, pending, granted, a);
      }
    }
    assert n.foreign == b.foreign;
    hide Decided;
    SumsSuffice(b, n);
  }

  lemma DecideTouches(b: Book, who: Authority, d: Decision, fin: Finance, at: int)
    requires Sound(b) && Decide(b, who, d, fin, at).Ok?
    ensures TouchesOnly(b, Decide(b, who, d, fin, at).value)
  {
    var t := b.term.value;
    assert b.rental.Some? && Linked(b.rental.value, t.frozen);
    hide Sound, DecisionRefusal, Decided, TouchesOnly;
    DecidedTouches(b, t, who, d.award.value, d.responsibility.value, at);
  }

  lemma CreditTouches(b: Book, canManage: bool, fin: Finance, at: int)
    requires Sound(b) && Credit(b, canManage, fin, at).Ok?
    ensures TouchesOnly(b, Credit(b, canManage, fin, at).value)
  {
    var n := Credit(b, canManage, fin, at).value;
    if n.journal != b.journal {
      var t := b.term.value;
      assert b.rental.Some? && Linked(b.rental.value, t.frozen);
      var pending, wallet := ProviderPending(t.frozen.provider), WalletAvailable(t.frozen.provider);
      var e := Transfer(ClientCompensation, AutomaticCredit, pending, wallet, t.compensation);
      assert n.journal == b.journal + [e];
      TransferSums(ClientCompensation, AutomaticCredit, pending, wallet, t.compensation);
      hide Sound, Total, SumOn, Evidence;
      forall a | IsShared(a) && a !in Parties(b) ensures Total(n.journal, Every, a) == Total(b.journal, Every, a) {
        TotalAppend(b.journal, e, Every, a);
      }
    }
  }

  lemma SettleTouches(b: Book, t: Termination, at: int)
    requires Sound(b) && b.term == Some(t)
    ensures TouchesOnly(b, SettleCleanup(b, t, at))
  {
    var n := SettleCleanup(b, t, at);
    assert b.rental.Some? && Linked(b.rental.value, t.frozen);
    hide Sound, Total, Moved, RefundPeriod;
    if t.frozen.contract.Some? && t.frozen.period.Some? {
      var s := PlannedSplit(t);
      var source := Unfulfilled(t.frozen.period.value);
      var j1 := b.journal + Moved(ReturnUnused(t.version), source, WalletAvailable(t.frozen.buyer), s.returned);
      forall a | IsShared(a) && a !in Parties(b) ensures Total(n.journal, Every, a) == Total(b.journal, Every, a) {
        MovedTouches(b.journal, ReturnUnused(t.version), source, WalletAvailable(t.frozen.buyer), s.returned, a);
        MovedTouches(j1, Award, source, ProviderPending(t.frozen.provider), s.compensation, a);
      }
    }
  }

  lemma AcceptTouches(b: Book, a: Acceptance, at: int)
    requires Accept(b, a, at).Ok?
    ensures TouchesOnly(b, Accept(b, a, at).value) && Parties(Accept(b, a, at).value) == Parties(b)
  {
    hide Total, Compensation, OpenTermination;
  }

  lemma CleanupTouches(b: Book, host: string, env: CleanupEnv, at: int)
    requires Sound(b) && CleanupConfirmed(b, host, env, at).Ok?
    ensures TouchesOnly(b, CleanupConfirmed(b, host, env, at).value)
  {
    var a := Acceptance(None, false, None, env.tail);
    AcceptSound(b, a, env.cutoff);
    var e := EnsureTermination(b, host, env);
    if b.term.None? && Accept(b, a, env.cutoff).Ok? { AcceptTouches(b, a, env.cutoff); }
    var b1 := e.value;
    assert Sound(b1) && TouchesOnly(b, b1) && Parties(b1) == Parties(b);
    hide Sound, Accept, EnsureTermination, SettleCleanup, CleanupRefusal, Balance, Parties;
    var n := CleanupConfirmed(b, host, env, at).value;
    if n != b1 {
      SettleTouches(b1, b1.term.value, at);
    }
  }
}
