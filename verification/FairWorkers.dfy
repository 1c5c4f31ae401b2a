/** The bounded background workers: a persisted scan cursor, a clamped batch, one
    savepoint per item. */
module FairWorkers {
  import opened Base
  import opened TextOrder
  import opened Journal
  import opened TerminationModel
  import opened TerminationInvariant
  import opened TerminationRuns
  import opened TerminationTheorems
  import opened TerminationAdmission
  import opened SharedAccounts

  /** `ORDER BY id LIMIT n` over the due ids past the cursor. */
  ghost predicate IsBatch(ids: seq<string>, due: set<string>, cursor: string, limit: nat) {
    && |ids| <= limit
    && (forall i, k :: 0 <= i < k < |ids| ==> Less(ids[i], ids[k]))
    && (forall i :: 0 <= i < |ids| ==> ids[i] in due && Less(cursor, ids[i]))
    && (forall u :: u in due && Less(cursor, u) && u !in ids ==>
          |ids| == limit && (|ids| > 0 ==> Less(ids[|ids| - 1], u)))
  }

  /** The cursor restarts from the beginning after an empty batch. */
  function NextCursor(ids: seq<string>): string { if |ids| == 0 then "" else ids[|ids| - 1] }

  function Clamp(limit: int): (n: nat)
    ensures 1 <= n <= 200
  {
    Max(1, Min(limit, 200))
  }

  // ---------------------------------------------------------------- fairness

  /** One pass of a worker: what was due, what it selected, and its batch limit. */
  datatype Round = Round(due: set<string>, batch: seq<string>, limit: nat)

  /** Consecutive rounds of one worker: what is due may change between them. */
  ghost predicate Rounds(rounds: seq<Round>, cursor: string)
    decreases |rounds|
  {
    |rounds| > 0 ==>
      && IsBatch(rounds[0].batch, rounds[0].due, cursor, rounds[0].limit)
      && Rounds(rounds[1..], NextCursor(rounds[0].batch))
  }

  ghost function Between(all: set<string>, lo: string, hi: string): set<string> {
    set u | u in all && Less(lo, u) && Less(u, hi)
  }
  ghost function Above(all: set<string>, lo: string): set<string> { set u | u in all && Less(lo, u) }
  ghost function Below(all: set<string>, hi: string): set<string> { set u | u in all && Less(u, hi) }

  /** Rounds that can still pass before `x` is reached. */
  ghost function Distance(all: set<string>, x: string, cursor: string): nat {
    if Less(cursor, x) then |Between(all, cursor, x)|
    else |Above(all, cursor)| + 1 + |Below(all, x)|
  }

  lemma DistanceBound(all: set<string>, x: string, cursor: string)
    requires x in all
    ensures Distance(all, x, cursor) <= |all|
  {
    LessIrreflexive(x);
    if Less(cursor, x) {
      SubsetSize(Between(all, cursor, x), all);
    } else {
      var up, down := Above(all, cursor), Below(all, x);
      forall u | u in up && u in down ensures false {
        LessTransitive(cursor, u, x);
      }
      SubsetSize(up + down, all - {x});
      assert |up + down| == |up| + |down|;
    }
  }

  /** A round that skips `x` brings the scan strictly closer to it. */
  lemma SkippingRoundAdvances(all: set<string>, x: string, cursor: string, r: Round)
    requires IsBatch(r.batch, r.due, cursor, r.limit) && 1 <= r.limit
    requires r.due <= all && x in r.due && x != "" && x !in r.batch
    ensures Distance(all, x, NextCursor(r.batch)) < Distance(all, x, cursor)
  {
    var next := NextCursor(r.batch);
    if Less(cursor, x) {
      assert Less(next, x) && next in r.batch;
      forall u | u in Between(all, next, x) ensures u in Between(all, cursor, x) {
        LessTransitive(cursor, next, u);
      }
      LessIrreflexive(next);
      assert next in Between(all, cursor, x) && next !in Between(all, next, x);
      SubsetSize(Between(all, next, x), Between(all, cursor, x));
    } else if |r.batch| == 0 {
      assert Less(next, x);
      SubsetSize(Between(all, next, x), Below(all, x));
    } else {
      assert next in r.batch && Less(cursor, next);
      if Less(next, x) { LessTransitive(cursor, next, x); }
      forall u | u in Above(all, next) ensures u in Above(all, cursor) {
        LessTransitive(cursor, next, u);
      }
      LessIrreflexive(next);
      assert next in Above(all, cursor) && next !in Above(all, next);
      SubsetSize(Above(all, next), Above(all, cursor));
    }
  }

  lemma {:induction false} ReachedWithinDistance(all: set<string>, x: string, cursor: string, rounds: seq<Round>)
    requires Rounds(rounds, cursor) && x != ""
    requires forall i :: 0 <= i < |rounds| ==> 1 <= rounds[i].limit && rounds[i].due <= all && x in rounds[i].due
    requires Distance(all, x, cursor) < |rounds|
    ensures exists i :: 0 <= i <= Distance(all, x, cursor) && x in rounds[i].batch
    decreases |rounds|
  {
    if x in rounds[0].batch {
    } else {
      var next := NextCursor(rounds[0].batch);
      SkippingRoundAdvances(all, x, cursor, rounds[0]);
      ReachedWithinDistance(all, x, next, rounds[1..]);
      var i :| 0 <= i <= Distance(all, x, next) && x in rounds[1..][i].batch;
      assert rounds[1..][i] == rounds[i + 1];
    }
  }

  /** Fairness: whatever else is due and however often other items fail, an id that stays
      due is attempted within |all ids| + 1 rounds of any batch limits. */
  lemma DueItemIsAttempted(all: set<string>, x: string, cursor: string, rounds: seq<Round>)
    requires Rounds(rounds, cursor) && x in all && x != ""
    requires forall i :: 0 <= i < |rounds| ==> 1 <= rounds[i].limit && rounds[i].due <= all && x in rounds[i].due
    requires |all| + 1 <= |rounds|
    ensures exists i :: 0 <= i < |all| + 1 && x in rounds[i].batch
  {
    DistanceBound(all, x, cursor);
    ReachedWithinDistance(all, x, cursor, rounds);
  }

  // ---------------------------------------------------------------- the log of one scan

  /** The rounds a persisted cursor has been through since it read `first`. */
  datatype Scan = Scan(first: string, rounds: seq<Round>)

  function CursorAfter(s: Scan): string {
    if |s.rounds| == 0 then s.first else NextCursor(s.rounds[|s.rounds| - 1].batch)
  }

  ghost predicate ScanOk(s: Scan, cursor: string) {
    && Rounds(s.rounds, s.first) && cursor == CursorAfter(s)
    && forall i :: 0 <= i < |s.rounds| ==> 1 <= s.rounds[i].limit
  }

  function Logged(s: Scan, r: Round): Scan { s.(rounds := s.rounds + [r]) }

  lemma {:induction false} RoundsAppend(rounds: seq<Round>, first: string, r: Round)
    requires Rounds(rounds, first) && IsBatch(r.batch, r.due, CursorAfter(Scan(first, rounds)), r.limit)
    ensures Rounds(rounds + [r], first)
    decreases |rounds|
  {
    hide IsBatch;
    if |rounds| == 0 {
      assert (rounds + [r])[1..] == [];
    } else {
      var next := NextCursor(rounds[0].batch);
      assert (rounds + [r])[1..] == rounds[1..] + [r];
      assert CursorAfter(Scan(next, rounds[1..])) == CursorAfter(Scan(first, rounds));
      RoundsAppend(rounds[1..], next, r);
    }
  }

  /** A pass over the batch its query selects extends the log. */
  lemma ScanStep(s: Scan, cursor: string, r: Round)
    requires ScanOk(s, cursor) && IsBatch(r.batch, r.due, cursor, r.limit) && 1 <= r.limit
    ensures ScanOk(Logged(s, r), NextCursor(r.batch))
  {
    RoundsAppend(s.rounds, s.first, r);
    hide IsBatch, Rounds;
  }

  lemma {:induction false} RoundsFrom(rounds: seq<Round>, first: string, n: nat)
    requires Rounds(rounds, first) && n <= |rounds|
    ensures Rounds(rounds[n..], CursorAfter(Scan(first, rounds[..n])))
    decreases n
  {
    hide IsBatch;
    if n == 0 {
      assert rounds[0..] == rounds;
    } else {
      RoundsFrom(rounds[1..], NextCursor(rounds[0].batch), n - 1);
      CursorAfterFirst(rounds, first, n);
      assert rounds[1..][n - 1..] == rounds[n..];
    }
  }

  lemma CursorAfterFirst(rounds: seq<Round>, first: string, n: nat)
    requires 0 < n <= |rounds|
    ensures CursorAfter(Scan(NextCursor(rounds[0].batch), rounds[1..][..n - 1])) ==
        CursorAfter(Scan(first, rounds[..n]))
  {
    if n > 1 { assert rounds[1..][..n - 1][n - 2] == rounds[..n][n - 1]; }
  }

  /** Fairness of a worker: in its own log, any stretch of |all ids| + 1 consecutive passes in
      which an id stays due attempts that id. */
  lemma LoggedItemIsAttempted(s: Scan, cursor: string, all: set<string>, x: string, n: nat)
    requires ScanOk(s, cursor) && x in all && x != "" && n + |all| + 1 <= |s.rounds|
    requires forall i :: n <= i < n + |all| + 1 ==> s.rounds[i].due <= all && x in s.rounds[i].due
    ensures exists i :: n <= i < n + |all| + 1 && x in s.rounds[i].batch
  {
    var k := n + |all| + 1;
    var stretch := s.rounds[n..];
    RoundsFrom(s.rounds, s.first, n);
    RoundsPrefix(stretch, CursorAfter(Scan(s.first, s.rounds[..n])), |all| + 1);
    var window := stretch[..|all| + 1];
    hide Rounds, IsBatch;
    assert forall i :: 0 <= i < |window| ==> window[i] == s.rounds[n + i];
    DueItemIsAttempted(all, x, CursorAfter(Scan(s.first, s.rounds[..n])), window);
    var i :| 0 <= i < |all| + 1 && x in window[i].batch;
    assert x in s.rounds[n + i].batch;
  }

  lemma {:induction false} RoundsPrefix(rounds: seq<Round>, cursor: string, n: nat)
    requires Rounds(rounds, cursor) && n <= |rounds|
    ensures Rounds(rounds[..n], cursor)
    decreases n
  {
    hide IsBatch;
    if n > 0 {
      RoundsPrefix(rounds[1..], NextCursor(rounds[0].batch), n - 1);
      assert rounds[..n][1..] == rounds[1..][..n - 1];
    }
  }

  // ---------------------------------------------------------------- the query

  method Least(ids: set<string>) returns (m: string)
    requires ids != {}
    ensures m in ids && forall u :: u in ids && u != m ==> Less(m, u)
  {
    m :| m in ids;
    var rest := ids - {m};
    while rest != {}
      invariant rest <= ids && m in ids && m !in rest
      invariant forall u :: u in ids && u !in rest && u != m ==> Less(m, u)
      decreases |rest|
    {
      var u :| u in rest;
      LessTotal(u, m);
      if Less(u, m) {
        forall w | w in ids && w !in rest && w != m ensures Less(u, w) { LessTransitive(u, m, w); }
        m := u;
      }
      rest := rest - {u};
    }
  }

  /** `WHERE id > cursor ORDER BY id LIMIT n` over the due ids. */
  method Select(due: set<string>, cursor: string, limit: nat) returns (ids: seq<string>)
    ensures IsBatch(ids, due, cursor, limit)
  {
    ids := [];
    var rest := set u | u in due && Less(cursor, u);
    while |ids| < limit && rest != {}
      invariant |ids| <= limit
      invariant forall i, k :: 0 <= i < k < |ids| ==> Less(ids[i], ids[k])
      invariant forall i :: 0 <= i < |ids| ==> ids[i] in due && Less(cursor, ids[i])
      invariant forall u :: u in due && Less(cursor, u) <==> u in rest || u in ids
      invariant forall i, u :: 0 <= i < |ids| && u in rest ==> Less(ids[i], u)
      decreases |rest|
    {
      var m := Least(rest);
      ids := ids + [m];
      rest := rest - {m};
    }
  }

  // ---------------------------------------------------------------- the workers

  /** Records the timeout worker selects. */
  predicate Expirable(b: Book, at: int) { b.term.Some? && Due(b.term.value, at) }

  function DueTimeouts(books: map<string, Book>, at: int): set<string> {
    set id | id in books && Expirable(books[id], at)
  }

  function DueCredits(books: map<string, Book>, at: int): set<string> {
    set id | id in books && CreditDue(books[id], at)
  }

  const RECOVERY_BATCH: nat := 50

  /** A released rental whose cleanup is proved by a receipt or a finished job, with the money
      not split yet. */
  predicate Recoverable(b: Book, released: bool, jobDone: bool) {
    && b.rental.Some? && released && (b.receipt.Some? || jobDone)
    && (b.term.None? || b.term.value.confirmed.None? || b.term.value.status == FinancePending)
  }

  function DueRecoveries(books: map<string, Book>, released: set<string>, jobsDone: set<string>): set<string> {
    set id | id in books && Recoverable(books[id], id in released, id in jobsDone)
  }

  /** A released rental whose verified cleanup has been recorded keeps its receipt through every
      later run, and the recovery query selects it exactly until its money has been split. */
  lemma RecordedIsSelected(b: Book, host: string, env: CleanupEnv, at: int, record: Book, ss: seq<Step>,
                           books: map<string, Book>, id: string, released: set<string>, jobsDone: set<string>)
    requires Sound(b) && b.rental.Some? && host == b.rental.value.host
    requires RecordCleanup(b, host, env, at) == Ok(record)
    requires id in books && books[id] == Run(record, ss) && id in released
    ensures books[id].receipt == (if b.receipt.Some? then b.receipt else Some(at))
    ensures id in DueRecoveries(books, released, jobsDone) <==>
              !(&& books[id].term.Some? && books[id].term.value.confirmed.Some?
                && books[id].term.value.status != FinancePending)
  {
    RecordingKeepsReceipt(b, host, env, at);
    RecordCleanupSound(b, host, env, at);
    hide Sound, RecordCleanup, Run;
    RunForward(record, ss);
  }

  /** The finance checks of a pass: records with unsafe scopes, and records whose payee's
      wallet has no room. */
  datatype Blocks = Blocks(unsafe: set<string>, full: set<string>)

  function FinanceOf(k: Blocks, id: string): Finance { Finance(id !in k.unsafe, id !in k.full) }

  /** What a worker does with each record; `barred` are records whose Provider may not be paid now. */
  datatype Work =
    | Waive(blocks: Blocks)
    | Pay(blocks: Blocks, barred: set<string>)
    | Confirm(envs: map<string, CleanupEnv>)

  function Attempt(w: Work, b: Book, id: string, at: int): Result<Book> {
    match w
    case Waive(k) => ExpireDispute(b, FinanceOf(k, id), at)
    case Pay(k, barred) => Credit(b, id !in barred, FinanceOf(k, id), at)
    case Confirm(envs) =>
      if b.rental.None? || id !in envs then Err(NotFound)
      else CleanupConfirmed(b, b.rental.value.host, envs[id], at)
  }

  /** A credit counts if it paid, the other work if it went through. */
  predicate Counts(w: Work, b: Book, r: Result<Book>) {
    r.Ok? && (w.Pay? ==> |r.value.journal| > |b.journal|)
  }

  /** One pass: each record in turn, in its own savepoint, on the balances the records before
      it left. */
  function Pass(books: map<string, Book>, ids: seq<string>, w: Work, at: int): (map<string, Book>, nat)
    decreases |ids|
  {
    if |ids| == 0 then (books, 0)
    else
      var p, id := Pass(books, ids[..|ids| - 1], w, at), ids[|ids| - 1];
      if id !in p.0 then p
      else (AfterAttempt(p.0, id, w, at), p.1 + if Counts(w, p.0[id], Attempt(w, p.0[id], id, at)) then 1 else 0)
  }

  /** `d` is record `b` after exactly one attempt, on some balances of the shared accounts. */
  ghost predicate AttemptedOnce(b: Book, d: Book, w: Work, id: string, at: int) {
    exists s :: SameRecord(b, s) && SameRecord(Keep(s, Attempt(w, s, id, at)), d)
  }

  lemma AttemptFacts(w: Work, b: Book, id: string, at: int)
    requires Sound(b) && Attempt(w, b, id, at).Ok?
    ensures Sound(Attempt(w, b, id, at).value) && TouchesOnly(b, Attempt(w, b, id, at).value)
  {
    hide Sound, TouchesOnly, Decide, Credit, CleanupConfirmed;
    match w
    case Waive(k) =>
      var d := Decision(b.term.value.version, Some(0), Some(NoFault), WORKER_NOTE);
      DecideSound(b, Timeout, d, FinanceOf(k, id), at);
      DecideTouches(b, Timeout, d, FinanceOf(k, id), at);
    case Pay(k, barred) =>
      CreditSound(b, id !in barred, FinanceOf(k, id), at);
      CreditTouches(b, id !in barred, FinanceOf(k, id), at);
    case Confirm(envs) =>
      CleanupConfirmedSound(b, b.rental.value.host, envs[id], at);
      CleanupTouches(b, b.rental.value.host, envs[id], at);
  }

  ghost predicate AllSound(books: map<string, Book>) { forall id :: id in books ==> Sound(books[id]) }

  ghost predicate Distinct(ids: seq<string>) { forall i :: 0 <= i < |ids| ==> ids[i] !in ids[..i] }

  /** How a pass leaves record `x`. */
  ghost predicate LeftAs(books: map<string, Book>, after: map<string, Book>, ids: seq<string>, w: Work, at: int,
      x: string) {
    && x in books && x in after
    && if x in ids then AttemptedOnce(books[x], after[x], w, x, at) else SameRecord(books[x], after[x])
  }

  /** The records after one attempt on `id`. */
  function AfterAttempt(p: map<string, Book>, id: string, w: Work, at: int): map<string, Book>
    requires id in p
  {
    var r := Attempt(w, p[id], id, at);
    if r.Ok? then Commit(p, id, r.value) else p
  }

  lemma AttemptKeepsAll(p: map<string, Book>, id: string, w: Work, at: int)
    requires AllSound(p) && Agree(p) && id in p
    ensures var after := AfterAttempt(p, id, w, at);
            && AllSound(after) && Agree(after) && after.Keys == p.Keys
            && after[id] == Keep(p[id], Attempt(w, p[id], id, at))
            && forall x :: x in p && x != id ==> SameRecord(p[x], after[x])
  {
    var r := Attempt(w, p[id], id, at);
    hide Attempt, Sound, Agree, TouchesOnly, Shift;
    if r.Ok? {
      AttemptFacts(w, p[id], id, at);
      CommitKeepsAgree(p, id, r.value);
      CommitKeepsSound(p, id, r.value);
    }
  }

  lemma AttemptLeaves(books: map<string, Book>, p: map<string, Book>, after: map<string, Book>, ids: seq<string>,
                      id: string, w: Work, at: int, x: string)
    requires LeftAs(books, p, ids, w, at, x) && id in p && id !in ids && x in after
    requires if x == id then after[x] == Keep(p[id], Attempt(w, p[id], id, at)) else SameRecord(p[x], after[x])
    ensures LeftAs(books, after, ids + [id], w, at, x)
  {
    hide Attempt;
    if x == id {
      assert SameRecord(books[id], p[id]) && SameRecord(Keep(p[id], Attempt(w, p[id], id, at)), after[id]);
    } else if x in ids {
      var s :| SameRecord(books[x], s) && SameRecord(Keep(s, Attempt(w, s, x, at)), p[x]);
      assert SameRecord(Keep(s, Attempt(w, s, x, at)), after[x]);
    }
  }

  /** One more record: the pass so far, then the attempt. */
  lemma PassStep(books: map<string, Book>, p: map<string, Book>, ids: seq<string>, id: string, w: Work, at: int)
    requires AllSound(p) && Agree(p) && p.Keys == books.Keys && id in books && id !in ids
    requires forall x :: x in books ==> LeftAs(books, p, ids, w, at, x)
    ensures var after := AfterAttempt(p, id, w, at);
            && AllSound(after) && Agree(after) && after.Keys == books.Keys
            && forall x :: x in books ==> LeftAs(books, after, ids + [id], w, at, x)
  {
    hide AllSound, Agree, AfterAttempt, LeftAs, SameRecord;
    AttemptKeepsAll(p, id, w, at);
    var after := AfterAttempt(p, id, w, at);
    forall x | x in books ensures LeftAs(books, after, ids + [id], w, at, x) {
      AttemptLeaves(books, p, after, ids, id, w, at, x);
    }
  }

  /** Isolation: after a pass every selected record has been attempted exactly once and every
      other record is the same, all records are sound, and all still read the same balances. */
  lemma {:induction false} PassIsolates(books: map<string, Book>, ids: seq<string>, w: Work, at: int)
    requires AllSound(books) && Agree(books) && Distinct(ids) && forall i :: 0 <= i < |ids| ==> ids[i] in books
    ensures var after := Pass(books, ids, w, at).0;
            && AllSound(after) && Agree(after) && after.Keys == books.Keys
            && forall x :: x in books ==> LeftAs(books, after, ids, w, at, x)
    decreases |ids|
  {
    hide AllSound, Agree, Attempt, AfterAttempt, AttemptedOnce;
    if |ids| > 0 {
      var n := |ids| - 1;
      hide LeftAs, SameRecord;
      DistinctInit(ids);
      PassIsolates(books, ids[..n], w, at);
      PassStep(books, Pass(books, ids[..n], w, at).0, ids[..n], ids[n], w, at);
    }
  }

  lemma DistinctInit(ids: seq<string>)
    requires Distinct(ids) && |ids| > 0
    ensures var n := |ids| - 1;
            Distinct(ids[..n]) && ids[n] !in ids[..n] && ids == ids[..n] + [ids[n]]
  {
    var n := |ids| - 1;
    assert forall i :: 0 <= i < n ==> ids[..n][..i] == ids[..i];
  }

  class Worker {
    var books: map<string, Book>
    var timeoutCursor: string
    var creditCursor: string
    var recoveryCursor: string
    ghost var timeouts: Scan
    ghost var credits: Scan
    ghost var recoveries: Scan

    /** Every record is sound, all records read the same balances, and every cursor stands
        where its own passes left it. */
    ghost predicate Valid()
      reads this
    {
      && AllSound(books) && Agree(books)
      && ScanOk(timeouts, timeoutCursor) && ScanOk(credits, creditCursor) && ScanOk(recoveries, recoveryCursor)
    }

    /** The loop of a pass. */
    method Process(ids: seq<string>, w: Work, at: int) returns (count: nat)
      requires forall i :: 0 <= i < |ids| ==> ids[i] in books
      modifies this`books
      ensures (books, count) == Pass(old(books), ids, w, at)
    {
      hide Attempt;
      count := 0;
      for i := 0 to |ids|
        invariant books.Keys == old(books).Keys
        invariant (books, count) == Pass(old(books), ids[..i], w, at)
      {
        var id := ids[i];
        assert ids[..i + 1][..i] == ids[..i] && ids[..i + 1][i] == id;
        var result := Attempt(w, books[id], id, at);
        if result.Ok? {
          if Counts(w, books[id], result) { count := count + 1; }
          books := Commit(books, id, result.value);
        }
      }
      assert ids[..|ids|] == ids;
    }

    /** `expire_disputes_isolated`: each selected record is waived or left as it was. */
    method ExpireDisputes(at: int, limit: int, k: Blocks) returns (count: nat)
      requires Valid()
      modifies this`books, this`timeoutCursor, this`timeouts
      ensures Valid() && |timeouts.rounds| > 0
      ensures var ids := timeouts.rounds[|timeouts.rounds| - 1].batch;
              && timeouts == Logged(old(timeouts), Round(DueTimeouts(old(books), at), ids, Clamp(limit)))
              && (books, count) == Pass(old(books), ids, Waive(k), at)
              && forall x :: x in old(books) ==> LeftAs(old(books), books, ids, Waive(k), at, x)
    {
      hide AllSound, Agree, Expirable, ScanOk, IsBatch, Pass, LeftAs;
      var due := DueTimeouts(books, at);
      var ids := Select(due, timeoutCursor, Clamp(limit));
      ScanStep(timeouts, timeoutCursor, Round(due, ids, Clamp(limit)));
      BatchFacts(ids, due, timeoutCursor, Clamp(limit));
      PassIsolates(books, ids, Waive(k), at);
      timeouts := Logged(timeouts, Round(due, ids, Clamp(limit)));
      timeoutCursor := NextCursor(ids);
      count := Process(ids, Waive(k), at);
    }

    /** `credit_due_isolated`: the count is of the records that were paid. */
    method CreditDueAwards(at: int, limit: int, k: Blocks, barred: set<string>) returns (count: nat)
      requires Valid()
      modifies this`books, this`creditCursor, this`credits
      ensures Valid() && |credits.rounds| > 0
      ensures var ids := credits.rounds[|credits.rounds| - 1].batch;
              && credits == Logged(old(credits), Round(DueCredits(old(books), at), ids, Clamp(limit)))
              && (books, count) == Pass(old(books), ids, Pay(k, barred), at)
              && forall x :: x in old(books) ==> LeftAs(old(books), books, ids, Pay(k, barred), at, x)
    {
      hide AllSound, Agree, CreditDue, ScanOk, IsBatch, Pass, LeftAs;
      var due := DueCredits(books, at);
      var ids := Select(due, creditCursor, Clamp(limit));
      ScanStep(credits, creditCursor, Round(due, ids, Clamp(limit)));
      BatchFacts(ids, due, creditCursor, Clamp(limit));
      PassIsolates(books, ids, Pay(k, barred), at);
      credits := Logged(credits, Round(due, ids, Clamp(limit)));
      creditCursor := NextCursor(ids);
      count := Process(ids, Pay(k, barred), at);
    }

    /** `recover_cleanup_isolated`: the split is finalized from durable evidence of cleanup; a
        record whose finances are still blocked is left as it was. */
    method RecoverCleanups(at: int, envs: map<string, CleanupEnv>, released: set<string>, jobsDone: set<string>)
      returns (count: nat)
      requires Valid()
      modifies this`books, this`recoveryCursor, this`recoveries
      ensures Valid() && |recoveries.rounds| > 0
      ensures var ids := recoveries.rounds[|recoveries.rounds| - 1].batch;
              && recoveries == Logged(old(recoveries),
                  Round(DueRecoveries(old(books), released, jobsDone), ids, 50))
              && (books, count) == Pass(old(books), ids, Confirm(envs), at)
              && forall x :: x in old(books) ==> LeftAs(old(books), books, ids, Confirm(envs), at, x)
    {
      hide AllSound, Agree, Recoverable, ScanOk, IsBatch, Pass, LeftAs;
      var due := DueRecoveries(books, released, jobsDone);
      var ids := Select(due, recoveryCursor, RECOVERY_BATCH);
      ScanStep(recoveries, recoveryCursor, Round(due, ids, RECOVERY_BATCH));
      BatchFacts(ids, due, recoveryCursor, RECOVERY_BATCH);
      PassIsolates(books, ids, Confirm(envs), at);
      recoveries := Logged(recoveries, Round(due, ids, RECOVERY_BATCH));
      recoveryCursor := NextCursor(ids);
      count := Process(ids, Confirm(envs), at);
    }
  }

  /** A batch names due records, each once. */
  lemma BatchFacts(ids: seq<string>, due: set<string>, cursor: string, limit: nat)
    requires IsBatch(ids, due, cursor, limit)
    ensures Distinct(ids) && forall i :: 0 <= i < |ids| ==> ids[i] in due
  {
    forall i | 0 <= i < |ids| ensures ids[i] !in ids[..i] {
      LessIrreflexive(ids[i]);
    }
  }

  /** A waived claim leaves the queue for good, and a due claim with sound finances is
      never refused: one attempt waives it. */
  lemma ExpiryConsumesDueClaim(b: Book, at: int)
    requires Sound(b) && Expirable(b, at) && b.term.value.status != FinancePending
    requires Settled(b.term.value) && b.term.value.compensation > 0 ==>
               Covers(b, ProviderPending(b.term.value.frozen.provider), b.term.value.compensation)
    ensures var r := ExpireDispute(b, Finance(true, true), at);
            r.Ok? && !Expirable(r.value, at) && Stake(r.value.term.value) == 0
  {
    hide Compensation, Total, SumOn, JournalOk, TermsEvidence;
  }

  // ---------------------------------------------------------------- the items in columns

  /** The timeout worker selects exactly the claims left unanswered for three days. */
  lemma TimeoutSelection(books: map<string, Book>, at: int, id: string)
    requires id in books && Sound(books[id])
    ensures id in DueTimeouts(books, at) <==> books[id].term.Some? && Overdue(books[id].term.value, at)
  {
    if books[id].term.Some? {
      ClaimHasDeadline(books[id]);
    }
    hide Sound;
  }

  /** The credit worker selects exactly the undisputed awards that are seven days old and have
      something left to pay. */
  lemma CreditSelection(books: map<string, Book>, at: int, id: string)
    requires id in books && Sound(books[id])
    ensures id in DueCredits(books, at) <==>
              && books[id].award.Some?
              && var c := books[id].award.value;
              at >= c.awardedAt + 604_800_000 && !c.disputed && c.amount - c.reversed > c.credited
  {
    var b := books[id];
    assert b.award.Some? ==> b.term.Some?;
    if b.term.Some? {
      AwardColumns(b);
    }
    hide Sound;
  }

  /** The timeout worker's item: an overdue claim is waived exactly when its money is not waiting
      for finance, its scopes are safe and, once money has been split, the refund can be paid;
      then nothing stays at stake and nobody is responsible. */
  lemma OverdueIsWaivedIff(b: Book, k: Blocks, id: string, at: int)
    requires Sound(b) && b.term.Some? && Overdue(b.term.value, at)
    ensures var t := b.term.value;
            Attempt(Waive(k), b, id, at).Ok? <==>
              && t.status != FinancePending && id !in k.unsafe
              && (t.confirmed.Some? ==>
                    && id !in k.full
                    && (t.compensation > 0 ==> Balance(b, ProviderPending(t.frozen.provider)) <= -t.compensation))
    ensures Attempt(Waive(k), b, id, at).Ok? ==>
              var u := Attempt(Waive(k), b, id, at).value.term.value;
              Stake(u) == 0 && u.claim.responsibility == NoFault
  {
    var t := b.term.value;
    var d := Decision(t.version, Some(0), Some(NoFault), WORKER_NOTE);
    var fin := FinanceOf(k, id);
    StakeMeans(b);
    OpenClaimHasStake(b);
    OverdueFacts(b);
    DecisionIff(b, Timeout, d, fin, at);
    assert Attempt(Waive(k), b, id, at) == Decide(b, Timeout, d, fin, at);
    if Decide(b, Timeout, d, fin, at).Ok? {
      DecisionLeaves(b, Timeout, d, fin, at);
      DecisionSetsStake(b, Timeout, d, fin, at);
    }
    hide Sound, Decide, Attempt, Stake, Balance;
  }

  lemma OverdueFacts(b: Book)
    requires Sound(b) && b.term.Some? && b.term.value.claim.responsibility == Undetermined
    ensures var t := b.term.value;
            && (b.award.Some? ==> b.award.value.credited == 0)
            && (t.confirmed.Some? && t.status != FinancePending ==> t.status == Disputed)
            && (t.confirmed.Some? && t.status != FinancePending && t.compensation > 0 ==>
                  t.frozen.remaining - t.returned == t.compensation)
  {
    hide Total, SumOn, JournalOk, Places, LiabilityOk, RentalOk, Compensation, PeriodEvidence, TermsEvidence;
  }

  /** The credit worker's item: an award is paid exactly when it is due, its Provider is not
      barred, its scopes are safe, the pending account covers it and the wallet has room. */
  lemma DueAwardIsPaidIff(b: Book, k: Blocks, barred: set<string>, id: string, at: int)
    requires Sound(b) && b.term.Some?
    ensures Counts(Pay(k, barred), b, Attempt(Pay(k, barred), b, id, at)) <==>
              && b.award.Some?
              && var c := b.award.value;
              && at >= c.awardedAt + 604_800_000 && !c.disputed && c.amount > c.reversed && c.credited == 0
              && id !in barred && id !in k.unsafe && id !in k.full
              && Balance(b, ProviderPending(b.term.value.frozen.provider)) <= -(c.amount - c.reversed)
  {
    CreditPaysIff(b, id !in barred, FinanceOf(k, id), at);
    CreditGrows(b, id !in barred, FinanceOf(k, id), at);
    hide Sound, Credit, Balance;
  }

  lemma CreditGrows(b: Book, canManage: bool, fin: Finance, at: int)
    ensures var r := Credit(b, canManage, fin, at);
            r.Ok? ==> (|r.value.journal| > |b.journal| <==> r.value != b)
  {
    hide Evidence, Covers, KeyUsed, Transfer;
  }
}
