/** Whole runs of the termination ledger: any interleaving of every step, with any
    arguments, and what no run can do. */
module TerminationRuns {
  import opened Base
  import opened Journal
  import opened TerminationModel
  import opened TerminationInvariant

  datatype Step =
    | DoAccept(a: Acceptance, at: int)
    | DoRecordCleanup(host: string, env: CleanupEnv, at: int)
    | DoRecover(host: string, env: CleanupEnv, at: int)
    | DoMarkFailed
    | DoRestart
    | DoDecide(who: Authority, d: Decision, fin: Finance, at: int)
    | DoWithdraw(user: string, version: int, fin: Finance, at: int)
    | DoExpire(fin: Finance, at: int)
    | DoRespond(user: string, version: int, note: Note, at: int)
    | DoDispute(user: string, version: int, claimBytes: nat, at: int)
    | DoCredit(canManage: bool, fin: Finance, at: int)
    | DoForeign(account: Account, units: int)

  /** A failed step is rolled back by its transaction or savepoint. */
  function Keep(b: Book, r: Result<Book>): Book { if r.Ok? then r.value else b }

  function Apply(b: Book, s: Step): Book {
    match s
    case DoAccept(a, at) => Keep(b, Accept(b, a, at))
    case DoRecordCleanup(host, env, at) => Keep(b, RecordCleanup(b, host, env, at))
    case DoRecover(host, env, at) => Keep(b, CleanupConfirmed(b, host, env, at))
    case DoMarkFailed => MarkCleanupFailed(b)
    case DoRestart => RestartCleanup(b)
    case DoDecide(who, d, fin, at) => Keep(b, Decide(b, who, d, fin, at))
    case DoWithdraw(user, version, fin, at) => Keep(b, Withdraw(b, user, version, fin, at))
    case DoExpire(fin, at) => Keep(b, ExpireDispute(b, fin, at))
    case DoRespond(user, version, note, at) => Keep(b, Respond(b, user, version, note, at))
    case DoDispute(user, version, claimBytes, at) => Keep(b, Dispute(b, user, version, claimBytes, at))
    case DoCredit(canManage, fin, at) => Keep(b, Credit(b, canManage, fin, at))
    case DoForeign(account, units) => ForeignPost(b, account, units)
  }

  function Run(b: Book, ss: seq<Step>): Book
    decreases |ss|
  {
    if |ss| == 0 then b else Run(Apply(b, ss[0]), ss[1..])
  }

  // ---------------------------------------------------------------- the invariant

  lemma StepSound(b: Book, s: Step)
    requires Sound(b)
    ensures Sound(Apply(b, s))
  {
    hide Sound, Accept, RecordCleanup, CleanupConfirmed, MarkCleanupFailed, RestartCleanup, Decide, Respond, Dispute,
        Credit, ForeignPost;
    match s
    case DoAccept(a, at) => AcceptSound(b, a, at);
    case DoRecordCleanup(host, env, at) => RecordCleanupSound(b, host, env, at);
    case DoRecover(host, env, at) => CleanupConfirmedSound(b, host, env, at);
    case DoMarkFailed => CleanupMarksSound(b);
    case DoRestart => CleanupMarksSound(b);
    case DoDecide(who, d, fin, at) => DecideSound(b, who, d, fin, at);
    case DoWithdraw(user, version, fin, at) =>
      if b.term.Some? {
        DecideSound(b, BuyerWithdrawal(user),
            Decision(version, Some(Stake(b.term.value)), Some(BuyerFault), WORKER_NOTE), fin, at);
      }
    case DoExpire(fin, at) =>
      if b.term.Some? {
        DecideSound(b, Timeout, Decision(b.term.value.version, Some(0), Some(NoFault), WORKER_NOTE), fin, at);
      }
    case DoRespond(user, version, note, at) => RespondSound(b, user, version, note, at);
    case DoDispute(user, version, claimBytes, at) => DisputeSound(b, user, version, claimBytes, at);
    case DoCredit(canManage, fin, at) => CreditSound(b, canManage, fin, at);
    case DoForeign(account, units) => ForeignPostSound(b, account, units);
  }

  /** The evidence predicate, the liability and every projection hold after any run. */
  lemma {:induction false} RunSound(b: Book, ss: seq<Step>)
    requires Sound(b)
    ensures Sound(Run(b, ss))
    decreases |ss|
  {
    if |ss| > 0 {
      StepSound(b, ss[0]);
      RunSound(Apply(b, ss[0]), ss[1..]);
    }
  }

  /** Where runs start: a rental without a termination record whose period is funded by the
      liability it reports, whatever everyone else has posted. */
  lemma FundedRentalIsSound(r: Rental, foreign: map<Account, int>, receipt: Option<int>)
    requires RentalOk(r)
    requires r.period.Some? ==>
               var p := r.period.value;
               p.compensation == 0 && Unfulfilled(p.id) in foreign && foreign[Unfulfilled(p.id)] == -PeriodRemaining(p)
    ensures Sound(Book(Some(r), None, None, [], foreign, receipt))
  {
    if r.period.Some? {
      assert Total([], Every, Unfulfilled(r.period.value.id)) == 0;
    }
  }

  // ---------------------------------------------------------------- one-way facts

  /** What a later book owes an earlier one. */
  predicate ClaimForward(c: Claim, d: Claim) {
    && (c.used ==> d.used && d.openedAt == c.openedAt)
    && (c.respondedAt.Some? ==> d.respondedAt == c.respondedAt)
    && (c.used && c.responsibility != Undetermined ==> d.responsibility != Undetermined)
  }

  predicate RowForward(t: Termination, u: Termination) {
    && u.frozen == t.frozen
    && t.version <= u.version
    && u.cap <= t.cap
    && Stake(u) <= Stake(t)
    && t.returned <= u.returned
    && (t.confirmed.Some? ==> u.confirmed.Some?)
    && (Settled(t) ==> Settled(u) && u.cap == t.cap)
    && ClaimForward(t.claim, u.claim)
  }

  predicate AwardForward(c: AwardRow, d: AwardRow) {
    && d.provider == c.provider && d.amount == c.amount && d.entry == c.entry
    && d.awardedAt == c.awardedAt && d.unlockAt == c.unlockAt
    && c.reversed <= d.reversed
    && (c.credited > 0 ==> d == c)
  }

  /** The rental stays, on its host, and a cleanup receipt is never removed or changed. */
  predicate SameRental(b: Book, d: Book) {
    && (b.rental.Some? ==> d.rental.Some? && d.rental.value.host == b.rental.value.host)
    && (b.receipt.Some? ==> d.receipt == b.receipt)
  }

  predicate Forward(b: Book, d: Book) {
    && (b.term.Some? ==> d.term.Some? && RowForward(b.term.value, d.term.value))
    && (b.award.Some? ==> d.award.Some? && AwardForward(b.award.value, d.award.value))
    && SameRental(b, d)
    && b.journal <= d.journal
    && (Credited(b) > 0 ==> d.journal == b.journal)
    && (b.term.Some? && Credited(b) > 0 ==>
          && d.term.value.returned == b.term.value.returned
          && d.term.value.compensation == b.term.value.compensation
          && d.term.value.held == b.term.value.held)
  }

  lemma ForwardTransitive(a: Book, b: Book, c: Book)
    requires Forward(a, b) && Forward(b, c)
    ensures Forward(a, c)
  {
  }

  lemma DecideKeepsRental(b: Book, who: Authority, d: Decision, fin: Finance, at: int)
    ensures Decide(b, who, d, fin, at).Ok? ==> SameRental(b, Decide(b, who, d, fin, at).value)
  {
    hide DecisionRefusal, Stake, DecidedResponsibility, DecidedResponse, Moved;
  }

  /** A decision moves the book forward, and any money it moves is under a new version. */
  lemma DecideForward(b: Book, who: Authority, d: Decision, fin: Finance, at: int)
    requires Sound(b)
    ensures var r := Decide(b, who, d, fin, at);
            r.Ok? ==> Forward(b, r.value) && b.term.value.version < r.value.term.value.version
  {
    DecideKeepsRental(b, who, d, fin, at);
    hide Compensation, JournalOk, Total, SumOn, RentalOk, Places, LiabilityOk, Linked, TermsEvidence, SameRental,
        RefundPeriod;
    if DecisionRefusal(b, who, d, fin, at).None? {
      RefusalAdmits(b, who, d, fin, at);
    }
  }

  lemma AcceptKeepsRental(b: Book, a: Acceptance, at: int)
    ensures Accept(b, a, at).Ok? ==> SameRental(b, Accept(b, a, at).value)
  {
    hide Compensation, OpenTermination;
  }

  lemma CleanupForward(b: Book, host: string, env: CleanupEnv, at: int)
    requires Sound(b)
    ensures var r := CleanupConfirmed(b, host, env, at);
            r.Ok? ==> && Forward(b, r.value)
                      && (b.term.Some? && r.value.journal != b.journal ==>
                          b.term.value.version < r.value.term.value.version)
  {
    hide Compensation, JournalOk, Total, SumOn, RentalOk, Places, LiabilityOk, Evidence, Accept;
    AcceptKeepsRental(b, Acceptance(None, false, None, env.tail), env.cutoff);
    if b.term.Some? && Settled(b.term.value) {
    } else if b.term.Some? {
      CompensationIsCappedRounding(b.term.value.frozen.amount, b.term.value.frozen.remaining, b.term.value.frozen.rate);
    }
  }

  lemma RecordForward(b: Book, host: string, env: CleanupEnv, at: int)
    requires Sound(b)
    ensures var r := RecordCleanup(b, host, env, at);
            r.Ok? ==> && Forward(b, r.value)
                      && (b.term.Some? && r.value.journal != b.journal ==>
                          b.term.value.version < r.value.term.value.version)
  {
    var b1 := b.(receipt := if b.receipt.Some? then b.receipt else Some(at));
    ReceiptSound(b, b1.receipt);
    CleanupForward(b1, host, env, at);
    if b.term.Some? && Settled(b.term.value) {
      RecordCleanupKeepsSettled(b, host, env, at);
    }
    hide Compensation, JournalOk, Total, SumOn, RentalOk, Places, LiabilityOk, Evidence, CleanupConfirmed;
  }

  lemma AcceptForward(b: Book, a: Acceptance, at: int)
    requires Sound(b)
    ensures Forward(b, Apply(b, DoAccept(a, at)))
    ensures Apply(b, DoAccept(a, at)).journal == b.journal
  {
    AcceptKeepsRental(b, a, at);
    assert SameRental(b, b);
    hide Compensation, JournalOk, Total, SumOn, RentalOk, Places, LiabilityOk, Linked, Evidence, OpenTermination,
        AcceptanceRefusal, SameRental;
  }

  /** A credited award has nothing left to credit. */
  lemma CreditedIsWhole(b: Book)
    requires Sound(b)
    ensures b.term.Some? && b.award.Some? ==>
              var c := b.award.value;
              c.credited == 0 || c.credited == c.amount - c.reversed
    ensures 0 <= Credited(b)
  {
    hide Total, SumOn, JournalOk, Places, LiabilityOk, RentalOk, Compensation, PeriodEvidence, TermsEvidence;
  }

  lemma CreditForward(b: Book, canManage: bool, fin: Finance, at: int)
    requires Sound(b)
    ensures Forward(b, Apply(b, DoCredit(canManage, fin, at)))
  {
    OtherKeepsRental(b, DoCredit(canManage, fin, at));
    hide Sound, Evidence, Covers, KeyUsed, SameRental, Transfer;
    CreditedIsWhole(b);
    ForwardReflexive(b);
    hide RowForward;
  }

  lemma OtherForward(b: Book, s: Step)
    requires Sound(b)
    requires s.DoMarkFailed? || s.DoRestart? || s.DoRespond? || s.DoDispute? || s.DoForeign?
    ensures Forward(b, Apply(b, s))
    ensures Apply(b, s).journal == b.journal
  {
    hide Compensation, JournalOk, Total, SumOn, RentalOk, Places, LiabilityOk, Linked, AwardEvidence;
  }

  lemma OtherKeepsRental(b: Book, s: Step)
    requires s.DoMarkFailed? || s.DoRestart? || s.DoRespond? || s.DoDispute? || s.DoCredit? || s.DoForeign?
    ensures SameRental(b, Apply(b, s))
  {
    hide Evidence, Stake, Covers, KeyUsed;
  }

  /** Every step moves the book forward; outside the automatic credit, money only moves
      together with a version bump, so journal keys never collide. */
  lemma StepForward(b: Book, s: Step)
    requires Sound(b)
    ensures Forward(b, Apply(b, s))
    ensures !s.DoCredit? && b.term.Some? && Apply(b, s).journal != b.journal ==>
              b.term.value.version < Apply(b, s).term.value.version
  {
    hide Sound, Forward, Accept, RecordCleanup, CleanupConfirmed, MarkCleanupFailed, RestartCleanup, Decide, Respond,
        Dispute, Credit, ForeignPost;
    ForwardReflexive(b);
    match s
    case DoAccept(a, at) => AcceptForward(b, a, at);
    case DoRecordCleanup(host, env, at) => RecordForward(b, host, env, at);
    case DoRecover(host, env, at) => CleanupForward(b, host, env, at);
    case DoDecide(who, d, fin, at) => DecideForward(b, who, d, fin, at);
    case DoCredit(canManage, fin, at) => CreditForward(b, canManage, fin, at);
    case DoWithdraw(user, version, fin, at) =>
      if b.term.Some? {
        DecideForward(b, BuyerWithdrawal(user),
            Decision(version, Some(Stake(b.term.value)), Some(BuyerFault), WORKER_NOTE), fin, at);
      }
    case DoExpire(fin, at) =>
      if b.term.Some? {
        DecideForward(b, Timeout, Decision(b.term.value.version, Some(0), Some(NoFault), WORKER_NOTE), fin, at);
      }
    case _ => OtherForward(b, s);
  }

  lemma ForwardReflexive(b: Book)
    ensures Forward(b, b)
  {
  }

  lemma {:induction false} RunForward(b: Book, ss: seq<Step>)
    requires Sound(b)
    ensures Forward(b, Run(b, ss))
    decreases |ss|
  {
    if |ss| > 0 {
      StepSound(b, ss[0]);
      StepForward(b, ss[0]);
      hide Sound, Forward, Apply;
      RunForward(Apply(b, ss[0]), ss[1..]);
      ForwardTransitive(b, Apply(b, ss[0]), Run(b, ss));
    }
  }
}
