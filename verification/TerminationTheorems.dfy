/** Run-level guarantees of the termination ledger. */
module TerminationTheorems {
  import opened Base
  import opened Journal
  import opened TerminationModel
  import opened TerminationInvariant
  import opened TerminationRuns

  /** Units the journal says went to, or still sit in, each of the four places. */
  function ToBuyer(b: Book, z: Snapshot): int {
      -Total(b.journal, BySource(ClientTermination), WalletAvailable(z.buyer)) }
  function ToProvider(b: Book, z: Snapshot): int {
      -Total(b.journal, BySource(ClientCompensation), WalletAvailable(z.provider)) }
  function Pending(b: Book, z: Snapshot): int { -Total(b.journal, Every, ProviderPending(z.provider)) }
  function StillOwed(b: Book): int {
    if b.rental.Some? && b.rental.value.period.Some? then PeriodRemaining(b.rental.value.period.value) else 0
  }

  /** Conservation: after any run that has split the money, the buyer wallet, provider
      pending, provider wallet and the period liability together hold exactly the
      remainder frozen at acceptance, each place agrees with its projection, and every
      journal entry balances. */
  lemma RunConservesUnits(b0: Book, ss: seq<Step>)
    requires Sound(b0)
    ensures var b := Run(b0, ss);
            (b.term.Some? && Settled(b.term.value)) ==>
              var t := b.term.value;
              && ToBuyer(b, t.frozen) + ToProvider(b, t.frozen) + Pending(b, t.frozen) + StillOwed(b) ==
                  t.frozen.remaining
              && ToBuyer(b, t.frozen) == t.returned
              && ToProvider(b, t.frozen) == Credited(b)
              && Pending(b, t.frozen) == t.compensation - Credited(b)
              && StillOwed(b) == t.held
              && t.returned + t.compensation + t.held == t.frozen.remaining
              && (t.frozen.period.Some? ==> Balance(b, Unfulfilled(t.frozen.period.value)) == -t.held)
              && forall e :: e in b.journal ==> Balanced(e)
  {
    RunSound(b0, ss);
    hide Run, Total, Compensation, SumOn, SumUnits, AwardEvidence;
  }

  /** At most one award and one automatic credit are ever journaled, and no key twice. */
  lemma AtMostOneAwardAndCredit(b0: Book, ss: seq<Step>)
    requires Sound(b0)
    ensures var j := Run(b0, ss).journal;
            && UniqueKeys(j)
            && (forall i, k :: 0 <= i < |j| && 0 <= k < |j| && j[i].action == Award && j[k].action == Award ==> i == k)
            && (forall i, k :: 0 <= i < |j| && 0 <= k < |j| && j[i].action == AutomaticCredit == j[k].action ==> i == k)
  {
    RunSound(b0, ss);
    hide Run, Total, Compensation, Evidence, Places, PhaseOk, ClaimOk, Balanced;
    var b := Run(b0, ss);
    var j := b.journal;
    if b.term.Some? {
      assert JournalOk(j, b.term.value.version, b.award.Some?, Credited(b) > 0);
      assert forall i :: 0 <= i < |j| ==> j[i] in j;
    } else {
      assert j == [];
    }
  }

  /** An automatic credit ends the story: whatever is attempted afterwards, no amount,
      no award column and no journal entry changes. */
  lemma CreditIsFinal(b: Book, ss: seq<Step>)
    requires Sound(b) && b.term.Some? && Credited(b) > 0
    ensures var d := Run(b, ss);
            && d.journal == b.journal && d.award == b.award && d.term.Some?
            && d.term.value.returned == b.term.value.returned
            && d.term.value.compensation == b.term.value.compensation
            && d.term.value.held == b.term.value.held
  {
    RunForward(b, ss);
    hide Run, Sound, Stake, ClaimForward;
  }

  /** The stake never grows along a run and stays within the frozen agreement; money,
      once split, stays split; a fully reversed award is never replaced. */
  lemma StakeOnlyShrinks(b: Book, ss: seq<Step>)
    requires Sound(b) && b.term.Some?
    ensures var t := b.term.value;
            var d := Run(b, ss);
            && d.term.Some?
            && var u := d.term.value;
            && 0 <= Stake(u) <= Stake(t)
            && Stake(u) <= Compensation(t.frozen.amount, t.frozen.remaining, t.frozen.rate).value
            && u.frozen == t.frozen
            && (Settled(t) ==> Settled(u))
            && (b.award.Some? ==>
                  && d.award.Some? && d.award.value.entry == b.award.value.entry
                  && d.award.value.amount == b.award.value.amount)
            && (Settled(t) && Stake(t) == 0 ==> u.returned == t.frozen.remaining && u.compensation == 0 && u.held == 0)
            && (u.claim.responsibility == Undetermined ==>
                  u.claim.used && u.claim.openedAt.Some? && Stake(u) > 0 && Credited(d) == 0)
            && (u.claim.respondedAt.Some? ==>
                  u.claim.openedAt.Some? && u.claim.respondedAt.value < u.claim.openedAt.value + RESPONSE_WINDOW)
  {
    RunSound(b, ss);
    RunForward(b, ss);
    hide Run, Total, Compensation, SumOn, JournalOk, Places, LiabilityOk, RentalOk, Linked, TermsEvidence,
        PeriodEvidence;
  }

  // ---------------------------------------------------------------- cleanup and retries

  predicate HasSplit(t: Termination, s: Split) {
    t.returned == s.returned && t.compensation == s.compensation && t.held == s.held
  }

  /** A settling cleanup writes exactly the planned split and carries the stake over. */
  lemma CleanupWritesPlan(b: Book, host: string, env: CleanupEnv, at: int)
    requires Sound(b) && b.term.Some? && !Settled(b.term.value)
    ensures var r := CleanupConfirmed(b, host, env, at);
            r.Ok? ==>
              && r.value.term.Some?
              && var u := r.value.term.value;
              && (if Settled(u) then HasSplit(u, PlannedSplit(b.term.value)) && Stake(u) == Stake(b.term.value)
                  else r.value == b)
  {
    hide Total, SumOn, JournalOk, Places, LiabilityOk, Compensation, Evidence;
    CompensationIsCappedRounding(b.term.value.frozen.amount, b.term.value.frozen.remaining, b.term.value.frozen.rate);
  }

  lemma PendingRefusesDecisions(b: Book)
    requires b.term.Some? && b.term.value.status == FinancePending
    ensures forall who, d, fin, at :: Decide(b, who, d, fin, at).Err?
  {
    hide Evidence, Covers;
  }

  /** Where a step may leave a record that waits for finance: settled as planned, or waiting
      with nothing moved. */
  predicate StillPlanned(t: Termination, d: Book) {
    && d.term.Some?
    && var u := d.term.value;
    && (if Settled(u) then HasSplit(u, PlannedSplit(t)) && Stake(u) == Stake(t)
        else
          && u.status == FinancePending && d.journal == [] && d.award.None?
          && PlannedSplit(u) == PlannedSplit(t) && Stake(u) == Stake(t))
  }

  lemma PendingCleanup(b: Book, host: string, env: CleanupEnv, at: int)
    requires Sound(b) && b.term.Some? && b.term.value.status == FinancePending
    ensures StillPlanned(b.term.value, Keep(b, CleanupConfirmed(b, host, env, at)))
    ensures StillPlanned(b.term.value, Keep(b, RecordCleanup(b, host, env, at)))
  {
    var b1 := b.(receipt := if b.receipt.Some? then b.receipt else Some(at));
    ReceiptSound(b, b1.receipt);
    CleanupWritesPlan(b1, host, env, at);
    CleanupWritesPlan(b, host, env, at);
    HoldForFinanceSound(b1, at);
    PendingIsPlanned(b);
    hide Sound, CleanupConfirmed;
  }

  lemma PendingIsPlanned(b: Book)
    requires Sound(b) && b.term.Some? && b.term.value.status == FinancePending
    ensures b.journal == [] && b.award.None? && StillPlanned(b.term.value, b)
  {
    hide Total, SumOn, JournalOk, Places, LiabilityOk, RentalOk, Compensation, Evidence;
  }

  /** While finance is pending no step touches money, the stake or the planned split;
      the only way out is a settlement that writes that plan. */
  lemma PendingStep(b: Book, s: Step)
    requires Sound(b) && b.term.Some? && b.term.value.status == FinancePending
    ensures StillPlanned(b.term.value, Apply(b, s))
  {
    PendingIsPlanned(b);
    PendingRefusesDecisions(b);
    if s.DoRecordCleanup? || s.DoRecover? { PendingCleanup(b, s.host, s.env, s.at); }
    hide Sound, Evidence, CleanupConfirmed, RecordCleanup, Decide;
  }

  /** Any number of failed or interleaved attempts ends in the split an immediate
      success would have written: the first settlement of a run that starts with finance
      pending has the split planned at its start. */
  lemma {:induction false} RetriesEndInTheSameSplit(b: Book, ss: seq<Step>)
    requires Sound(b) && b.term.Some? && b.term.value.status == FinancePending
    requires |ss| > 0
    requires forall n :: 0 <= n < |ss| ==> Run(b, ss[..n]).term.Some? && !Settled(Run(b, ss[..n]).term.value)
    ensures var d := Run(b, ss);
            && d.term.Some?
            && (if Settled(d.term.value) then HasSplit(d.term.value, PlannedSplit(b.term.value))
                else d.journal == [] && PlannedSplit(d.term.value) == PlannedSplit(b.term.value))
    decreases |ss|
  {
    PendingStep(b, ss[0]);
    StepSound(b, ss[0]);
    hide Sound, Apply;
    var b1 := Apply(b, ss[0]);
    if |ss| == 1 {
      assert Run(b, ss) == b1;
    } else {
      assert ss[..1] == [ss[0]] && Run(b, ss[..1]) == b1;
      assert !Settled(Run(b, ss[..1]).term.value);
      forall n | 0 <= n < |ss[1..]|
        ensures Run(b1, ss[1..][..n]) == Run(b, ss[..n + 1])
      {
        assert ss[..n + 1][1..] == ss[1..][..n];
      }
      RetriesEndInTheSameSplit(b1, ss[1..]);
    }
  }

  /** Failing first changes nothing about the outcome: from a book whose cleanup is not yet
      confirmed, a recording that falls back to finance pending, followed by any steps up to
      the first settlement, ends in the split that recording with safe finances writes. */
  lemma RetryEqualsImmediateSuccess(b: Book, host: string, bad: CleanupEnv, good: CleanupEnv, at: int, ss: seq<Step>)
    requires Sound(b) && b.term.Some? && b.term.value.confirmed.None? && |ss| > 0
    requires RecordCleanup(b, host, bad, at).Ok? && RecordCleanup(b, host, good, at).Ok?
    requires var f := RecordCleanup(b, host, bad, at).value;
             && f.term.Some? && f.term.value.status == FinancePending
             && (forall n :: 0 <= n < |ss| ==> Run(f, ss[..n]).term.Some? && !Settled(Run(f, ss[..n]).term.value))
             && Run(f, ss).term.Some? && Settled(Run(f, ss).term.value)
    requires var g := RecordCleanup(b, host, good, at).value; g.term.Some? && Settled(g.term.value)
    ensures var late := Run(RecordCleanup(b, host, bad, at).value, ss).term.value;
            var soon := RecordCleanup(b, host, good, at).value.term.value;
            late.returned == soon.returned && late.compensation == soon.compensation && late.held == soon.held
  {
    var b1 := b.(receipt := if b.receipt.Some? then b.receipt else Some(at));
    ReceiptSound(b, b1.receipt);
    CleanupWritesPlan(b1, host, good, at);
    CleanupWritesPlan(b1, host, bad, at);
    RecordCleanupSound(b, host, bad, at);
    HoldForFinanceSound(b1, at);
    hide Sound, CleanupConfirmed, Apply, Run, PlannedSplit;
    RetriesEndInTheSameSplit(RecordCleanup(b, host, bad, at).value, ss);
  }

  /** In a sound book a verified cleanup can only be stopped from outside: it settles exactly
      when the finance scopes are safe, an unmetered contract is finalized, the contract
      identity is intact, the buyer's wallet has room for what is returned and the earning
      holds are released. */
  lemma CleanupSucceedsIff(b: Book, env: CleanupEnv, at: int)
    requires Sound(b) && b.term.Some? && !Settled(b.term.value)
    ensures var t := b.term.value;
            var r := CleanupConfirmed(b, t.frozen.host, env, at);
            r.Ok? && r.value.term.Some? && Settled(r.value.term.value) <==>
              && env.safe
              && (t.frozen.contract.Some? && t.frozen.period.None? ==> env.terminate == Finalized)
              && (t.frozen.contract.Some? && t.frozen.period.Some? ==>
                    b.rental.value.identityOk && (env.room || PlannedSplit(t).returned <= 0))
              && (t.frozen.contract.Some? ==> env.released)
  {
    hide Total, SumOn, JournalOk, Places, LiabilityOk, RentalOk, Compensation, AwardEvidence, TermsEvidence;
  }

  /** The liability check of a settlement never fires: the period still owes the plan. */
  lemma PlanIsCovered(b: Book)
    requires Sound(b) && b.term.Some? && !Settled(b.term.value) && b.term.value.frozen.period.Some?
    ensures var t := b.term.value;
            Covers(b, Unfulfilled(t.frozen.period.value), PlannedSplit(t).returned + PlannedSplit(t).compensation)
  {
    hide Total, SumOn, JournalOk, RentalOk, Compensation, AwardEvidence, TermsEvidence;
  }

  // ---------------------------------------------------------------- the response deadline

  function StepTime(s: Step): Option<int> {
    match s
    case DoMarkFailed => None
    case DoRestart => None
    case DoForeign(_, _) => None
    case DoAccept(_, at) => Some(at)
    case DoRecordCleanup(_, _, at) => Some(at)
    case DoRecover(_, _, at) => Some(at)
    case DoDecide(_, _, _, at) => Some(at)
    case DoWithdraw(_, _, _, at) => Some(at)
    case DoExpire(_, at) => Some(at)
    case DoRespond(_, _, _, at) => Some(at)
    case DoDispute(_, _, _, at) => Some(at)
    case DoCredit(_, _, at) => Some(at)
  }

  predicate NotBefore(ss: seq<Step>, at: int) {
    forall i :: 0 <= i < |ss| && StepTime(ss[i]).Some? ==> at <= StepTime(ss[i]).value
  }

  predicate IsTimeoutDecision(s: Step) { s.DoExpire? || (s.DoDecide? && s.who.Timeout?) }

  /** Past the deadline only the timeout decides, and it waives everything. */
  lemma DueDecision(b: Book, who: Authority, d: Decision, fin: Finance, at: int)
    requires Sound(b) && b.term.Some? && Due(b.term.value, at)
    ensures var r := Decide(b, who, d, fin, at);
            r.Ok? ==>
              && who.Timeout? && r.value.term.Some?
              && var u := r.value.term.value;
              && Stake(u) == 0 && u.claim.used && u.claim.respondedAt.None? && u.claim.responsibility != Undetermined
  {
    if DecisionRefusal(b, who, d, fin, at).None? {
      RefusalAdmits(b, who, d, fin, at);
    }
    hide Sound, Evidence, Covers, Moved, RefundPeriod, DecisionRefusal;
  }

  /** Once an unanswered claim is due, nobody but the automatic waiver can decide it. */
  lemma DueStep(b: Book, s: Step, at: int)
    requires Sound(b) && b.term.Some? && Due(b.term.value, at)
    requires StepTime(s).Some? ==> at <= StepTime(s).value
    ensures var t := b.term.value;
            var d := Apply(b, s);
            && d.term.Some?
            && var u := d.term.value;
            && u.claim.respondedAt.None?
            && (if u.claim == t.claim then Due(u, at) && Stake(u) == Stake(t)
                else IsTimeoutDecision(s) && Stake(u) == 0 && u.claim.used && u.claim.responsibility != Undetermined)
  {
    if s.DoRecordCleanup? {
      var b1 := b.(receipt := if b.receipt.Some? then b.receipt else Some(s.at));
      ReceiptSound(b, b1.receipt);
      if Settled(b.term.value) {
        RecordCleanupKeepsSettled(b, s.host, s.env, s.at);
      } else {
        CleanupWritesPlan(b1, s.host, s.env, s.at);
      }
    }
    if s.DoRecover? && !Settled(b.term.value) {
      CleanupWritesPlan(b, s.host, s.env, s.at);
    }
    if s.DoDecide? { DueDecision(b, s.who, s.d, s.fin, s.at); }
    if s.DoWithdraw? {
      DueDecision(b, BuyerWithdrawal(s.user),
          Decision(s.version, Some(Stake(b.term.value)), Some(BuyerFault), WORKER_NOTE), s.fin, s.at);
    }
    if s.DoExpire? {
      DueDecision(b, Timeout, Decision(b.term.value.version, Some(0), Some(NoFault), WORKER_NOTE), s.fin, s.at);
    }
    hide Total, SumOn, JournalOk, Places, LiabilityOk, RentalOk, Compensation, Evidence, Covers, Decide;
  }

  lemma {:induction false} WaivedForGood(b: Book, ss: seq<Step>)
    requires Sound(b) && b.term.Some? && Stake(b.term.value) == 0
    requires b.term.value.claim.used && b.term.value.claim.respondedAt.None?
    requires b.term.value.claim.responsibility != Undetermined
    ensures var d := Run(b, ss);
            d.term.Some? && Stake(d.term.value) == 0 && d.term.value.claim.respondedAt.None?
    decreases |ss|
  {
    if |ss| > 0 {
      StepSound(b, ss[0]);
      StepForward(b, ss[0]);
      WaivedStep(b, ss[0]);
      assert 0 <= Stake(Apply(b, ss[0]).term.value) by { hide Run, Apply, Compensation; }
      hide Sound, Apply;
      WaivedForGood(Apply(b, ss[0]), ss[1..]);
    }
  }

  /** A closed claim is never answered any more. */
  lemma WaivedStep(b: Book, s: Step)
    requires Sound(b) && b.term.Some?
    requires b.term.value.claim.used && b.term.value.claim.responsibility != Undetermined
    ensures Apply(b, s).term.Some? && Apply(b, s).term.value.claim.respondedAt == b.term.value.claim.respondedAt
  {
    hide Total, SumOn, JournalOk, Places, LiabilityOk, RentalOk, Compensation, Evidence, Covers;
  }

  /** Deadline exclusivity over runs. From the moment an unanswered claim is due, every
      continuation either leaves the claim and the whole stake as they are, or has waived
      the stake to zero; no formal response is ever recorded; and once the money is split
      a waived claim has returned the whole remainder to the buyer. */
  lemma {:induction false} DueClaimIsOnlyWaived(b: Book, ss: seq<Step>, at: int)
    requires Sound(b) && b.term.Some? && Due(b.term.value, at) && NotBefore(ss, at)
    ensures var d := Run(b, ss);
            && d.term.Some?
            && var u := d.term.value;
            && u.claim.respondedAt.None?
            && ((Due(u, at) && u.claim == b.term.value.claim && Stake(u) == Stake(b.term.value))
                || (Stake(u) == 0 && (Settled(u) ==> u.returned == u.frozen.remaining)))
    decreases |ss|
  {
    if |ss| > 0 {
      StepSound(b, ss[0]);
      DueStep(b, ss[0], at);
      hide Apply;
      var b1 := Apply(b, ss[0]);
      if b1.term.value.claim == b.term.value.claim {
        assert NotBefore(ss[1..], at);
        hide Sound;
        DueClaimIsOnlyWaived(b1, ss[1..], at);
      } else {
        WaivedForGood(b1, ss[1..]);
        RunSound(b1, ss[1..]);
        StakeZeroReturnsAll(Run(b, ss));
      }
    }
  }

  lemma StakeZeroReturnsAll(b: Book)
    requires Sound(b) && b.term.Some? && Stake(b.term.value) == 0
    ensures Settled(b.term.value) ==> b.term.value.returned == b.term.value.frozen.remaining
  {
    hide Total, SumOn, JournalOk, Places, LiabilityOk, RentalOk, Compensation, AwardEvidence, PeriodEvidence,
        TermsEvidence;
  }

  // ---------------------------------------------------------------- decisions

  /** What a decision decides: the new stake is the amount named, the buyer is owed the
      difference and, once money is split, has been paid exactly that; a claim stays open
      only if a Provider offered part of it, and the Owner's word on responsibility stands. */
  lemma DecisionSetsStake(b: Book, who: Authority, d: Decision, fin: Finance, at: int)
    requires Sound(b) && Decide(b, who, d, fin, at).Ok?
    ensures var t := b.term.value;
            var e := Decide(b, who, d, fin, at).value;
            && e.term.Some? && d.award.Some?
            && var u := e.term.value;
            && Stake(u) == d.award.value <= Stake(t)
            && u.returned == t.returned + (if Settled(t) then Stake(t) - Stake(u) else 0)
            && ToBuyer(e, t.frozen) == u.returned
            && (u.claim.responsibility == Undetermined ==>
                  who.ProviderActor? && t.claim.responsibility == Undetermined && u.claim.respondedAt.Some?)
            && (who.Owner? ==> Some(u.claim.responsibility) == d.responsibility)
  {
    DecideSound(b, who, d, fin, at);
    RefusalAdmits(b, who, d, fin, at);
    hide Total, SumOn, JournalOk, Places, LiabilityOk, RentalOk, Compensation, AwardEvidence, PeriodEvidence,
        TermsEvidence, Covers, Moved, RefundPeriod;
  }

  /** A buyer who withdraws concedes the whole stake: nothing is returned to the buyer, the
      Provider keeps all that was at stake, and the claim is closed. */
  lemma WithdrawalConcedes(b: Book, user: string, version: int, fin: Finance, at: int)
    requires Sound(b) && Withdraw(b, user, version, fin, at).Ok?
    ensures var t := b.term.value;
            var u := Withdraw(b, user, version, fin, at).value.term.value;
            && t.frozen.buyer == user
            && Stake(u) == Stake(t) && u.returned == t.returned
            && u.claim.responsibility == BuyerFault && u.claim.used
  {
    var d := Decision(version, Some(Stake(b.term.value)), Some(BuyerFault), WORKER_NOTE);
    DecisionSetsStake(b, BuyerWithdrawal(user), d, fin, at);
    hide Sound, Evidence, Covers, Total;
  }

  // ---------------------------------------------------------------- what claim steps and credits mean

  /** An accepted answer is strictly inside its window and moves nothing, and it stops the
      clock for good: in no later state of any run is the claim due, so the automatic waiver
      is refused at every time. */
  lemma ResponseStopsTheClock(b: Book, user: string, version: int, note: Note, at: int, ss: seq<Step>, fin: Finance,
      when: int)
    requires Sound(b) && Respond(b, user, version, note, at).Ok?
    ensures var t := b.term.value;
            var r := Respond(b, user, version, note, at).value;
            && t.frozen.provider == user && t.claim.openedAt.Some? && at < t.claim.openedAt.value + RESPONSE_WINDOW
            && r.journal == b.journal && r.award == b.award && r.rental == b.rental
            && r.term.Some? && Stake(r.term.value) == Stake(t)
            && var d := Run(r, ss);
            && d.term.Some? && d.term.value.claim.respondedAt == Some(at)
            && !Due(d.term.value, when) && ExpireDispute(d, fin, when).Err?
  {
    var r := Respond(b, user, version, note, at).value;
    RespondSound(b, user, version, note, at);
    RunForward(r, ss);
    ClaimHasDeadline(b);
    hide Sound, Run, Evidence, Covers;
  }

  lemma ClaimHasDeadline(b: Book)
    requires Sound(b) && b.term.Some?
    ensures b.term.value.claim.used <==> b.term.value.claim.openedAt.Some?
    ensures b.term.value.claim.responsibility == Undetermined ==> b.term.value.claim.used
    ensures Settled(b.term.value) && b.award.Some? ==>
              (b.award.value.disputed <==> b.term.value.claim.responsibility == Undetermined)
  {
    hide Total, SumOn, JournalOk, Places, LiabilityOk, RentalOk, Compensation, PeriodEvidence, TermsEvidence;
  }

  /** A dispute moves nothing and can never be opened twice, and while its claim is undecided
      no credit goes out: in every later state of any run a second dispute is refused, and
      crediting changes nothing unless the claim has been decided. */
  lemma DisputeHoldsTheAward(b: Book, user: string, version: int, claimBytes: nat, at: int, ss: seq<Step>,
                             again: int, canManage: bool, fin: Finance, when: int)
    requires Sound(b) && Dispute(b, user, version, claimBytes, at).Ok?
    ensures var t := b.term.value;
            var r := Dispute(b, user, version, claimBytes, at).value;
            && t.frozen.buyer == user && r.journal == b.journal && r.rental == b.rental
            && r.term.Some? && Stake(r.term.value) == Stake(t) > 0
            && var d := Run(r, ss);
            && d.term.Some?
            && Dispute(d, user, again, claimBytes, when).Err?
            && (d.term.value.claim.responsibility == Undetermined ==> Credit(d, canManage, fin, when) == Ok(d))
  {
    var r := Dispute(b, user, version, claimBytes, at).value;
    DisputeSound(b, user, version, claimBytes, at);
    DisputeFacts(b, user, version, claimBytes, at);
    hide Dispute, Credit, Sound, Run, Stake;
    RunForward(r, ss);
    RunSound(r, ss);
    hide AwardForward;
    OneDisputeOnly(Run(r, ss), user, again, claimBytes, when);
    if Run(r, ss).term.value.claim.responsibility == Undetermined {
      NoCreditWhileOpen(Run(r, ss), canManage, fin, when);
    }
  }

  lemma OneDisputeOnly(b: Book, user: string, version: int, claimBytes: nat, at: int)
    requires b.term.Some? && b.term.value.claim.used
    ensures Dispute(b, user, version, claimBytes, at).Err?
  {
  }

  lemma NoCreditWhileOpen(b: Book, canManage: bool, fin: Finance, at: int)
    requires Sound(b) && b.term.Some? && b.term.value.claim.responsibility == Undetermined
    ensures Credit(b, canManage, fin, at) == Ok(b)
  {
    if Settled(b.term.value) {
      ClaimHasDeadline(b);
    } else {
      UnsettledHasNoAward(b);
    }
    hide Sound, Evidence, Covers, KeyUsed;
  }

  lemma DisputeFacts(b: Book, user: string, version: int, claimBytes: nat, at: int)
    requires Sound(b) && Dispute(b, user, version, claimBytes, at).Ok?
    ensures var r := Dispute(b, user, version, claimBytes, at).value;
            && b.term.Some? && r.term.Some? && b.term.value.frozen.buyer == user
            && r.journal == b.journal && r.rental == b.rental && r.term.value.claim.used
            && Stake(r.term.value) == Stake(b.term.value) > 0
  {
    hide Total, SumOn, JournalOk, Places, LiabilityOk, RentalOk, Compensation, AwardEvidence, PeriodEvidence,
        TermsEvidence;
  }

  lemma UnsettledHasNoAward(b: Book)
    requires Sound(b) && b.term.Some? && !Settled(b.term.value)
    ensures b.award.None?
  {
    hide Total, SumOn, JournalOk, Places, LiabilityOk, RentalOk, Compensation, Evidence;
  }

  /** A credit that pays, pays the Provider exactly the compensation, after maturity and out
      of what was pending, leaving nothing pending; whatever runs afterwards, no credit pays
      again. */
  lemma CreditPaysOnce(b: Book, canManage: bool, fin: Finance, at: int, ss: seq<Step>, fin2: Finance, when: int)
    requires Sound(b) && Credit(b, canManage, fin, at).Ok? && Credit(b, canManage, fin, at).value != b
    ensures b.term.Some? && b.award.Some? && b.award.value.unlockAt <= at
    ensures var t := b.term.value;
            var r := Credit(b, canManage, fin, at).value;
            && r.term == b.term
            && ToProvider(r, t.frozen) == t.compensation > 0 && ToProvider(b, t.frozen) == 0
            && Pending(b, t.frozen) == t.compensation && Pending(r, t.frozen) == 0
            && var d := Run(r, ss);
            && Credit(d, canManage, fin2, when) == Ok(d)
  {
    var r := Credit(b, canManage, fin, at).value;
    CreditSound(b, canManage, fin, at);
    CreditFacts(b, canManage, fin, at);
    PlacesHold(b);
    PlacesHold(r);
    CreditIsFinal(r, ss);
    hide Sound, Run, Evidence, Covers, KeyUsed, Total;
  }

  lemma CreditFacts(b: Book, canManage: bool, fin: Finance, at: int)
    requires Sound(b) && Credit(b, canManage, fin, at).Ok? && Credit(b, canManage, fin, at).value != b
    ensures b.term.Some? && b.award.Some? && Settled(b.term.value)
    ensures b.award.value.amount - b.award.value.reversed == b.term.value.compensation > 0 && Credited(b) == 0
    ensures var r := Credit(b, canManage, fin, at).value;
            && r.term == b.term && r.award.Some? && Credited(r) == b.term.value.compensation
            && r.award.value.amount - r.award.value.reversed == Credited(r)
            && b.award.value.unlockAt <= at
  {
    hide Total, SumOn, Places, LiabilityOk, RentalOk, Compensation, PeriodEvidence, TermsEvidence;
  }

  lemma PlacesHold(b: Book)
    requires Sound(b) && b.term.Some?
    ensures ToProvider(b, b.term.value.frozen) == Credited(b)
    ensures Pending(b, b.term.value.frozen) == b.term.value.compensation - Credited(b)
  {
    hide Total, SumOn, JournalOk, LiabilityOk, RentalOk, Compensation, Evidence, PhaseOk;
  }

  // ---------------------------------------------------------------- fail closed

  /** If any projection disagrees with the journal, no step moves money: every money
      column, the award's amounts, the period and the journal stay as they are. */
  lemma DriftFreezesMoney(b: Book, s: Step)
    requires b.term.Some? && !Evidence(b)
    ensures var d := Apply(b, s);
            && d.journal == b.journal && d.rental == b.rental
            && d.term.Some?
            && d.term.value.cap == b.term.value.cap
            && d.term.value.returned == b.term.value.returned
            && d.term.value.compensation == b.term.value.compensation
            && d.term.value.held == b.term.value.held
            && (match b.award
                case None => d.award.None?
                case Some(c) => d.award.Some? && d.award.value.(disputed := c.disputed) == c)
  {
    if s.DoRecordCleanup? {
      ReceiptIsNoEvidence(b, if b.receipt.Some? then b.receipt else Some(s.at));
    }
    hide Evidence, Covers, Compensation;
  }

  lemma ReceiptIsNoEvidence(b: Book, receipt: Option<int>)
    requires b.term.Some?
    ensures Evidence(b.(receipt := receipt)) <==> Evidence(b)
  {
    hide Total, SumOn;
  }
}
