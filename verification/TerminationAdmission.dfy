/** Who may do what to a termination, and what it writes, in terms of the rows' own columns and
    the request: the guards of every transaction as exact conditions. Times are milliseconds,
    so 259_200_000 is three days and 604_800_000 is seven. */
module TerminationAdmission {
  import opened Base
  import opened Journal
  import opened TerminationModel
  import opened TerminationInvariant
  import opened TerminationRuns
  import opened TerminationTheorems

  // ---------------------------------------------------------------- acceptance

  /** The buyer is leaving on their own account. */
  predicate Leaving(r: Rental, a: Acceptance) {
    a.release || (a.actor == Some(r.buyer) && r.buyer != r.provider)
  }

  /** What the period still owes after the service tail. */
  function OwedAfterTail(r: Rental, tail: Tail): int {
    match r.period
    case None => 0
    case Some(p) => p.amount - p.fulfilled - p.refunded - p.compensation - tail.delivered - tail.unavailable
  }

  /** An exit without a record is accepted exactly when the contract identity is intact, the
      actor is a party, a leaving buyer acts in person with a valid preview, a named reason and
      a short claim, and the service tail could be settled within what the period owes. */
  lemma AcceptanceIff(b: Book, a: Acceptance, at: int)
    requires Sound(b) && b.term.None? && b.rental.Some?
    ensures var r := b.rental.value;
            Accept(b, a, at).Ok? <==>
              && (r.contract.Some? ==> r.identityOk && a.tail.ok && OwedAfterTail(r, a.tail) >= 0)
              && (a.actor.Some? ==> a.actor.value == r.buyer || a.actor.value == r.provider)
              && (Leaving(r, a) ==>
                    && a.actor == Some(r.buyer) && a.request.Some? && a.request.value.previewValid
                    && a.request.value.reason in {Voluntary, ProviderIssue, PlatformIssue}
                    && a.request.value.claimBytes <= 2000)
    ensures Accept(b, a, at).Ok? ==> Accept(b, a, at).value.term.Some?
  {
    var r := b.rental.value;
    if r.period.Some? {
      var p := r.period.value;
      assert p.compensation == 0 && 0 < p.amount <= I64_MAX && 0 <= p.fulfilled && 0 <= p.refunded;
      assert r.contract.Some?;
      assert p.terms.Some? ==> 0 <= p.terms.value.rate <= 10000;
    }
    hide Sound, OpenTermination, WrapI64;
  }

  /** The stake of a first acceptance: the capped, half-up rounded share of the period exactly
      when the buyer leaves a paid period that is open after the tail, and nothing otherwise. */
  lemma AcceptedStake(b: Book, a: Acceptance, at: int)
    requires Sound(b) && b.term.None? && b.rental.Some? && Accept(b, a, at).Ok?
    ensures var r := b.rental.value;
            var d := Accept(b, a, at).value;
            && d.term.Some?
            && d.term.value.cap == (match r.period
                                    case None => 0
                                    case Some(p) =>
                                      var rate := if p.terms.Some? then p.terms.value.rate else 0;
                                      if Leaving(r, a) && r.paidStarted && p.open && !a.tail.closes
                                      then Min(OwedAfterTail(r, a.tail), (p.amount * rate + 5000) / 10000) else 0)
  {
    var r := b.rental.value;
    AcceptanceIff(b, a, at);
    if r.period.Some? {
      var p := r.period.value;
      assert r.contract.Some? && p.compensation == 0 && p.amount <= I64_MAX;
      assert p.terms.Some? ==> 0 <= p.terms.value.rate <= 10000;
      var rate := if p.terms.Some? then p.terms.value.rate else 0;
      CompensationIsCappedRounding(p.amount, OwedAfterTail(r, a.tail), rate);
    }
    hide Sound, Compensation, AcceptanceRefusal, WrapI64, OpeningResponsibility;
  }

  /** Who is responsible in the row a first acceptance writes. The buyer is exactly when leaving
      voluntarily; a claim is opened at once exactly when an issue is named and something is at
      stake; the Provider is exactly when acting on an exit that is not the buyer's. */
  lemma AcceptedRow(b: Book, a: Acceptance, at: int)
    requires Sound(b) && b.term.None? && b.rental.Some? && Accept(b, a, at).Ok?
    ensures var r := b.rental.value;
            var d := Accept(b, a, at).value;
            && d.term.Some?
            && var t := d.term.value;
            var reason := if a.request.Some? then a.request.value.reason else OtherReason;
            var issue := reason == ProviderIssue || reason == PlatformIssue;
            && (t.claim.responsibility == BuyerFault <==> Leaving(r, a) && reason == Voluntary)
            && (t.claim.responsibility == Undetermined <==> Leaving(r, a) && issue && t.cap > 0)
            && (t.claim.responsibility == ProviderFault <==> !Leaving(r, a) && a.actor == Some(r.provider))
            && t.claim.responsibility != PlatformFault
            && (t.claim.used <==> t.claim.responsibility == Undetermined)
            && t.claim.openedAt == (if t.claim.used then Some(at) else None) && t.claim.respondedAt == None
  {
    AcceptedStake(b, a, at);
    AcceptanceIff(b, a, at);
    AcceptSound(b, a, at);
    assert 0 <= Accept(b, a, at).value.term.value.cap;
    hide Sound, Compensation, AcceptanceRefusal, BasisOf, SettleTail;
  }

  /** The snapshot a first acceptance freezes: the parties, the contract and the period at the
      moment of acceptance, and what the period owed after the tail. */
  lemma AcceptedSnapshot(b: Book, a: Acceptance, at: int)
    requires Sound(b) && b.term.None? && b.rental.Some? && Accept(b, a, at).Ok?
    ensures Accept(b, a, at).value.term.Some?
    ensures var r := b.rental.value;
            var t := Accept(b, a, at).value.term.value;
            && t.frozen.host == r.host && t.frozen.buyer == r.buyer && t.frozen.provider == r.provider
            && t.frozen.contract == r.contract && t.frozen.cutoff == at
            && t.frozen.period == (if r.period.Some? then Some(r.period.value.id) else None)
            && t.frozen.amount == (if r.period.Some? then r.period.value.amount else 0)
            && t.frozen.remaining == OwedAfterTail(r, a.tail)
            && t.returned == 0 && t.compensation == 0 && t.held == 0
            && t.status == CleanupPending && t.confirmed.None? && t.version == 1
  {
    AcceptanceIff(b, a, at);
    var r := b.rental.value;
    if r.period.Some? {
      assert r.contract.Some?;
    }
    hide Sound, Compensation, OpeningResponsibility, AcceptanceRefusal, WrapI64;
  }

  /** What accepting does to the period: delivered units are fulfilled, unavailable units are
      refunded to the buyer, and no entry of the termination is written. */
  lemma AcceptedTail(b: Book, a: Acceptance, at: int)
    requires Sound(b) && b.term.None? && b.rental.Some? && b.rental.value.period.Some? && Accept(b, a, at).Ok?
    ensures var d := Accept(b, a, at).value;
            && d.rental.Some? && d.rental.value.period.Some? && d.journal == b.journal && d.award == b.award
            && var p, q := b.rental.value.period.value, d.rental.value.period.value;
            && q.fulfilled == p.fulfilled + a.tail.delivered && q.refunded == p.refunded + a.tail.unavailable
            && q.amount == p.amount && q.id == p.id && (q.open <==> p.open && !a.tail.closes)
            && Balance(d, WalletAvailable(b.rental.value.buyer))
               == Balance(b, WalletAvailable(b.rental.value.buyer)) - a.tail.unavailable
            && Balance(d, Unfulfilled(p.id)) == Balance(b, Unfulfilled(p.id)) + a.tail.delivered + a.tail.unavailable
  {
    assert b.rental.value.contract.Some?;
    hide Sound, Compensation, OpenTermination, Total, WrapI64;
  }

  /** End to end: a buyer who leaves voluntarily and whose cleanup settles ends with exactly the
      rounded share pending for the Provider, the rest of what was owed in the buyer's wallet,
      and nothing owed by the period. */
  lemma VoluntaryExitPays(b: Book, a: Acceptance, at: int, env: CleanupEnv, at2: int)
    requires Sound(b) && b.term.None? && b.rental.Some? && b.rental.value.period.Some?
    requires Leaving(b.rental.value, a) && a.request.Some? && a.request.value.reason == Voluntary
    requires Accept(b, a, at).Ok?
    requires var r := CleanupConfirmed(Accept(b, a, at).value, b.rental.value.host, env, at2);
             r.Ok? && r.value.term.Some? && Settled(r.value.term.value)
    ensures var r := b.rental.value;
            var p := r.period.value;
            var d := CleanupConfirmed(Accept(b, a, at).value, r.host, env, at2).value;
            var owed := OwedAfterTail(r, a.tail);
            var rate := if p.terms.Some? then p.terms.value.rate else 0;
            var share := if r.paidStarted && p.open && !a.tail.closes
                         then Min(owed, (p.amount * rate + 5000) / 10000) else 0;
            && d.term.Some?
            && Pending(d, d.term.value.frozen) == share
            && ToBuyer(d, d.term.value.frozen) == owed - share
            && StillOwed(d) == 0
  {
    AcceptedStake(b, a, at);
    AcceptedRow(b, a, at);
    AcceptedSnapshot(b, a, at);
    AcceptSound(b, a, at);
    var b1 := Accept(b, a, at).value;
    CleanupWritesPlan(b1, b.rental.value.host, env, at2);
    CleanupConfirmedSound(b1, b.rental.value.host, env, at2);
    var d := CleanupConfirmed(b1, b.rental.value.host, env, at2).value;
    UnsettledHasNoAward(b1);
    CleanupMintsNoCredit(b1, b.rental.value.host, env, at2);
    hide Accept, CleanupConfirmed, Compensation;
    assert Run(d, []) == d;
    RunConservesUnits(d, []);
    hide Sound, Pending, ToBuyer, StillOwed, ToProvider;
  }

  lemma CleanupMintsNoCredit(b: Book, host: string, env: CleanupEnv, at: int)
    requires b.term.Some? && b.award.None?
    ensures CleanupConfirmed(b, host, env, at).Ok? ==>
              && Credited(CleanupConfirmed(b, host, env, at).value) == 0
              && CleanupConfirmed(b, host, env, at).value.term.Some?
              && CleanupConfirmed(b, host, env, at).value.term.value.frozen == b.term.value.frozen
  {
    hide Evidence, CleanupRefusal, Compensation;
  }

  // ---------------------------------------------------------------- verified cleanup

  /** What a settling cleanup writes: everything not at stake goes back to the buyer, the stake
      becomes a seven-day award when the buyer is responsible and a hold when that is open, and
      the confirmation is dated now. */
  lemma CleanupSplits(b: Book, host: string, env: CleanupEnv, at: int)
    requires Sound(b) && b.term.Some? && !Settled(b.term.value)
    requires CleanupConfirmed(b, host, env, at).Ok? && CleanupConfirmed(b, host, env, at).value != b
    ensures var t := b.term.value;
            var d := CleanupConfirmed(b, host, env, at).value;
            && d.term.Some?
            && var u := d.term.value;
            && u.frozen == t.frozen && u.claim == t.claim && u.cap == t.cap
            && u.confirmed == Some(at) && u.version == t.version + 1
            && u.returned == t.frozen.remaining - t.cap
            && u.compensation == (if t.claim.responsibility == BuyerFault then t.cap else 0)
            && u.held == (if t.claim.responsibility == Undetermined then t.cap else 0)
            && u.status == (if t.claim.responsibility == Undetermined then Disputed else Completed)
    ensures var d := CleanupConfirmed(b, host, env, at).value;
            && (d.award.Some? <==> d.term.value.compensation > 0)
            && (d.award.Some? ==> d.award.value.awardedAt == at && d.award.value.unlockAt == at + 604_800_000)
            && d.rental.Some? && (d.rental.value.period.Some? ==> !d.rental.value.period.value.open)
  {
    hide Total, SumOn, JournalOk, Places, LiabilityOk, Evidence, CleanupRefusal, Transfer;
    var t := b.term.value;
    assert t.frozen.period.None? ==> t.cap == 0 by {
      CompensationIsCappedRounding(t.frozen.amount, t.frozen.remaining, t.frozen.rate);
    }
    assert t.frozen.period.Some? ==> t.frozen.contract.Some?;
    assert Stake(t) == t.cap && t.returned == 0 && t.compensation == 0 && b.award.None?;
    hide Sound, Compensation;
  }

  /** A cleanup report for another host is a conflict, and unsafe finances stop the money. */
  lemma CleanupErrors(b: Book, host: string, env: CleanupEnv, at: int)
    requires Sound(b) && b.term.Some?
    ensures host != b.term.value.frozen.host ==> CleanupConfirmed(b, host, env, at) == Err(Conflict)
    ensures host == b.term.value.frozen.host && !Settled(b.term.value) && !env.safe ==>
              CleanupConfirmed(b, host, env, at) == Err(FinanceHold)
  {
    assert Evidence(b);
    hide Sound, Evidence, SettleCleanup;
  }

  /** A rental cleaned up before terminations were recorded gets a row dated by that cleanup,
      with nobody responsible and nothing at stake. */
  lemma HistoricalCleanup(b: Book, host: string, env: CleanupEnv, at: int)
    requires Sound(b) && b.term.None? && CleanupConfirmed(b, host, env, at).Ok?
    ensures b.rental.Some? && host == b.rental.value.host
    ensures var d := CleanupConfirmed(b, host, env, at).value;
            && d.term.Some?
            && d.term.value.frozen.cutoff == env.cutoff && d.term.value.frozen.host == host
            && d.term.value.claim == Claim(NoFault, false, None, None) && d.term.value.cap == 0
  {
    var a := Acceptance(None, false, None, env.tail);
    assert EnsureTermination(b, host, env).Ok?;
    AcceptanceIff(b, a, env.cutoff);
    AcceptedStake(b, a, env.cutoff);
    AcceptedRow(b, a, env.cutoff);
    AcceptedSnapshot(b, a, env.cutoff);
    hide Sound, Accept, Compensation, CleanupRefusal, RefundPeriod, Moved, PlannedSplit, WriteFails;
  }

  /** A failed cleanup is marked once on an unconfirmed row, a new cleanup job puts the row back
      to pending, and neither touches anything else or a confirmed row. */
  lemma CleanupMarks(b: Book)
    ensures var d := MarkCleanupFailed(b);
            && (b.term.Some? && b.term.value.confirmed.None? ==>
                  && d.term.Some? && d.term.value.status == CleanupFailed
                  && d.term.value.version
                     == b.term.value.version + (if b.term.value.status == CleanupFailed then 0 else 1)
                  && d == b.(term := Some(b.term.value.(status := CleanupFailed, version := d.term.value.version))))
            && (b.term.None? || b.term.value.confirmed.Some? ==> d == b)
            && MarkCleanupFailed(d) == d
    ensures var d := RestartCleanup(b);
            && (b.term.Some? && b.term.value.confirmed.None? ==>
                  d == b.(term := Some(b.term.value.(status := CleanupPending))))
            && (b.term.None? || b.term.value.confirmed.Some? ==> d == b)
  {
  }

  /** Recording a verified cleanup. On the rental's own host it always succeeds and leaves a
      receipt, the first one ever recorded or this one, whatever becomes of the money. On
      another host it is a conflict. */
  lemma RecordingKeepsReceipt(b: Book, host: string, env: CleanupEnv, at: int)
    requires b.rental.Some?
    ensures host != b.rental.value.host ==> RecordCleanup(b, host, env, at) == Err(Conflict)
    ensures host == b.rental.value.host ==>
              var r := RecordCleanup(b, host, env, at);
              && r.Ok? && r.value.rental.Some?
              && r.value.receipt == (if b.receipt.Some? then b.receipt else Some(at))
  {
    var b1 := b.(receipt := if b.receipt.Some? then b.receipt else Some(at));
    CleanupKeepsRental(b1, host, env, at);
    hide CleanupConfirmed;
  }

  lemma CleanupKeepsRental(b: Book, host: string, env: CleanupEnv, at: int)
    requires b.rental.Some?
    ensures CleanupConfirmed(b, host, env, at).Ok? ==> SameRental(b, CleanupConfirmed(b, host, env, at).value)
    ensures CleanupConfirmed(b, host, env, at).Ok? ==> CleanupConfirmed(b, host, env, at).value.rental.Some?
  {
    AcceptKeepsRental(b, Acceptance(None, false, None, env.tail), env.cutoff);
    hide Accept, CleanupRefusal, Moved, PlannedSplit, WriteFails, NewAward;
  }

  /** Money that could not be split leaves a row confirmed and waiting for finance, with the
      first confirmation kept, and nothing in the journal. */
  lemma RecordingHolds(b: Book, host: string, env: CleanupEnv, at: int)
    requires b.rental.Some? && host == b.rental.value.host && b.term.Some? && CleanupConfirmed(b, host, env, at).Err?
    ensures var r := RecordCleanup(b, host, env, at);
            && r.Ok? && r.value.term.Some? && r.value.journal == b.journal && r.value.award == b.award
            && var t, u := b.term.value, r.value.term.value;
            && u.status == FinancePending && u.version == t.version + 1
            && u.confirmed == (if t.confirmed.Some? then t.confirmed else Some(at))
            && u.frozen == t.frozen && u.claim == t.claim && u.cap == t.cap
  {
    ReceiptIsNoEvidence(b, if b.receipt.Some? then b.receipt else Some(at));
    hide Accept, Evidence, SettleCleanup;
  }

  // ---------------------------------------------------------------- the stake

  /** What is at stake is the cap until money is split, and afterwards whatever has not been
      returned to the buyer. */
  lemma StakeMeans(b: Book)
    requires Sound(b) && b.term.Some?
    ensures var t := b.term.value;
            Stake(t) ==
            if t.confirmed.Some? && t.status != FinancePending then t.frozen.remaining - t.returned else t.cap
  {
    hide Total, SumOn, JournalOk, Places, LiabilityOk, RentalOk, Compensation, PeriodEvidence, TermsEvidence;
  }

  // ---------------------------------------------------------------- decisions

  /** An unanswered claim that has been open for three days. */
  predicate Overdue(t: Termination, at: int) {
    && t.claim.responsibility == Undetermined && t.claim.respondedAt.None?
    && t.claim.openedAt.Some? && at >= t.claim.openedAt.value + 259_200_000
  }

  /** The amount that can still be decided on. */
  function Disputable(t: Termination): int { if t.confirmed.Some? then t.frozen.remaining - t.returned else t.cap }

  /** The person, the moment and the record allow the decision. */
  predicate MayDecide(b: Book, t: Termination, who: Authority, version: int, at: int) {
    && (who.ProviderActor? ==> who.user == t.frozen.provider)
    && (who.BuyerWithdrawal? ==> who.user == t.frozen.buyer && t.claim.responsibility == Undetermined)
    && (who.Timeout? <==> Overdue(t, at))
    && t.status != FinancePending && version == t.version
    && (t.confirmed.Some? ==> Disputable(t) > 0)
    && (b.award.Some? ==> b.award.value.credited == 0)
    && (b.award.Some? && t.confirmed.Some? && t.compensation > 0 && t.status != Disputed ==>
          at < b.award.value.unlockAt)
  }

  /** The decision itself is one this authority may make. */
  predicate Permissible(t: Termination, who: Authority, d: Decision) {
    && d.note.chars >= 3 && d.note.bytes <= 2000
    && d.responsibility.Some? && d.responsibility.value != Undetermined
    && d.award.Some? && 0 <= d.award.value <= Disputable(t)
    && (d.award.value > 0 ==> d.responsibility.value == BuyerFault)
    && (who.ProviderActor? ==> d.award.value < Disputable(t) || Disputable(t) == 0)
    && (who.BuyerWithdrawal? ==> d.award.value == Disputable(t) && d.responsibility.value == BuyerFault)
    && (who.Timeout? ==> d.award.value == 0)
  }

  /** The reduction, if money has been split, can be paid. */
  predicate Payable(b: Book, t: Termination, cut: int, fin: Finance) {
    t.confirmed.Some? && cut > 0 ==>
      && fin.room
      && (t.compensation > 0 ==> Balance(b, ProviderPending(t.frozen.provider)) <= -cut)
  }

  lemma GuardIff(b: Book, t: Termination, who: Authority, d: Decision, fin: Finance, at: int)
    requires b.term == Some(t) && Evidence(b) && 0 <= Stake(t)
    requires t.status != FinancePending ==> Stake(t) == Disputable(t)
    requires t.claim.responsibility == Undetermined ==> t.claim.used
    requires b.award.Some? ==> 0 <= b.award.value.credited
    ensures DecisionGuard(b, who, d, fin, at).None? <==>
              MayDecide(b, t, who, d.version, at) && Permissible(t, who, d) && fin.safe
  {
    hide Evidence, Stake;
  }

  /** A decision on a sound record is admitted exactly when the person may decide now, the
      decision is one they may make, finances are safe and the reduction can be paid. */
  lemma DecisionIff(b: Book, who: Authority, d: Decision, fin: Finance, at: int)
    requires Sound(b) && b.term.Some?
    ensures var t := b.term.value;
            Decide(b, who, d, fin, at).Ok? <==>
              && MayDecide(b, t, who, d.version, at) && Permissible(t, who, d) && fin.safe
              && Payable(b, t, Disputable(t) - d.award.value, fin)
  {
    var t := b.term.value;
    StakeMeans(b);
    ClaimHasDeadline(b);
    HoldIsCovered(b);
    assert Evidence(b) && 0 <= Stake(t) && (b.award.Some? ==> 0 <= b.award.value.credited);
    hide Sound, Evidence, Stake, Total, DecisionGuard, Decided;
    GuardIff(b, t, who, d, fin, at);
  }

  /** A hold is always covered by the period's own liability. */
  lemma HoldIsCovered(b: Book)
    requires Sound(b) && b.term.Some?
    ensures var t := b.term.value;
            t.confirmed.Some? && t.status != FinancePending && t.compensation <= 0 && Stake(t) > 0 ==>
              t.frozen.period.Some? && Balance(b, Unfulfilled(t.frozen.period.value)) == -Stake(t)
  {
    hide Compensation, Total, SumOn, JournalOk, TermsEvidence;
  }

  /** Nobody but the parties decides: another user gets no further than that. */
  lemma StrangersAreForbidden(b: Book, who: Authority, d: Decision, fin: Finance, at: int)
    requires b.term.Some?
    requires (who.ProviderActor? && who.user != b.term.value.frozen.provider)
             || (who.BuyerWithdrawal? && who.user != b.term.value.frozen.buyer)
    ensures Decide(b, who, d, fin, at) == Err(Forbidden)
  {
    hide Evidence, Covers;
  }

  /** What a decision leaves behind. A Provider's waiver of everything makes the Provider
      responsible; a Provider's offer of a part keeps the responsibility as it was and is the
      first answer to an open claim; everyone else's word on responsibility stands. */
  lemma DecisionLeaves(b: Book, who: Authority, d: Decision, fin: Finance, at: int)
    requires Sound(b) && b.term.Some? && Decide(b, who, d, fin, at).Ok?
    ensures var t := b.term.value;
            var e := Decide(b, who, d, fin, at).value;
            && e.term.Some? && d.award.Some? && d.responsibility.Some?
            && var u := e.term.value;
            && u.frozen == t.frozen && u.confirmed == t.confirmed && u.version == t.version + 1
            && u.claim.used == t.claim.used && u.claim.openedAt == t.claim.openedAt
            && u.claim.responsibility == (if !who.ProviderActor? then d.responsibility.value
                                          else if d.award.value == 0 then ProviderFault
                                          else t.claim.responsibility)
            && u.claim.respondedAt == (if who.ProviderActor? && t.claim.responsibility == Undetermined
                                          && t.claim.respondedAt.None? then Some(at) else t.claim.respondedAt)
  {
    RefusalAdmits(b, who, d, fin, at);
    hide Sound, Evidence, DecisionRefusal, Moved, RefundPeriod, NewAward, Stake;
  }

  /** The money side of a decision. Before the split only the cap moves; afterwards the record
      stays disputed exactly while responsibility is open, and a hold released to the Provider
      becomes a seven-day award of exactly the decided amount, starting now. */
  lemma DecisionSettles(b: Book, who: Authority, d: Decision, fin: Finance, at: int)
    requires Sound(b) && b.term.Some? && Decide(b, who, d, fin, at).Ok?
    ensures var t := b.term.value;
            var e := Decide(b, who, d, fin, at).value;
            && e.term.Some? && d.award.Some?
            && var u := e.term.value;
            && (t.confirmed.None? ==> u.cap == d.award.value && u.status == t.status)
            && (t.confirmed.Some? ==> (u.status == Disputed <==> u.claim.responsibility == Undetermined))
            && (b.award.None? && e.award.Some? ==>
                  && e.award.value.awardedAt == at && e.award.value.unlockAt == at + 604_800_000
                  && e.award.value.amount == d.award.value)
  {
    RefusalAdmits(b, who, d, fin, at);
    DecideSound(b, who, d, fin, at);
    StatusFollowsClaim(Decide(b, who, d, fin, at).value);
    StatusFollowsClaim(b);
    hide Sound, Evidence, DecisionRefusal, Moved, RefundPeriod, DecidedResponse, Stake;
  }

  lemma StatusFollowsClaim(b: Book)
    requires Sound(b) && b.term.Some?
    ensures b.term.value.confirmed.Some? && b.term.value.status != FinancePending ==>
              (b.term.value.status == Disputed <==> b.term.value.claim.responsibility == Undetermined)
    ensures b.term.value.confirmed.Some? && b.term.value.status != FinancePending && b.term.value.compensation > 0 ==>
              b.award.Some?
    ensures 0 <= b.term.value.compensation
  {
    hide Total, SumOn, JournalOk, Places, LiabilityOk, RentalOk, Compensation, PeriodEvidence, TermsEvidence;
  }

  // ---------------------------------------------------------------- claims

  /** A formal answer is accepted exactly from the Provider, on the current version of an open,
      unanswered claim, strictly before three days are over, with a proper note. */
  lemma ResponseIff(b: Book, user: string, version: int, note: Note, at: int)
    requires Sound(b) && b.term.Some?
    ensures var t := b.term.value;
            Respond(b, user, version, note, at).Ok? <==>
              && user == t.frozen.provider && version == t.version
              && t.claim.responsibility == Undetermined && t.claim.respondedAt.None?
              && t.claim.openedAt.Some? && at < t.claim.openedAt.value + 259_200_000
              && note.chars >= 3 && note.bytes <= 2000
    ensures user != b.term.value.frozen.provider ==> Respond(b, user, version, note, at) == Err(Forbidden)
    ensures Respond(b, user, version, note, at).Ok? ==>
              var u := Respond(b, user, version, note, at).value.term.value;
              u.claim.respondedAt == Some(at) && u.version == b.term.value.version + 1
  {
    ClaimHasDeadline(b);
    if b.term.value.claim.responsibility == Undetermined {
      OpenClaimHasStake(b);
    }
    hide Sound, Stake;
  }

  lemma OpenClaimHasStake(b: Book)
    requires Sound(b) && b.term.Some? && b.term.value.claim.responsibility == Undetermined
    ensures Stake(b.term.value) > 0
  {
    hide Total, SumOn, JournalOk, Places, LiabilityOk, RentalOk, Compensation, Evidence;
  }

  /** The buyer opens a claim exactly once, on the current version, with a short statement,
      while something is at stake, nothing has been credited and the award, if money has been
      split, is live and not yet mature. The claim starts its own three days and holds the award. */
  lemma DisputeIff(b: Book, user: string, version: int, claimBytes: nat, at: int)
    requires Sound(b) && b.term.Some?
    ensures var t := b.term.value;
            Dispute(b, user, version, claimBytes, at).Ok? <==>
              && user == t.frozen.buyer && version == t.version && t.status != FinancePending
              && !t.claim.used && claimBytes <= 2000
              && (t.confirmed.None? ==> t.cap > 0)
              && (t.confirmed.Some? ==>
                    && b.award.Some? && b.award.value.credited == 0 && at < b.award.value.unlockAt
                    && b.award.value.amount > b.award.value.reversed)
    ensures user != b.term.value.frozen.buyer ==>
              Dispute(b, user, version, claimBytes, at) == Err(Forbidden)
    ensures Dispute(b, user, version, claimBytes, at).Ok? ==>
              var e := Dispute(b, user, version, claimBytes, at).value;
              var t, u := b.term.value, e.term.value;
              && u.claim.responsibility == Undetermined && u.claim.used
              && u.claim.openedAt == Some(at) && u.claim.respondedAt.None?
              && u.version == t.version + 1
              && (t.confirmed.Some? ==> u.status == Disputed && e.award.value.disputed)
              && (t.confirmed.None? ==> u.status == t.status && u.cap == t.cap)
  {
    var t := b.term.value;
    assert t.confirmed.None? ==> b.award.None?;
    assert t.compensation == (if b.award.Some? then b.award.value.amount - b.award.value.reversed else 0);
    assert 0 <= t.compensation && 0 <= t.cap && (b.award.Some? ==> b.award.value.amount <= t.cap);
    assert b.award.Some? ==> 0 <= b.award.value.reversed && 0 <= b.award.value.credited;
    hide Sound;
  }

  // ---------------------------------------------------------------- credit

  /** An award is paid, in full and to its Provider's wallet, exactly when it is seven days
      old, undisputed, not used up and not yet paid, its Provider may manage earnings, finances
      are safe, the pending account covers it and the wallet has room. */
  lemma CreditPaysIff(b: Book, canManage: bool, fin: Finance, at: int)
    requires Sound(b) && b.term.Some?
    ensures var t := b.term.value;
            (Credit(b, canManage, fin, at).Ok? && Credit(b, canManage, fin, at).value != b) <==>
              && b.award.Some?
              && var c := b.award.value;
              && at >= c.awardedAt + 604_800_000 && !c.disputed && c.amount > c.reversed && c.credited == 0
              && canManage && fin.safe && fin.room
              && Balance(b, ProviderPending(t.frozen.provider)) <= -(c.amount - c.reversed)
  {
    AwardColumns(b);
    hide Sound, Evidence, Total, KeyUsed, Transfer;
    if Credit(b, canManage, fin, at).Ok? {
      assert |Credit(b, canManage, fin, at).value.journal| > |b.journal| || Credit(b, canManage, fin, at).value == b;
    }
  }

  /** What a payment changes: the award row and the two accounts, nothing else. */
  lemma CreditMoves(b: Book, canManage: bool, fin: Finance, at: int)
    requires Sound(b) && b.term.Some?
    ensures var r := Credit(b, canManage, fin, at);
            r.Ok? && r.value != b ==>
              && r.value.award == Some(b.award.value.(credited := b.award.value.amount - b.award.value.reversed,
                                                      creditEntry := Some(|b.journal|)))
              && r.value.term == b.term && r.value.rental == b.rental
              && Balance(r.value, WalletAvailable(b.term.value.frozen.provider))
                 == Balance(b, WalletAvailable(b.term.value.frozen.provider)) - r.value.award.value.credited
              && Balance(r.value, ProviderPending(b.term.value.frozen.provider))
                 == Balance(b, ProviderPending(b.term.value.frozen.provider)) + r.value.award.value.credited
  {
    var t := b.term.value;
    AwardColumns(b);
    hide Sound, Evidence, Balance, KeyUsed, Transfer;
    var r := Credit(b, canManage, fin, at);
    if r.Ok? && r.value != b {
      PostMoves(b, r.value, ProviderPending(t.frozen.provider), WalletAvailable(t.frozen.provider), t.compensation);
    }
  }

  lemma PostMoves(b: Book, d: Book, from: Account, to: Account, units: int)
    requires from != to && d.foreign == b.foreign
    requires d.journal == b.journal + [Transfer(ClientCompensation, AutomaticCredit, from, to, units)]
    ensures Balance(d, from) == Balance(b, from) + units && Balance(d, to) == Balance(b, to) - units
  {
    hide Total;
    TransferSums(ClientCompensation, AutomaticCredit, from, to, units);
    TotalAppend(b.journal, Transfer(ClientCompensation, AutomaticCredit, from, to, units), Every, from);
    TotalAppend(b.journal, Transfer(ClientCompensation, AutomaticCredit, from, to, units), Every, to);
  }

  /** The columns of an award in a sound record. */
  lemma AwardColumns(b: Book)
    requires Sound(b) && b.term.Some?
    ensures Evidence(b)
    ensures b.award.Some? ==>
              var c, t := b.award.value, b.term.value;
              && c.unlockAt == c.awardedAt + 604_800_000
              && t.compensation == c.amount - c.reversed && 0 <= t.compensation
              && (c.credited == 0 || c.credited == t.compensation)
              && (t.status == Completed || t.status == Disputed) && (c.disputed <==> t.status == Disputed)
              && (c.credited == 0 ==> !KeyUsed(b.journal, ClientCompensation, AutomaticCredit))
  {
    hide Total, SumOn, Places, LiabilityOk, RentalOk, Compensation, PeriodEvidence, TermsEvidence;
  }

  // ---------------------------------------------------------------- the audit

  /** The audit leaves no column free. Two records with the same journal, the same snapshot and
      the same phase that both pass it, and whose awards name the same entries and the same day,
      agree on what was returned, compensated and held, on the whole award row and on the
      period's own totals: changing any one of them alone is noticed. */
  lemma EvidenceFixesEveryColumn(b: Book, d: Book)
    requires Evidence(b) && Evidence(d) && b.journal == d.journal
    requires b.term.value.frozen == d.term.value.frozen && b.term.value.status == d.term.value.status
    requires Settled(b.term.value) && Settled(d.term.value)
    requires b.award.Some? <==> d.award.Some?
    requires b.award.Some? ==>
               && b.award.value.entry == d.award.value.entry && b.award.value.awardedAt == d.award.value.awardedAt
               && b.award.value.creditEntry == d.award.value.creditEntry
    ensures var t, u := b.term.value, d.term.value;
            t.returned == u.returned && t.compensation == u.compensation && t.held == u.held
    ensures b.award == d.award
    ensures b.term.value.frozen.period.Some? ==>
              var p, q := b.rental.value.period.value, d.rental.value.period.value;
              && p.id == q.id && p.amount == q.amount && p.contract == q.contract && p.compensation == q.compensation
              && p.fulfilled + p.refunded == q.fulfilled + q.refunded
  {
    hide Total, SumOn;
    if b.award.Some? {
      var c, e := b.award.value, d.award.value;
      assert c.provider == e.provider && c.amount == e.amount && c.reversed == e.reversed;
      assert c.credited == e.credited;
      assert c == e;
    }
  }
}
