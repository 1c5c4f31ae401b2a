/** The termination transactions as the Router runs them: rows updated one statement at
    a time. Every write of a row goes through a writer whose precondition is that table's
    CHECK constraints, key and triggers, so each call proves that the statement cannot be
    aborted; each transaction is proved to end in the book its specification names, or to
    leave the rows alone. */
module TerminationStore {
  import opened Base
  import opened Journal
  import opened TerminationModel
  import opened TerminationInvariant

  /** CHECK constraints of `client_market_terminations`. */
  predicate RowChecks(t: Termination) {
    && 0 <= t.cap <= t.frozen.remaining
    && 0 <= t.returned && 0 <= t.compensation && 0 <= t.held
    && t.returned + t.compensation + t.held <= t.frozen.remaining
    && (t.claim.used ==> t.claim.openedAt.Some?)
    && (t.claim.respondedAt.Some? ==> t.claim.used)
  }

  /** Trigger `trg_client_termination_snapshot_immutable`. */
  predicate RowUpdateAllowed(t: Termination, u: Termination) {
    && u.frozen == t.frozen
    && u.cap <= t.cap
    && (t.claim.used ==> u.claim.used)
    && (t.claim.openedAt.Some? ==> u.claim.openedAt == t.claim.openedAt)
    && (t.claim.respondedAt.Some? ==> u.claim.respondedAt == t.claim.respondedAt)
  }

  /** CHECK constraints and conservation trigger of the period row. */
  predicate PeriodChecks(p: Period) {
    && 0 <= p.fulfilled && 0 <= p.refunded && 0 <= p.compensation
    && p.fulfilled + p.refunded + p.compensation <= p.amount
  }

  /** CHECK constraints of `client_termination_compensations`. */
  predicate AwardChecks(c: AwardRow) {
    0 < c.amount && 0 <= c.reversed && 0 <= c.credited && c.reversed + c.credited <= c.amount
  }

  predicate AwardUpdateAllowed(c: AwardRow, d: AwardRow) {
    && d.provider == c.provider && d.amount == c.amount && d.entry == c.entry
    && d.awardedAt == c.awardedAt && d.unlockAt == c.unlockAt
  }

  /** After the hold is released: `rest` can be held again or awarded without failing. */
  ghost predicate RestFits(b: Book, t: Termination, rest: int) {
    && b.award.None? && b.term.Some? && RowChecks(b.term.value)
    && RowChecks(b.term.value.(held := rest)) && RowChecks(b.term.value.(compensation := rest))
    && b.rental.Some? && b.rental.value.period.Some? && PeriodChecks(b.rental.value.period.value)
    && 0 <= rest <= PeriodRemaining(b.rental.value.period.value) && rest <= t.cap
    && !KeyUsed(b.journal, ClientTermination, Award)
    && var limit := Compensation(t.frozen.amount, t.frozen.remaining, t.frozen.rate);
       limit.Ok? && rest <= limit.value
  }

  class Ledger {
    var rental: Option<Rental>
    var term: Option<Termination>
    var award: Option<AwardRow>
    var journal: seq<Entry>
    var foreign: map<Account, int>
    var receipt: Option<int>

    function Snapshot(): Book reads this { Book(rental, term, award, journal, foreign, receipt) }

    ghost predicate Valid() reads this { Sound(Snapshot()) }

    constructor (b: Book)
      requires Sound(b)
      ensures Valid() && Snapshot() == b
    {
      rental, term, award, journal, foreign, receipt := b.rental, b.term, b.award, b.journal, b.foreign, b.receipt;
    }

    /** ROLLBACK of a transaction or savepoint. */
    method Restore(b: Book)
      modifies this
      ensures Snapshot() == b
    {
      rental, term, award, journal, foreign, receipt := b.rental, b.term, b.award, b.journal, b.foreign, b.receipt;
    }

    method UpdateTermination(u: Termination)
      requires term.Some? && RowChecks(u) && RowUpdateAllowed(term.value, u)
      modifies this`term
      ensures term == Some(u)
    {
      term := Some(u);
    }

    method UpdatePeriod(p: Period)
      requires rental.Some? && rental.value.period.Some? && PeriodChecks(p)
      modifies this`rental
      ensures rental == Some(old(rental).value.(period := Some(p)))
    {
      rental := Some(rental.value.(period := Some(p)));
    }

    method UpdateAward(c: AwardRow)
      requires award.Some? && AwardChecks(c) && AwardUpdateAllowed(award.value, c)
      modifies this`award
      ensures award == Some(c)
    {
      award := Some(c);
    }

    method InsertTermination(u: Termination)
      requires term.None? && RowChecks(u)
      modifies this`term
      ensures term == Some(u)
    {
      term := Some(u);
    }

    /** The award's key is the termination, so there is at most one. */
    method InsertAward(c: AwardRow)
      requires award.None? && AwardChecks(c)
      modifies this`award
      ensures award == Some(c)
    {
      award := Some(c);
    }

    /** A journal transaction: unused key, postings that cancel out. */
    method Post(e: Entry)
      requires !KeyUsed(journal, e.source, e.action) && Balanced(e)
      modifies this`journal
      ensures journal == old(journal) + [e]
    {
      journal := journal + [e];
    }

    /** Delivered and unavailable units of the period leave the unfulfilled liability. */
    method SettleService(tail: Tail)
      requires rental.Some? && TailFits(rental.value, tail)
      requires rental.value.period.Some? ==> PeriodChecks(rental.value.period.value)
      modifies this`rental, this`foreign
      ensures Snapshot() == SettleTail(old(Snapshot()), old(rental).value, tail)
    {
      if rental.value.period.Some? {
        var p, wallet := rental.value.period.value, WalletAvailable(rental.value.buyer);
        foreign := foreign[Unfulfilled(p.id) :=
            Foreign(Snapshot(), Unfulfilled(p.id)) + tail.delivered + tail.unavailable]
                          [wallet := Foreign(Snapshot(), wallet) - tail.unavailable];
        UpdatePeriod(p.(fulfilled := p.fulfilled + tail.delivered, refunded := p.refunded + tail.unavailable,
                        open := p.open && !tail.closes));
      }
    }

    /** The checks of `accept_tx`, in order. */
    method CheckAcceptance(a: Acceptance) returns (refusal: Option<Error>)
      ensures refusal == AcceptanceRefusal(Snapshot(), a)
    {
      if rental.None? { return Some(NotFound); }
      var r := rental.value;
      var basis := BasisOf(r);
      if basis.Err? { return Some(basis.error); }
      if a.actor.Some? && a.actor != Some(r.buyer) && a.actor != Some(r.provider) { return Some(Forbidden); }
      if a.release || (a.actor == Some(r.buyer) && a.actor != Some(r.provider)) {
        if a.actor != Some(r.buyer) { return Some(Forbidden); }
        if a.request.None? || !a.request.value.previewValid { return Some(Conflict); }
        if a.request.value.reason == OtherReason || a.request.value.claimBytes > 2000 { return Some(BadRequest); }
      }
      if r.contract.Some? && (!a.tail.ok || !TailFits(r, a.tail)) { return Some(Internal); }
      return None;
    }

    /** `accept_tx`: freeze the snapshot of an exit; a replay changes nothing. */
    method AcceptExit(a: Acceptance, at: int) returns (error: Option<Error>)
      requires Valid()
      modifies this
      ensures match Accept(old(Snapshot()), a, at)
              case Ok(b) => error.None? && Snapshot() == b
              case Err(e) => error == Some(e) && Snapshot() == old(Snapshot())
      ensures Valid()
    {
      AcceptSound(Snapshot(), a, at);
      if term.Some? { return None; }
      AcceptedChecks(Snapshot(), a, at);
      var refusal := CheckAcceptance(a);
      hide Sound, Compensation, OpenTermination, SettleTail, RowChecks, OpeningResponsibility, PeriodRemaining;
      if refusal == Some(NotFound) && !a.release { return None; }
      if refusal.Some? { return refusal; }
      var saved, r := Snapshot(), rental.value;
      assert r.contract.Some? ==> TailFits(r, a.tail);
      hide AcceptanceRefusal, TailFits;
      var voluntary := IsVoluntary(r, a);
      if r.contract.Some? { SettleService(a.tail); }
      // Settling the tail leaves the contract identity alone, so this read cannot be refused.
      var basis := BasisOf(rental.value).value;
      var cap := if voluntary && basis.eligible then Compensation(basis.amount, basis.remaining, basis.rate) else Ok(0);
      if cap.Err? { Restore(saved); return Some(cap.error); }
      InsertTermination(OpenTermination(rental.value, basis, voluntary, OpeningResponsibility(r, a, voluntary),
          cap.value, at));
      return None;
    }

    /** `return_tx`: pay the buyer out of a liability. A wallet without room is noticed after
        the posting, and the transaction is rolled back by the caller. */
    method PayBuyer(t: Termination, units: int, from: Account, action: Action, room: bool)
        returns (error: Option<Error>)
      requires term.Some? && term.value.frozen == t.frozen
      requires RowChecks(term.value)
      requires 0 <= units && from != WalletAvailable(t.frozen.buyer)
      requires term.value.returned + units + term.value.compensation + term.value.held <= t.frozen.remaining
      requires t.frozen.period.Some? ==>
                 && rental.Some? && rental.value.period.Some? && PeriodChecks(rental.value.period.value)
                 && units <= PeriodRemaining(rental.value.period.value)
      modifies this`term, this`rental, this`journal
      ensures error == if units == 0 then None
                       else if KeyUsed(old(journal), ClientTermination, action) then Some(Internal)
                       else if !Covers(old(Snapshot()), from, units) then Some(Conflict)
                       else if !room then Some(Internal)
                       else None
      ensures var noRoom := !KeyUsed(old(journal), ClientTermination, action) && Covers(old(Snapshot()), from, units);
              error.Some? && !noRoom ==> Snapshot() == old(Snapshot())
      ensures error.None? ==>
                Snapshot() == old(Snapshot()).(
                  term := Some(old(term).value.(returned := old(term).value.returned + units)),
                  rental := if t.frozen.period.Some? then RefundPeriod(old(Snapshot()), units, 0) else old(rental),
                  journal := old(journal) + Moved(action, from, WalletAvailable(t.frozen.buyer), units))
    {
      hide KeyUsed, Covers, Balanced;
      if units == 0 { return None; }
      if KeyUsed(journal, ClientTermination, action) { return Some(Internal); }
      if !Covers(Snapshot(), from, units) { return Some(Conflict); }
      TransferBalanced(ClientTermination, action, from, WalletAvailable(t.frozen.buyer), units);
      Post(Transfer(ClientTermination, action, from, WalletAvailable(t.frozen.buyer), units));
      if !room { return Some(Internal); }
      UpdateTermination(term.value.(returned := term.value.returned + units));
      if t.frozen.period.Some? {
        var p := rental.value.period.value;
        UpdatePeriod(p.(refunded := p.refunded + units));
      }
      return None;
    }

    /** `award_tx`: promise the Provider compensation out of the unfulfilled liability. */
    method GrantAward(t: Termination, units: int, at: int) returns (error: Option<Error>)
      requires term.Some? && term.value.frozen == t.frozen && RowChecks(term.value)
      requires 0 < units ==>
                 && award.None?
                 && term.value.returned + units + term.value.held <= t.frozen.remaining
                 && rental.Some? && rental.value.period.Some? && PeriodChecks(rental.value.period.value)
                 && units <= PeriodRemaining(rental.value.period.value)
      modifies this`term, this`rental, this`journal, this`award
      requires t.frozen.period.Some?
      ensures var limit := Compensation(t.frozen.amount, t.frozen.remaining, t.frozen.rate);
              error == if units == 0 then None
                       else if units < 0 || units > t.cap || limit.Err? || units > limit.value
                            || KeyUsed(old(journal), ClientTermination, Award) then Some(Internal)
                       else None
      ensures error.Some? ==> Snapshot() == old(Snapshot())
      ensures error.None? ==>
                Snapshot() == old(Snapshot()).(
                  term := if units == 0 then old(term) else Some(old(term).value.(compensation := units)),
                  award := if units == 0 then old(award)
                      else Some(NewAward(t.frozen.provider, units, |old(journal)|, at)),
                  rental := RefundPeriod(old(Snapshot()), 0, units),
                  journal := old(journal) + Moved(Award, Unfulfilled(t.frozen.period.value),
                      ProviderPending(t.frozen.provider), units))
    {
      hide KeyUsed, Balanced, Compensation;
      if units == 0 { return None; }
      if units < 0 || units > t.cap { return Some(Internal); }
      var limit := Compensation(t.frozen.amount, t.frozen.remaining, t.frozen.rate);
      if limit.Err? || units > limit.value { return Some(Internal); }
      if KeyUsed(journal, ClientTermination, Award) { return Some(Internal); }
      var source, pending := Unfulfilled(t.frozen.period.value), ProviderPending(t.frozen.provider);
      var entry := |journal|;
      TransferBalanced(ClientTermination, Award, source, pending, units);
      Post(Transfer(ClientTermination, Award, source, pending, units));
      InsertAward(NewAward(t.frozen.provider, units, entry, at));
      UpdateTermination(term.value.(compensation := units));
      var p := rental.value.period.value;
      UpdatePeriod(p.(compensation := p.compensation + units));
      return None;
    }

    /** The money part of a verified monthly cleanup, in the order the statements run. */
    method SplitRemainder(t: Termination, room: bool, at: int) returns (error: Option<Error>)
      requires Valid() && term == Some(t) && !Settled(t) && t.frozen.period.Some?
      modifies this`term, this`rental, this`journal, this`award
      ensures error == if PlannedSplit(t).returned > 0 && !room then Some(Internal) else None
      ensures var s := PlannedSplit(t);
              error.None? ==> term == Some(t.(returned := s.returned, compensation := s.compensation, held := s.held))
      ensures error.None? && t.frozen.contract.Some? ==>
                var goal := SettleCleanup(old(Snapshot()), t, at);
                journal == goal.journal && award == goal.award && rental == goal.rental
    {
      hide Sound, Compensation, KeyUsed, Total, Moved, Covers;
      var s := PlannedSplit(t);
      PlanFits(Snapshot(), t);
      error := PayBuyer(t, s.returned, Unfulfilled(t.frozen.period.value), ReturnUnused(t.version), room);
      if error.Some? { return; }
      error := GrantAward(t, s.compensation, at);
      if error.Some? { return; }
      UpdateTermination(term.value.(held := s.held));
      var p := rental.value.period.value;
      UpdatePeriod(p.(open := false));
    }

    method Settle(t: Termination, env: CleanupEnv, at: int) returns (error: Option<Error>)
      requires Valid() && term == Some(t) && !Settled(t)
      modifies this
      ensures error == if WriteFails(t, env) then Some(Internal) else None
      ensures error.None? ==> Snapshot() == SettleCleanup(old(Snapshot()), t, at)
    {
      hide Sound, Compensation, Total, Moved;
      UnsettledChecks(Snapshot(), t);
      if t.frozen.contract.Some? && t.frozen.period.Some? {
        error := SplitRemainder(t, env.room, at);
        if error.Some? { return; }
      }
      if t.frozen.contract.Some? && !env.released { return Some(Internal); }
      UpdateTermination(term.value.(confirmed := Some(at),
                                    status := if term.value.held > 0 then Disputed else Completed,
                                    version := term.value.version + 1));
      error := None;
    }

    /** `cleanup_confirmed_tx`: split the remainder once cleanup is verified. */
    method ConfirmCleanup(host: string, env: CleanupEnv, at: int) returns (error: Option<Error>)
      requires Valid()
      modifies this
      ensures match CleanupConfirmed(old(Snapshot()), host, env, at)
              case Ok(b) => error.None? && Snapshot() == b
              case Err(e) => error == Some(e) && Snapshot() == old(Snapshot())
      ensures Valid()
    {
      CleanupConfirmedSound(Snapshot(), host, env, at);
      AcceptSound(Snapshot(), Acceptance(None, false, None, env.tail), env.cutoff);
      hide Sound, Accept, SettleCleanup, CleanupRefusal;
      var saved := Snapshot();
      if term.None? {
        if rental.None? || rental.value.host != host { return Some(Conflict); }
        error := AcceptExit(Acceptance(None, false, None, env.tail), env.cutoff);
        if error.Some? { return; }
        if term.None? { Restore(saved); return Some(Internal); }
      }
      var t := term.value;
      if t.frozen.host != host { Restore(saved); return Some(Conflict); }
      if Settled(t) { return None; }
      var refusal := CleanupRefusal(Snapshot(), t, env);
      if refusal.Some? { Restore(saved); return refusal; }
      if t.frozen.contract.Some? && t.frozen.period.None? && env.terminate == NotFinalized { return None; }
      error := Settle(t, env, at);
      if error.Some? { Restore(saved); }
    }

    /** `record_cleanup_confirmed_tx`: the receipt survives a financial failure. */
    method RecordVerifiedCleanup(host: string, env: CleanupEnv, at: int) returns (error: Option<Error>)
      requires Valid()
      modifies this
      ensures match RecordCleanup(old(Snapshot()), host, env, at)
              case Ok(b) => error.None? && Snapshot() == b
              case Err(e) => error == Some(e) && Snapshot() == old(Snapshot())
      ensures Valid()
    {
      hide Sound, CleanupConfirmed;
      RecordCleanupSound(Snapshot(), host, env, at);
      if rental.None? { return None; }
      if rental.value.host != host { return Some(Conflict); }
      ReceiptSound(Snapshot(), if receipt.Some? then receipt else Some(at));
      if receipt.None? { receipt := Some(at); }
      var failure := ConfirmCleanup(host, env, at);
      if failure.Some? && term.Some? {
        SoundRows(Snapshot());
        hide RowChecks;
        UpdateTermination(term.value.(confirmed := if term.value.confirmed.Some? then term.value.confirmed
            else Some(at),
                                      status := FinancePending,
                                      version := term.value.version + 1));
      }
      error := None;
    }

    /** The money part of a decision on a live award: the projection is released before
        the wallet credit, so every statement passes the row checks. */
    method ReduceAward(t: Termination, award0: int, still: bool, room: bool) returns (error: Option<Error>)
      requires Valid() && term == Some(t) && Settled(t) && t.compensation > 0 && Credited(Snapshot()) == 0
      requires 0 <= award0 <= t.compensation
      modifies this`term, this`rental, this`journal, this`award
      ensures var cut := t.compensation - award0;
              error == if cut > 0 && !Covers(old(Snapshot()), ProviderPending(t.frozen.provider), cut)
                       then Some(Conflict)
                       else if cut > 0 && !room then Some(Internal)
                       else None
      ensures error.None? ==> term.Some? && RowChecks(term.value)
      ensures var cut := t.compensation - award0;
              var b := old(Snapshot());
              error.None? ==>
                && term == Some(t.(compensation := award0, returned := t.returned + cut))
                && b.award.Some?
                && award == Some(b.award.value.(reversed := b.award.value.reversed + cut, disputed := still))
                && rental == RefundPeriod(b, cut, -cut)
                && journal == b.journal + Moved(ReturnCompensation(t.version), ProviderPending(t.frozen.provider),
                    WalletAvailable(t.frozen.buyer), cut)
    {
      hide Sound, Compensation, KeyUsed, Total, Moved, Settled, Credited;
      AwardFits(Snapshot(), t, t.compensation - award0);
      var cut := t.compensation - award0;
      var c := award.value;
      UpdateAward(c.(reversed := c.reversed + cut, disputed := still));
      UpdateTermination(t.(compensation := award0));
      if t.frozen.period.Some? {
        var p := rental.value.period.value;
        UpdatePeriod(p.(compensation := p.compensation - cut));
      }
      error := PayBuyer(t, cut, ProviderPending(t.frozen.provider), ReturnCompensation(t.version), room);
    }

    /** Release the hold and pay the buyer's part; the rest fits another hold or an award. */
    method ReleaseHold(t: Termination, award0: int, room: bool) returns (error: Option<Error>)
      requires Valid() && term == Some(t) && Settled(t) && t.compensation == 0 && t.held > 0
      requires 0 <= award0 <= t.held
      modifies this`term, this`rental, this`journal
      ensures t.frozen.period.Some?
      ensures var cut := t.held - award0;
              error == if cut > 0 && !room then Some(Internal) else None
      ensures var cut, b := t.held - award0, old(Snapshot());
              error.None? ==>
                && term == Some(t.(held := 0, returned := t.returned + cut))
                && rental == RefundPeriod(b, cut, 0)
                && journal == b.journal + Moved(ReturnDisputed(t.version), Unfulfilled(t.frozen.period.value),
                                                WalletAvailable(t.frozen.buyer), cut)
      ensures error.None? ==> RestFits(Snapshot(), t, award0)
    {
      hide Sound, Compensation, KeyUsed, Total, Moved;
      HoldFits(Snapshot(), t, t.held - award0);
      UpdateTermination(t.(held := 0));
      error := PayBuyer(t, t.held - award0, Unfulfilled(t.frozen.period.value), ReturnDisputed(t.version), room);
    }

    /** The money part of a decision on held compensation. */
    method ResolveHold(t: Termination, award0: int, still: bool, room: bool, at: int) returns (error: Option<Error>)
      requires Valid() && term == Some(t) && Settled(t) && t.compensation == 0 && t.held > 0
      requires 0 <= award0 <= t.held
      modifies this`term, this`rental, this`journal, this`award
      ensures t.frozen.period.Some?
      ensures error == if t.held > award0 && !room then Some(Internal) else None
      ensures error.None? ==> term.Some? && RowChecks(term.value)
      ensures var cut, b := t.held - award0, old(Snapshot());
              var granted := if still then 0 else award0;
              var source := Unfulfilled(t.frozen.period.value);
              var j1 := b.journal + Moved(ReturnDisputed(t.version), source, WalletAvailable(t.frozen.buyer), cut);
              error.None? ==>
                && term == Some(t.(held := if still then award0 else 0, compensation := granted,
                    returned := t.returned + cut))
                && award == (if granted == 0 then b.award else Some(NewAward(t.frozen.provider, granted, |j1|, at)))
                && rental == RefundPeriod(b, cut, granted)
                && journal == j1 + Moved(Award, source, ProviderPending(t.frozen.provider), granted)
    {
      hide Sound, Compensation, KeyUsed, Total, Moved, RefundPeriod;
      ghost var b := Snapshot();
      error := ReleaseHold(t, award0, room);
      if error.Some? { return; }
      RefundTwice(b, Snapshot(), t.held - award0, award0);
      NothingMoved(Award, Unfulfilled(t.frozen.period.value), ProviderPending(t.frozen.provider));
      if still {
        UpdateTermination(term.value.(held := award0));
      } else {
        error := GrantAward(t, award0, at);
      }
    }

    /** The last statements of a decision: responsibility, status and version, then the time of
        a Provider's first answer. */
    method RecordOutcome(t: Termination, who: Authority, cap: int, responsibility: Responsibility, status: Status,
        at: int)
      requires term.Some? && RowChecks(term.value) && term.value.claim == t.claim
      requires 0 <= cap <= term.value.cap
      requires t.claim.responsibility == Undetermined ==> t.claim.used
      modifies this`term
      ensures term == Some(old(term).value.(cap := cap, status := status, version := t.version + 1,
                claim := t.claim.(responsibility := responsibility, respondedAt := DecidedResponse(who, t, at))))
    {
      UpdateTermination(term.value.(cap := cap, claim := t.claim.(responsibility := responsibility), status := status,
                                    version := t.version + 1));
      if who.ProviderActor? && t.claim.responsibility == Undetermined && t.claim.respondedAt.None? {
        UpdateTermination(term.value.(claim := term.value.claim.(respondedAt := Some(at))));
      }
    }

    /** A decision on a live award. */
    method DecideAward(t: Termination, who: Authority, award0: int, wanted: Responsibility, room: bool, at: int)
      returns (error: Option<Error>)
      requires Valid() && term == Some(t) && Settled(t) && t.compensation > 0 && Credited(Snapshot()) == 0
      requires 0 <= award0 <= t.compensation
      modifies this
      ensures var cut := t.compensation - award0;
              error == if cut > 0 && !Covers(old(Snapshot()), ProviderPending(t.frozen.provider), cut)
                       then Some(Conflict)
                       else if cut > 0 && !room then Some(Internal)
                       else None
      ensures error.None? ==> Snapshot() == Decided(old(Snapshot()), t, who, award0, wanted, at)
    {
      hide Sound, Covers, Moved, RefundPeriod, Decided, DecidedResponse, DecidedResponsibility, StillDisputed,
          RowChecks, AwardChecks;
      SoundRows(Snapshot());
      AwardDecided(Snapshot(), t, who, award0, wanted, at);
      var still := StillDisputed(who, t, award0);
      error := ReduceAward(t, award0, still, room);
      if error.Some? { return; }
      RecordOutcome(t, who, t.cap, DecidedResponsibility(who, t, award0, wanted), if still then Disputed
          else Completed, at);
    }

    /** A decision on held compensation. */
    method DecideHold(t: Termination, who: Authority, award0: int, wanted: Responsibility, room: bool, at: int)
      returns (error: Option<Error>)
      requires Valid() && term == Some(t) && Settled(t) && t.compensation == 0 && t.held > 0
      requires 0 <= award0 <= t.held
      modifies this
      ensures error == if t.held > award0 && !room then Some(Internal) else None
      ensures error.None? ==> Snapshot() == Decided(old(Snapshot()), t, who, award0, wanted, at)
    {
      hide Sound, Covers, Moved, RefundPeriod, Decided, DecidedResponse, DecidedResponsibility, StillDisputed,
          RowChecks, AwardChecks;
      SoundRows(Snapshot());
      HoldFits(Snapshot(), t, t.held - award0);
      HoldDecided(Snapshot(), t, who, award0, wanted, at);
      var still := StillDisputed(who, t, award0);
      error := ResolveHold(t, award0, still, room, at);
      if error.Some? { return; }
      RecordOutcome(t, who, t.cap, DecidedResponsibility(who, t, award0, wanted), if still then Disputed
          else Completed, at);
    }

    /** The writes of an admitted decision. */
    method WriteDecision(t: Termination, who: Authority, award0: int, wanted: Responsibility, room: bool, at: int)
      returns (error: Option<Error>)
      requires Valid() && term == Some(t) && Credited(Snapshot()) == 0
      requires 0 <= award0 <= Stake(t)
      requires t.confirmed.Some? ==> Settled(t) && Stake(t) > 0 && 0 <= t.compensation
      modifies this
      ensures var cut := Stake(t) - award0;
              error == if t.confirmed.Some? && t.compensation > 0 && cut > 0
                          && !Covers(old(Snapshot()), ProviderPending(t.frozen.provider), cut) then Some(Conflict)
                       else if t.confirmed.Some? && cut > 0 && !room then Some(Internal)
                       else None
      ensures error.None? ==> Snapshot() == Decided(old(Snapshot()), t, who, award0, wanted, at)
    {
      if t.confirmed.None? {
        SoundRows(Snapshot());
        hide Sound, DecidedResponse, DecidedResponsibility;
        RecordOutcome(t, who, award0, DecidedResponsibility(who, t, award0, wanted), t.status, at);
        error := None;
      } else if t.compensation > 0 {
        hide Sound, Covers, Decided;
        error := DecideAward(t, who, award0, wanted, room, at);
      } else {
        hide Sound, Covers, Decided;
        error := DecideHold(t, who, award0, wanted, room, at);
      }
    }

    /** `apply_decision_tx`. */
    method ApplyDecision(who: Authority, d: Decision, fin: Finance, at: int) returns (error: Option<Error>)
      requires Valid()
      modifies this
      ensures match Decide(old(Snapshot()), who, d, fin, at)
              case Ok(b) => error.None? && Snapshot() == b
              case Err(e) => error == Some(e) && Snapshot() == old(Snapshot())
      ensures Valid()
    {
      hide Sound, DecisionGuard, Covers, Decided;
      DecideSound(Snapshot(), who, d, fin, at);
      var saved := Snapshot();
      var refusal := DecisionGuard(saved, who, d, fin, at);
      if refusal.Some? { return refusal; }
      GuardFacts(saved, who, d, fin, at);
      error := WriteDecision(term.value, who, d.award.value, d.responsibility.value, fin.room, at);
      if error.Some? { Restore(saved); }
    }

    /** `respond_tx`: a formal answer, strictly before the deadline. */
    method AnswerClaim(user: string, version: int, note: Note, at: int) returns (error: Option<Error>)
      requires Valid()
      modifies this
      ensures match Respond(old(Snapshot()), user, version, note, at)
              case Ok(b) => error.None? && Snapshot() == b
              case Err(e) => error == Some(e) && Snapshot() == old(Snapshot())
      ensures Valid()
    {
      hide Sound;
      RespondSound(Snapshot(), user, version, note, at);
      if term.Some? { SoundRows(Snapshot()); }
      if term.None? { return Some(NotFound); }
      var t := term.value;
      if t.frozen.provider != user { return Some(Forbidden); }
      if t.version != version || t.claim.responsibility != Undetermined || !t.claim.used || t.claim.respondedAt.Some?
         || Stake(t) == 0 || Due(t, at) { return Some(Conflict); }
      if !NoteOk(note) { return Some(BadRequest); }
      UpdateTermination(t.(claim := t.claim.(respondedAt := Some(at)), version := t.version + 1));
      return None;
    }

    /** `dispute_tx`: the row and the award's hold flag change together. */
    method OpenDispute(user: string, version: int, claimBytes: nat, at: int) returns (error: Option<Error>)
      requires Valid()
      modifies this
      ensures match Dispute(old(Snapshot()), user, version, claimBytes, at)
              case Ok(b) => error.None? && Snapshot() == b
              case Err(e) => error == Some(e) && Snapshot() == old(Snapshot())
      ensures Valid()
    {
      hide Sound;
      DisputeSound(Snapshot(), user, version, claimBytes, at);
      if term.Some? { SoundRows(Snapshot()); }
      if term.None? { return Some(NotFound); }
      var t := term.value;
      if t.frozen.buyer != user { return Some(Forbidden); }
      if t.status == FinancePending { return Some(Conflict); }
      if t.version != version || t.claim.used || t.cap == 0 || Credited(Snapshot()) > 0 { return Some(Conflict); }
      if claimBytes > 2000 { return Some(BadRequest); }
      if award.Some? && at >= award.value.unlockAt { return Some(Conflict); }
      if t.confirmed.Some? && t.compensation == 0 { return Some(Conflict); }
      UpdateTermination(t.(claim := Claim(Undetermined, true, Some(at), None),
                           status := if t.confirmed.None? then t.status else Disputed,
                           version := t.version + 1));
      if award.Some? {
        UpdateAward(award.value.(disputed := true));
      }
      error := None;
    }

    /** One item of `credit_due_isolated`. */
    method CreditAward(canManage: bool, fin: Finance, at: int) returns (error: Option<Error>)
      requires Valid() && CreditDue(Snapshot(), at)
      modifies this
      ensures match Credit(old(Snapshot()), canManage, fin, at)
              case Ok(b) => error.None? && Snapshot() == b
              case Err(e) => error == Some(e) && Snapshot() == old(Snapshot())
      ensures Valid()
    {
      hide Sound, Evidence, Covers, KeyUsed, Balanced;
      CreditSound(Snapshot(), canManage, fin, at);
      if term.Some? { SoundRows(Snapshot()); }
      var saved := Snapshot();
      if term.None? { return Some(NotFound); }
      var t := term.value;
      if t.status != Completed || !canManage { return None; }
      if !Evidence(Snapshot()) { return Some(Internal); }
      if !fin.safe { return Some(FinanceHold); }
      if t.compensation <= 0 { return Some(BadRequest); }
      if KeyUsed(journal, ClientCompensation, AutomaticCredit) { return Some(Internal); }
      if !Covers(Snapshot(), ProviderPending(t.frozen.provider), t.compensation) { return Some(Conflict); }
      var entry := |journal|;
      var pending, wallet := ProviderPending(t.frozen.provider), WalletAvailable(t.frozen.provider);
      TransferBalanced(ClientCompensation, AutomaticCredit, pending, wallet, t.compensation);
      Post(Transfer(ClientCompensation, AutomaticCredit, pending, wallet, t.compensation));
      if !fin.room { Restore(saved); return Some(Internal); }
      if award.value.credited == 0 {
        UpdateAward(award.value.(credited := t.compensation, creditEntry := Some(entry)));
      }
      error := None;
    }
  }

  /** Every row of a sound book passes its table's checks, with room for what a decision or a
      credit writes next. */
  lemma SoundRows(b: Book)
    requires Sound(b) && b.term.Some?
    ensures RowChecks(b.term.value) && 0 <= b.term.value.cap
    ensures b.term.value.claim.used <==> b.term.value.claim.openedAt.Some?
    ensures b.term.value.claim.responsibility == Undetermined ==> b.term.value.claim.used
    ensures b.award.Some? ==>
              && AwardChecks(b.award.value)
              && b.award.value.amount - b.award.value.reversed == b.term.value.compensation
  {
    CompensationIsCappedRounding(b.term.value.frozen.amount, b.term.value.frozen.remaining, b.term.value.frozen.rate);
    hide Compensation, Total, SumOn, JournalOk, Places, LiabilityOk, AwardEvidence, PeriodEvidence, TermsEvidence;
  }

  /** The row a first acceptance inserts passes the schema's checks. */
  lemma AcceptedChecks(b: Book, a: Acceptance, at: int)
    requires Sound(b) && b.term.None?
    ensures Accept(b, a, at).Ok? && Accept(b, a, at).value.term.Some? ==> RowChecks(Accept(b, a, at).value.term.value)
    ensures b.rental.Some? && b.rental.value.period.Some? ==> PeriodChecks(b.rental.value.period.value)
  {
    AcceptSound(b, a, at);
    if Accept(b, a, at).Ok? && Accept(b, a, at).value.term.Some? {
      var d := Accept(b, a, at).value;
      assert !Settled(d.term.value);
      assert Sound(d);
      hide Sound, Accept;
      UnsettledChecks(d, d.term.value);
    }
  }

  /** What passing the guards establishes before the first write. */
  lemma GuardFacts(b: Book, who: Authority, d: Decision, fin: Finance, at: int)
    requires Sound(b) && DecisionGuard(b, who, d, fin, at).None?
    ensures b.term.Some? && d.award.Some? && d.responsibility.Some?
    ensures var t := b.term.value;
            && 0 <= d.award.value <= Stake(t)
            && Credited(b) == 0
            && (t.confirmed.Some? ==> Settled(t) && Stake(t) > 0)
            && (t.confirmed.Some? && t.compensation > 0 ==> ReductionSource(t) == ProviderPending(t.frozen.provider))
            && (t.confirmed.Some? && t.compensation <= 0 ==>
                  && t.compensation == 0 && t.held == Stake(t) && t.frozen.period.Some?
                  && ReductionSource(t) == Unfulfilled(t.frozen.period.value)
                  && Covers(b, ReductionSource(t), Stake(t) - d.award.value))
  {
    hide Compensation, Total, SumOn, JournalOk, TermsEvidence;
  }

  /** The specification of a decision, row by row, for a live award and for a hold. */
  lemma AwardDecided(b: Book, t: Termination, who: Authority, award: int, wanted: Responsibility, at: int)
    requires Settled(t) && t.compensation > 0
    ensures var d := Decided(b, t, who, award, wanted, at);
            var cut, still := t.compensation - award, StillDisputed(who, t, award);
            && d.foreign == b.foreign && d.receipt == b.receipt
            && d.term == Some(t.(compensation := award, returned := t.returned + cut).(
                 cap := t.cap, status := if still then Disputed else Completed, version := t.version + 1,
                 claim := t.claim.(responsibility := DecidedResponsibility(who, t, award, wanted),
                     respondedAt := DecidedResponse(who, t, at))))
            && (b.award.Some? ==> d.award == Some(b.award.value.(reversed := b.award.value.reversed + cut,
                disputed := still)))
            && d.rental == RefundPeriod(b, cut, -cut)
            && d.journal == b.journal + Moved(ReturnCompensation(t.version), ProviderPending(t.frozen.provider),
                WalletAvailable(t.frozen.buyer), cut)
  {
    hide RefundPeriod, Moved, DecidedResponsibility, DecidedResponse, StillDisputed;
  }

  lemma HoldDecided(b: Book, t: Termination, who: Authority, award: int, wanted: Responsibility, at: int)
    requires Settled(t) && t.compensation == 0 && t.frozen.period.Some?
    ensures var d := Decided(b, t, who, award, wanted, at);
            var cut, still := t.held - award, StillDisputed(who, t, award);
            var granted := if still then 0 else award;
            var source := Unfulfilled(t.frozen.period.value);
            var j1 := b.journal + Moved(ReturnDisputed(t.version), source, WalletAvailable(t.frozen.buyer), cut);
            && d.foreign == b.foreign && d.receipt == b.receipt
            && d.term == Some(t.(held := if still then award else 0, compensation := granted,
                returned := t.returned + cut).(
                 cap := t.cap, status := if still then Disputed else Completed, version := t.version + 1,
                 claim := t.claim.(responsibility := DecidedResponsibility(who, t, award, wanted),
                     respondedAt := DecidedResponse(who, t, at))))
            && d.award == (if granted == 0 then b.award else Some(NewAward(t.frozen.provider, granted, |j1|, at)))
            && d.rental == RefundPeriod(b, cut, granted)
            && d.journal == j1 + Moved(Award, source, ProviderPending(t.frozen.provider), granted)
  {
    hide RefundPeriod, Moved, DecidedResponsibility, DecidedResponse, StillDisputed, NewAward;
  }

  /** A refund to the buyer and then compensation are one change of the period. */
  lemma RefundTwice(b: Book, d: Book, refund: int, compensation: int)
    requires d.rental == RefundPeriod(b, refund, 0)
    ensures RefundPeriod(d, 0, compensation) == RefundPeriod(b, refund, compensation)
  {
  }

  lemma NothingMoved(action: Action, from: Account, to: Account)
    ensures Moved(action, from, to, 0) == []
  {
  }

  lemma AwardFits(b: Book, t: Termination, cut: int)
    requires Sound(b) && b.term == Some(t) && Settled(t) && t.compensation > 0 && Credited(b) == 0
    requires 0 <= cut <= t.compensation
    ensures RowChecks(t) && t.frozen.period.Some?
    ensures b.award.Some? && b.award.value.credited == 0 && AwardChecks(b.award.value)
    ensures AwardChecks(b.award.value.(reversed := b.award.value.reversed + cut))
    ensures b.rental.Some? && b.rental.value.period.Some?
    ensures var p := b.rental.value.period.value;
            PeriodChecks(p) && cut <= p.compensation
    ensures !KeyUsed(b.journal, ClientTermination, ReturnCompensation(t.version))
  {
    CompensationIsCappedRounding(t.frozen.amount, t.frozen.remaining, t.frozen.rate);
    hide Compensation, Total, TermsEvidence, SumOn, Places, LiabilityOk;
  }

  lemma HoldFits(b: Book, t: Termination, cut: int)
    requires Sound(b) && b.term == Some(t) && Settled(t) && t.compensation == 0 && t.held > 0
    requires 0 <= cut <= t.held
    ensures RowChecks(t) && t.frozen.period.Some? && b.award.None?
    ensures b.rental.Some? && b.rental.value.period.Some?
    ensures var p := b.rental.value.period.value;
            && PeriodChecks(p) && p.id == t.frozen.period.value && PeriodRemaining(p) == t.held
            && Covers(b, Unfulfilled(p.id), cut)
    ensures t.held <= t.cap
    ensures var limit := Compensation(t.frozen.amount, t.frozen.remaining, t.frozen.rate);
            limit.Ok? && t.cap <= limit.value
    ensures !KeyUsed(b.journal, ClientTermination, ReturnDisputed(t.version))
    ensures forall from, to, units ::
              !KeyUsed(b.journal + Moved(ReturnDisputed(t.version), from, to, units), ClientTermination, Award)
  {
    CompensationIsCappedRounding(t.frozen.amount, t.frozen.remaining, t.frozen.rate);
    hide Compensation, Total, TermsEvidence, SumOn;
  }

  lemma UnsettledChecks(b: Book, t: Termination)
    requires Sound(b) && b.term == Some(t) && !Settled(t)
    ensures RowChecks(t) && t.returned == 0 && t.compensation == 0 && t.held == 0
    ensures var s := PlannedSplit(t);
            t.frozen.contract.Some? && t.frozen.period.Some? ==>
              RowChecks(t.(returned := s.returned, compensation := s.compensation, held := s.held))
  {
    CompensationIsCappedRounding(t.frozen.amount, t.frozen.remaining, t.frozen.rate);
    hide Compensation, JournalOk, Total, Evidence, Places;
  }

  /** Before a settlement the keys are free, the liability covers the plan and every
      amount the plan writes passes the schema's checks. */
  lemma PlanFits(b: Book, t: Termination)
    requires Sound(b) && b.term == Some(t) && !Settled(t) && t.frozen.period.Some?
    ensures b.journal == [] && b.award.None? && RowChecks(t)
    ensures b.rental.Some? && b.rental.value.period.Some?
    ensures t.returned == 0 && t.compensation == 0 && t.held == 0
    ensures !KeyUsed(b.journal, ClientTermination, ReturnUnused(t.version))
    ensures forall from, to, units ::
              !KeyUsed(b.journal + Moved(ReturnUnused(t.version), from, to, units), ClientTermination, Award)
    ensures var s := PlannedSplit(t);
            var p := b.rental.value.period.value;
            && 0 <= s.returned && 0 <= s.compensation <= t.cap && 0 <= s.held
            && s.returned + s.compensation + s.held == t.frozen.remaining
            && PeriodChecks(p) && PeriodRemaining(p) == t.frozen.remaining && p.id == t.frozen.period.value
            && Covers(b, Unfulfilled(p.id), s.returned)
            && var limit := Compensation(t.frozen.amount, t.frozen.remaining, t.frozen.rate);
               limit.Ok? && s.compensation <= limit.value
  {
    CompensationIsCappedRounding(t.frozen.amount, t.frozen.remaining, t.frozen.rate);
    hide Compensation, JournalOk, Total, AwardEvidence, TermsEvidence;
  }
}
