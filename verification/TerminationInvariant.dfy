/** The invariant of a termination book and the proof that every step keeps it. */
module TerminationInvariant {
  import opened Base
  import opened Journal
  import opened TerminationModel

  predicate RentalOk(r: Rental) {
    r.period.Some? ==>
      var p := r.period.value;
      && r.contract == Some(p.contract)
      && 0 < p.amount <= I64_MAX
      && 0 <= p.fulfilled && 0 <= p.refunded && 0 <= p.compensation
      && 0 <= PeriodRemaining(p)
      && (p.terms.Some? ==> 0 <= p.terms.value.rate <= 10000)
  }

  /** The row columns agree with the rental they were frozen from. */
  predicate Linked(r: Rental, z: Snapshot) {
    && z.host == r.host && z.buyer == r.buyer && z.provider == r.provider && z.contract == r.contract
    && (z.period.Some? <==> r.period.Some?)
    && (z.period.Some? ==> r.period.value.id == z.period.value)
    && (z.period.None? ==> z.remaining == 0)
  }

  predicate AmountsOk(t: Termination) {
    && 0 <= t.frozen.rate <= 10000
    && 0 <= t.frozen.remaining <= t.frozen.amount <= I64_MAX
    && 0 <= t.cap <= Compensation(t.frozen.amount, t.frozen.remaining, t.frozen.rate).value
    && 0 <= t.returned && 0 <= t.compensation && 0 <= t.held
    && 1 <= t.version
  }

  /** An open claim always has a deadline and something to argue about, a formal answer
      was in time, and only the buyer's responsibility or an open claim carries a stake. */
  predicate ClaimOk(t: Termination) {
    && (t.claim.used <==> t.claim.openedAt.Some?)
    && (t.claim.responsibility == Undetermined ==> t.claim.used && Stake(t) > 0)
    && (Stake(t) > 0 ==> t.claim.responsibility == BuyerFault || t.claim.responsibility == Undetermined)
    && (t.claim.respondedAt.Some? ==>
          t.claim.used && t.claim.respondedAt.value < t.claim.openedAt.value + RESPONSE_WINDOW)
  }

  /** Before money is split nothing has moved; afterwards exactly one of a hold, a
      live award or nothing carries the stake. */
  predicate PhaseOk(b: Book, t: Termination) {
    if !Settled(t) then
      && t.returned == 0 && t.compensation == 0 && t.held == 0
      && b.award.None? && b.journal == []
      && (t.confirmed.None? ==> t.status == CleanupPending || t.status == CleanupFailed)
    else
      && (t.status == Disputed || t.status == Completed)
      && (t.status == Disputed <==> t.claim.responsibility == Undetermined)
      && (t.held > 0 ==> t.status == Disputed && b.award.None?)
      && t.held <= t.cap
      && (b.award.Some? ==>
            var c := b.award.value;
            && 0 < c.amount && 0 <= c.reversed <= c.amount
            && (c.credited == 0 || (c.credited == t.compensation && t.status == Completed)))
  }

  /** Keys are unique and still unused for the next version; every entry balances. */
  predicate JournalOk(j: seq<Entry>, version: int, awarded: bool, credited: bool) {
    && UniqueKeys(j)
    && forall e :: e in j ==>
         && Balanced(e)
         && match e.action
            case Award => e.source == ClientTermination && awarded
            case AutomaticCredit => e.source == ClientCompensation && credited
            case ReturnUnused(v) => e.source == ClientTermination && v < version
            case ReturnDisputed(v) => e.source == ClientTermination && v < version
            case ReturnCompensation(v) => e.source == ClientTermination && v < version
  }

  /** Where the journal says the units are. */
  predicate Places(b: Book, t: Termination) {
    && Total(b.journal, Every, ProviderPending(t.frozen.provider)) == -(t.compensation - Credited(b))
    && Total(b.journal, Reversals, ProviderPending(t.frozen.provider)) == (if b.award.Some? then b.award.value.reversed
        else 0)
    && Total(b.journal, BySource(ClientCompensation), WalletAvailable(t.frozen.provider)) == -Credited(b)
    && (t.frozen.period.Some? ==>
          Total(b.journal, Every, Unfulfilled(t.frozen.period.value)) == t.returned + t.compensation)
  }

  /** The unfulfilled liability of the period is exactly what the period row says. */
  predicate LiabilityOk(b: Book) {
    b.rental.Some? && b.rental.value.period.Some? ==>
      var p := b.rental.value.period.value;
      Balance(b, Unfulfilled(p.id)) == -PeriodRemaining(p)
  }

  /** Nothing recorded yet. */
  predicate Fresh(b: Book) {
    && b.award.None? && b.journal == []
    && (b.rental.Some? && b.rental.value.period.Some? ==> b.rental.value.period.value.compensation == 0)
  }

  predicate TermSound(b: Book, t: Termination) {
    && b.rental.Some?
    && Linked(b.rental.value, t.frozen)
    && AmountsOk(t)
    && ClaimOk(t)
    && PhaseOk(b, t)
    && JournalOk(b.journal, t.version, b.award.Some?, Credited(b) > 0)
    && Places(b, t)
    && Evidence(b)
  }

  predicate Sound(b: Book) {
    && (b.rental.Some? ==> RentalOk(b.rental.value))
    && LiabilityOk(b)
    && (b.term.None? ==> Fresh(b))
    && (b.term.Some? ==> TermSound(b, b.term.value))
  }

  // ---------------------------------------------------------------- arithmetic

  /** Half-up rounding, the cap and the cast: the quotient never leaves i64, the
      product never leaves i128, and the result is the promised minimum. */
  lemma CompensationIsCappedRounding(period: int, remaining: int, bps: int)
    requires 0 <= remaining <= period <= I64_MAX && 0 <= bps <= 10000
    ensures period * bps + 5000 < 0x8000_0000_0000_0000_0000_0000_0000_0000
    ensures var q := (period * bps + 5000) / 10000;
            && 0 <= q <= period
            && 10000 * q - 5000 <= period * bps < 10000 * q + 5000
            && Compensation(period, remaining, bps) == Ok(Min(remaining, q))
  {
    assert 0 <= period * bps <= period * 10000;
  }

  /** A later cutoff can only shrink the compensation: delivery between preview and
      confirmation never makes the buyer pay more than the preview showed. */
  lemma CompensationShrinksWithDelivery(period: int, before: int, after: int, bps: int)
    requires 0 <= after <= before <= period <= I64_MAX && 0 <= bps <= 10000
    ensures Compensation(period, after, bps).value <= Compensation(period, before, bps).value
    ensures after - Compensation(period, after, bps).value <= before - Compensation(period, before, bps).value
  {
    CompensationIsCappedRounding(period, before, bps);
    CompensationIsCappedRounding(period, after, bps);
  }

  // ---------------------------------------------------------------- journal growth

  predicate IsReturn(a: Action) { a.ReturnUnused? || a.ReturnDisputed? || a.ReturnCompensation? }

  /** Effect of `Moved` on one sum. */
  lemma MovedTotal(j: seq<Entry>, action: Action, from: Account, to: Account, units: int, f: Filter, a: Account)
    requires from != to
    ensures Total(j + Moved(action, from, to, units), f, a) ==
              Total(j, f, a) +
              (if Picks(f, Transfer(ClientTermination, action, from, to, units))
               then (if a == from then units else if a == to then -units else 0) else 0)
  {
    if units == 0 {
      assert j + Moved(action, from, to, units) == j;
    } else {
      TransferSums(ClientTermination, action, from, to, units);
      TotalAppend(j, Transfer(ClientTermination, action, from, to, units), f, a);
    }
  }

  /** A return uses up the current version; an award uses up the only award key. */
  lemma MovedKeys(j: seq<Entry>, version: int, awarded: bool, credited: bool,
                  action: Action, from: Account, to: Account, units: int)
    requires JournalOk(j, version, awarded, credited)
    requires from != to
    requires IsReturn(action) ==> action.version == version
    requires !IsReturn(action) ==> action == Award && !awarded
    ensures JournalOk(j + Moved(action, from, to, units),
                      if IsReturn(action) then version + 1 else version,
                      awarded || (action == Award && units != 0), credited)
  {
    var j' := j + Moved(action, from, to, units);
    if units == 0 {
      assert j' == j;
    } else {
      var e := Transfer(ClientTermination, action, from, to, units);
      TransferSums(ClientTermination, action, from, to, units);
      assert Balanced(e);
      assert !KeyUsed(j, ClientTermination, action);
      FreshKeyAppend(j, e);
    }
  }

  lemma LaterVersion(j: seq<Entry>, version: int, later: int, awarded: bool, credited: bool)
    requires JournalOk(j, version, awarded, credited) && version <= later
    ensures JournalOk(j, later, awarded, credited)
  {
  }

  // ---------------------------------------------------------------- acceptance

  /** Settling the tail keeps the period's liability equal to what it still owes. */
  lemma TailSound(b: Book, tail: Tail)
    requires Sound(b) && b.term.None? && b.rental.Some? && TailFits(b.rental.value, tail)
    ensures Sound(SettleTail(b, b.rental.value, tail))
    ensures SettleTail(b, b.rental.value, tail).rental.Some?
    ensures var r1 := SettleTail(b, b.rental.value, tail).rental.value;
            r1.identityOk == b.rental.value.identityOk && r1.contract == b.rental.value.contract
  {
  }

  lemma EmptyJournal()
    ensures JournalOk([], 1, false, false)
  {
  }

  /** The frozen snapshot of a sound book without a termination is sound. */
  lemma OpeningSound(b: Book, voluntary: bool, wanted: Responsibility, cap: int, at: int)
    requires Sound(b) && b.term.None? && b.rental.Some? && BasisOf(b.rental.value).Ok?
    requires var basis := BasisOf(b.rental.value).value;
             cap == 0 || Compensation(basis.amount, basis.remaining, basis.rate) == Ok(cap)
    requires wanted == BuyerFault || wanted == Undetermined || cap == 0
    ensures var r := b.rental.value;
            Sound(b.(term := Some(OpenTermination(r, BasisOf(r).value, voluntary, wanted, cap, at))))
  {
    hide Compensation, SumOn, JournalOk;
    var r := b.rental.value;
    assert JournalOk([], 1, false, false) by { EmptyJournal(); }
    if r.period.Some? {
      var p := r.period.value;
      CompensationIsCappedRounding(p.amount, PeriodRemaining(p), if p.terms.Some? then p.terms.value.rate else 0);
    } else {
      CompensationIsCappedRounding(0, 0, 0);
    }
  }

  lemma AcceptSound(b: Book, a: Acceptance, at: int)
    requires Sound(b)
    ensures Accept(b, a, at).Ok? ==> Sound(Accept(b, a, at).value)
    ensures b.term.None? && Accept(b, a, at).Ok? && Accept(b, a, at).value.term.Some? ==>
              Accept(b, a, at).value.journal == []
  {
    if b.term.None? && AcceptanceRefusal(b, a).None? && Accept(b, a, at).Ok? {
      assert b.journal == [];
      hide Sound, Compensation, OpenTermination;
      var r := b.rental.value;
      var b1 := if r.contract.Some? then SettleTail(b, r, a.tail) else b;
      if r.contract.Some? { TailSound(b, a.tail); }
      var voluntary := IsVoluntary(r, a);
      var basis := BasisOf(b1.rental.value).value;
      var cap := if voluntary && basis.eligible then Compensation(basis.amount, basis.remaining, basis.rate) else Ok(0);
      OpeningSound(b1, voluntary, OpeningResponsibility(r, a, voluntary), cap.value, at);
    }
  }

  // ---------------------------------------------------------------- cleanup

  /** A return out of the unfulfilled liability followed by an award from it: what the
      two entries do to every sum the evidence looks at. */
  lemma ReturnThenAwardTotals(j: seq<Entry>, action: Action, period: string, buyer: string, provider: string,
                              returned: int, granted: int)
    requires action.ReturnUnused? || action.ReturnDisputed?
    ensures var source, wallet, pending := Unfulfilled(period), WalletAvailable(buyer), ProviderPending(provider);
            var j2 := j + Moved(action, source, wallet, returned) + Moved(Award, source, pending, granted);
            && Total(j2, BySource(ClientTermination), wallet)
               == Total(j, BySource(ClientTermination), wallet) - returned
            && Total(j2, BySource(ClientCompensation), WalletAvailable(provider))
               == Total(j, BySource(ClientCompensation), WalletAvailable(provider))
            && Total(j2, Every, pending) == Total(j, Every, pending) - granted
            && Total(j2, Every, source) == Total(j, Every, source) + returned + granted
            && Total(j2, Reversals, pending) == Total(j, Reversals, pending)
  {
    hide Total;
    var source, wallet, pending := Unfulfilled(period), WalletAvailable(buyer), ProviderPending(provider);
    var j1 := j + Moved(action, source, wallet, returned);
    var sums := [(BySource(ClientTermination), wallet), (BySource(ClientCompensation), WalletAvailable(provider)),
                 (Every, pending), (Every, source), (Reversals, pending)];
    forall i | 0 <= i < |sums|
      ensures Total(j1 + Moved(Award, source, pending, granted), sums[i].0, sums[i].1) ==
              Total(j, sums[i].0, sums[i].1)
              + (if Picks(sums[i].0, Transfer(ClientTermination, action, source, wallet, returned))
                 then (if sums[i].1 == source then returned else if sums[i].1 == wallet then -returned else 0) else 0)
              + (if Picks(sums[i].0, Transfer(ClientTermination, Award, source, pending, granted))
                 then (if sums[i].1 == source then granted else if sums[i].1 == pending then -granted else 0) else 0)
    {
      MovedTotal(j, action, source, wallet, returned, sums[i].0, sums[i].1);
      MovedTotal(j1, Award, source, pending, granted, sums[i].0, sums[i].1);
    }
    assert sums[0].0 == BySource(ClientTermination) && sums[1].0 == BySource(ClientCompensation)
        && sums[2].0 == Every && sums[3].0 == Every && sums[4].0 == Reversals;
  }

  /** The keys of the same two entries, and the award entry itself. */
  lemma ReturnThenAwardKeys(j: seq<Entry>, version: int, awarded: bool, credited: bool, action: Action,
                            period: string, buyer: string, provider: string, returned: int, granted: int)
    requires JournalOk(j, version, awarded, credited)
    requires action == ReturnUnused(version) || action == ReturnDisputed(version)
    requires granted != 0 ==> !awarded
    ensures var source, pending := Unfulfilled(period), ProviderPending(provider);
            var j1 := j + Moved(action, source, WalletAvailable(buyer), returned);
            var j2 := j1 + Moved(Award, source, pending, granted);
            && JournalOk(j2, version + 1, awarded || granted != 0, credited)
            && (granted != 0 ==>
                  && |j1| < |j2| && j2[|j1|].source == ClientTermination && j2[|j1|].action == Award
                  && EntryOn(j2, |j1|, pending) == -granted
                  && EntryOn(j2, |j1|, source) == granted)
            && (granted == 0 ==> j2 == j1)
  {
    hide JournalOk;
    var source, wallet, pending := Unfulfilled(period), WalletAvailable(buyer), ProviderPending(provider);
    var j1 := j + Moved(action, source, wallet, returned);
    MovedKeys(j, version, awarded, credited, action, source, wallet, returned);
    if granted != 0 {
      MovedKeys(j1, version + 1, awarded, credited, Award, source, pending, granted);
      TransferSums(ClientTermination, Award, source, pending, granted);
    } else {
      assert j1 + Moved(Award, source, pending, granted) == j1;
    }
  }

  lemma SettleCleanupRow(b: Book, t: Termination, env: CleanupEnv, at: int)
    requires Sound(b) && b.term == Some(t) && !Settled(t)
    requires CleanupRefusal(b, t, env).None?
    ensures var b' := SettleCleanup(b, t, at);
            && b'.term.Some? && b'.rental.Some?
            && b'.term.value.frozen == t.frozen && b'.term.value.version == t.version + 1
            && Linked(b'.rental.value, t.frozen)
            && AmountsOk(b'.term.value)
            && ClaimOk(b'.term.value)
            && PhaseOk(b', b'.term.value)
            && RentalOk(b'.rental.value)
  {
    hide Compensation, WrapI64, JournalOk, Total, AwardEvidence, TermsEvidence;
    CompensationIsCappedRounding(t.frozen.amount, t.frozen.remaining, t.frozen.rate);
  }

  lemma SettleCleanupMoney(b: Book, t: Termination, env: CleanupEnv, at: int)
    requires Sound(b) && b.term == Some(t) && !Settled(t)
    requires CleanupRefusal(b, t, env).None?
    ensures var b' := SettleCleanup(b, t, at);
            && b'.term.Some?
            && JournalOk(b'.journal, t.version + 1, b'.award.Some?, Credited(b') > 0)
            && Places(b', b'.term.value)
            && LiabilityOk(b')
  {
    var s := PlannedSplit(t);
    hide Compensation, WrapI64, JournalOk, Total, ClaimOk, RentalOk, AwardEvidence, TermsEvidence;
    if t.frozen.period.Some? {
      ReturnThenAwardKeys(b.journal, t.version, false, false, ReturnUnused(t.version),
                          t.frozen.period.value, t.frozen.buyer, t.frozen.provider, s.returned, s.compensation);
      ReturnThenAwardTotals(b.journal, ReturnUnused(t.version),
                            t.frozen.period.value, t.frozen.buyer, t.frozen.provider, s.returned, s.compensation);
    } else {
      LaterVersion(b.journal, t.version, t.version + 1, false, false);
    }
  }

  lemma SettleCleanupEvidence(b: Book, t: Termination, env: CleanupEnv, at: int)
    requires Sound(b) && b.term == Some(t) && !Settled(t)
    requires CleanupRefusal(b, t, env).None?
    ensures Evidence(SettleCleanup(b, t, at))
  {
    var s := PlannedSplit(t);
    hide Compensation, WrapI64, JournalOk, Total, SumOn, ClaimOk, AmountsOk, RentalOk, LiabilityOk, KeyUsed;
    if t.frozen.period.Some? {
      ReturnThenAwardKeys(b.journal, t.version, false, false, ReturnUnused(t.version),
                          t.frozen.period.value, t.frozen.buyer, t.frozen.provider, s.returned, s.compensation);
      ReturnThenAwardTotals(b.journal, ReturnUnused(t.version),
                            t.frozen.period.value, t.frozen.buyer, t.frozen.provider, s.returned, s.compensation);
    }
  }

  lemma SettleCleanupSound(b: Book, t: Termination, env: CleanupEnv, at: int)
    requires Sound(b) && b.term == Some(t) && !Settled(t)
    requires CleanupRefusal(b, t, env).None?
    ensures Sound(SettleCleanup(b, t, at))
  {
    hide SettleCleanup, RentalOk, LiabilityOk, Linked, AmountsOk, ClaimOk, PhaseOk, JournalOk, Places, Evidence;
    SettleCleanupRow(b, t, env, at);
    SettleCleanupMoney(b, t, env, at);
    SettleCleanupEvidence(b, t, env, at);
  }

  // ---------------------------------------------------------------- decisions

  /** What an unrefused decision has been checked for. */
  predicate Admitted(b: Book, t: Termination, who: Authority, award: int, wanted: Responsibility, at: int) {
    && b.term == Some(t)
    && who.Timeout? == Due(t, at)
    && t.status != FinancePending
    && wanted != Undetermined
    && !(Stake(t) == 0 && t.confirmed.Some?)
    && AwardAllowed(who, award, wanted, Stake(t))
    && Credited(b) == 0
  }

  lemma RefusalAdmits(b: Book, who: Authority, d: Decision, fin: Finance, at: int)
    requires Sound(b) && DecisionRefusal(b, who, d, fin, at).None?
    ensures b.term.Some? && d.award.Some? && d.responsibility.Some?
    ensures Admitted(b, b.term.value, who, d.award.value, d.responsibility.value, at)
  {
    hide Total, Compensation, JournalOk, AwardEvidence;
  }

  lemma DecidedRow(b: Book, t: Termination, who: Authority, award: int, wanted: Responsibility, at: int)
    requires Sound(b) && Admitted(b, t, who, award, wanted, at)
    ensures var b' := Decided(b, t, who, award, wanted, at);
            && b'.term.Some? && b'.rental.Some?
            && b'.term.value.frozen == t.frozen && b'.term.value.version == t.version + 1
            && Linked(b'.rental.value, t.frozen)
            && RentalOk(b'.rental.value)
            && AmountsOk(b'.term.value)
  {
    hide Compensation, JournalOk, Total, SumOn, AwardEvidence, TermsEvidence, LiabilityOk, Places;
  }

  lemma DecidedPhase(b: Book, t: Termination, who: Authority, award: int, wanted: Responsibility, at: int)
    requires Sound(b) && Admitted(b, t, who, award, wanted, at)
    ensures var b' := Decided(b, t, who, award, wanted, at);
            && b'.term.Some?
            && ClaimOk(b'.term.value)
            && PhaseOk(b', b'.term.value)
  {
    hide Compensation, JournalOk, Total, SumOn, AwardEvidence, TermsEvidence, LiabilityOk, Places, RentalOk, Linked;
  }

  /** Taking units back from a live award. */
  lemma ReversalTotals(j: seq<Entry>, version: int, period: string, buyer: string, provider: string, cut: int)
    ensures var source, wallet, pending := Unfulfilled(period), WalletAvailable(buyer), ProviderPending(provider);
            var j' := j + Moved(ReturnCompensation(version), pending, wallet, cut);
            && Total(j', BySource(ClientTermination), wallet) == Total(j, BySource(ClientTermination), wallet) - cut
            && Total(j', BySource(ClientCompensation), WalletAvailable(provider))
               == Total(j, BySource(ClientCompensation), WalletAvailable(provider))
            && Total(j', Every, pending) == Total(j, Every, pending) + cut
            && Total(j', Every, source) == Total(j, Every, source)
            && Total(j', Reversals, pending) == Total(j, Reversals, pending) + cut
  {
    hide Total;
    var source, wallet, pending := Unfulfilled(period), WalletAvailable(buyer), ProviderPending(provider);
    var action := ReturnCompensation(version);
    MovedTotal(j, action, pending, wallet, cut, BySource(ClientTermination), wallet);
    MovedTotal(j, action, pending, wallet, cut, BySource(ClientCompensation), WalletAvailable(provider));
    MovedTotal(j, action, pending, wallet, cut, Every, pending);
    MovedTotal(j, action, pending, wallet, cut, Every, source);
    MovedTotal(j, action, pending, wallet, cut, Reversals, pending);
  }

  /** The money side of a book whose row has the given version. */
  predicate MoneyOk(b: Book, version: int) {
    && b.term.Some?
    && JournalOk(b.journal, version, b.award.Some?, Credited(b) > 0)
    && Places(b, b.term.value)
    && LiabilityOk(b)
  }

  // Decisions before cleanup, on a live award, and on a hold.

  lemma OpenMoney(b: Book, t: Termination, who: Authority, award: int, wanted: Responsibility, at: int)
    requires Sound(b) && Admitted(b, t, who, award, wanted, at) && t.confirmed.None?
    ensures MoneyOk(Decided(b, t, who, award, wanted, at), t.version + 1)
  {
    hide JournalOk, Total, SumOn, AwardEvidence, TermsEvidence, RentalOk, ClaimOk, Compensation;
    LaterVersion(b.journal, t.version, t.version + 1, b.award.Some?, false);
  }

  lemma AwardMoney(b: Book, t: Termination, who: Authority, award: int, wanted: Responsibility, at: int)
    requires Sound(b) && Admitted(b, t, who, award, wanted, at) && t.confirmed.Some? && t.compensation > 0
    ensures MoneyOk(Decided(b, t, who, award, wanted, at), t.version + 1)
  {
    hide JournalOk, Total, SumOn, AwardEvidence, TermsEvidence, RentalOk, ClaimOk, Compensation;
    var cut := Stake(t) - award;
    MovedKeys(b.journal, t.version, true, false, ReturnCompensation(t.version),
              ProviderPending(t.frozen.provider), WalletAvailable(t.frozen.buyer), cut);
    ReversalTotals(b.journal, t.version, t.frozen.period.value, t.frozen.buyer, t.frozen.provider, cut);
  }

  lemma HoldMoney(b: Book, t: Termination, who: Authority, award: int, wanted: Responsibility, at: int)
    requires Sound(b) && Admitted(b, t, who, award, wanted, at) && t.confirmed.Some? && t.compensation <= 0
    ensures MoneyOk(Decided(b, t, who, award, wanted, at), t.version + 1)
  {
    hide JournalOk, Total, SumOn, AwardEvidence, TermsEvidence, RentalOk, ClaimOk, Compensation;
    var cut := Stake(t) - award;
    var granted := if StillDisputed(who, t, award) then 0 else award;
    ReturnThenAwardKeys(b.journal, t.version, false, false, ReturnDisputed(t.version),
                        t.frozen.period.value, t.frozen.buyer, t.frozen.provider, cut, granted);
    ReturnThenAwardTotals(b.journal, ReturnDisputed(t.version),
                          t.frozen.period.value, t.frozen.buyer, t.frozen.provider, cut, granted);
  }

  lemma OpenEvidence(b: Book, t: Termination, who: Authority, award: int, wanted: Responsibility, at: int)
    requires Sound(b) && Admitted(b, t, who, award, wanted, at) && t.confirmed.None?
    ensures Evidence(Decided(b, t, who, award, wanted, at))
  {
    hide Compensation, JournalOk, Total, SumOn, RentalOk, ClaimOk, LiabilityOk;
  }

  lemma AwardedEvidence(b: Book, t: Termination, who: Authority, award: int, wanted: Responsibility, at: int)
    requires Sound(b) && Admitted(b, t, who, award, wanted, at) && t.confirmed.Some? && t.compensation > 0
    ensures Evidence(Decided(b, t, who, award, wanted, at))
  {
    hide Compensation, JournalOk, Total, SumOn, RentalOk, ClaimOk, LiabilityOk;
    ReversalTotals(b.journal, t.version, t.frozen.period.value, t.frozen.buyer, t.frozen.provider, Stake(t) - award);
  }

  lemma HoldEvidence(b: Book, t: Termination, who: Authority, award: int, wanted: Responsibility, at: int)
    requires Sound(b) && Admitted(b, t, who, award, wanted, at) && t.confirmed.Some? && t.compensation <= 0
    ensures Evidence(Decided(b, t, who, award, wanted, at))
  {
    hide Compensation, JournalOk, Total, SumOn, RentalOk, ClaimOk, LiabilityOk;
    var cut := Stake(t) - award;
    var granted := if StillDisputed(who, t, award) then 0 else award;
    ReturnThenAwardKeys(b.journal, t.version, false, false, ReturnDisputed(t.version),
                        t.frozen.period.value, t.frozen.buyer, t.frozen.provider, cut, granted);
    ReturnThenAwardTotals(b.journal, ReturnDisputed(t.version),
                          t.frozen.period.value, t.frozen.buyer, t.frozen.provider, cut, granted);
  }

  lemma DecidedMoneyAndEvidence(b: Book, t: Termination, who: Authority, award: int, wanted: Responsibility, at: int)
    requires Sound(b) && Admitted(b, t, who, award, wanted, at)
    ensures MoneyOk(Decided(b, t, who, award, wanted, at), t.version + 1)
    ensures Evidence(Decided(b, t, who, award, wanted, at))
  {
    hide Sound, Decided, MoneyOk, Evidence, Admitted;
    if t.confirmed.None? {
      OpenMoney(b, t, who, award, wanted, at);
      OpenEvidence(b, t, who, award, wanted, at);
    } else if t.compensation > 0 {
      AwardMoney(b, t, who, award, wanted, at);
      AwardedEvidence(b, t, who, award, wanted, at);
    } else {
      HoldMoney(b, t, who, award, wanted, at);
      HoldEvidence(b, t, who, award, wanted, at);
    }
  }

  lemma DecideSound(b: Book, who: Authority, d: Decision, fin: Finance, at: int)
    requires Sound(b)
    ensures Decide(b, who, d, fin, at).Ok? ==> Sound(Decide(b, who, d, fin, at).value)
  {
    hide Decided, DecisionRefusal, RentalOk, LiabilityOk, Linked, AmountsOk, ClaimOk, PhaseOk, JournalOk, Places,
        Evidence;
    if DecisionRefusal(b, who, d, fin, at).None? {
      RefusalAdmits(b, who, d, fin, at);
      var t, award, wanted := b.term.value, d.award.value, d.responsibility.value;
      DecidedRow(b, t, who, award, wanted, at);
      DecidedPhase(b, t, who, award, wanted, at);
      DecidedMoneyAndEvidence(b, t, who, award, wanted, at);
    }
  }

  // ---------------------------------------------------------------- claim steps and workers

  lemma RespondSound(b: Book, user: string, version: int, note: Note, at: int)
    requires Sound(b)
    ensures Respond(b, user, version, note, at).Ok? ==> Sound(Respond(b, user, version, note, at).value)
  {
    hide Compensation, Total, SumOn, RentalOk;
  }

  lemma DisputeSound(b: Book, user: string, version: int, claimBytes: nat, at: int)
    requires Sound(b)
    ensures Dispute(b, user, version, claimBytes, at).Ok? ==> Sound(Dispute(b, user, version, claimBytes, at).value)
  {
    hide Compensation, Total, SumOn, RentalOk;
  }

  lemma CreditKey(j: seq<Entry>, version: int, provider: string, units: int)
    requires JournalOk(j, version, true, false) && units > 0
    ensures var pending, wallet := ProviderPending(provider), WalletAvailable(provider);
            var e := Transfer(ClientCompensation, AutomaticCredit, pending, wallet, units);
            && JournalOk(j + [e], version, true, true)
            && !KeyUsed(j, ClientCompensation, AutomaticCredit)
            && EntryOn(j + [e], |j|, wallet) == -units
            && EntryOn(j + [e], |j|, pending) == units
  {
    var pending, wallet := ProviderPending(provider), WalletAvailable(provider);
    var e := Transfer(ClientCompensation, AutomaticCredit, pending, wallet, units);
    TransferSums(ClientCompensation, AutomaticCredit, pending, wallet, units);
    assert Balanced(e);
    hide SumOn, SumUnits, Total;
    FreshKeyAppend(j, e);
  }

  lemma CreditTotals(j: seq<Entry>, buyer: string, provider: string, period: string, units: int)
    ensures var pending, wallet := ProviderPending(provider), WalletAvailable(provider);
            var j' := j + [Transfer(ClientCompensation, AutomaticCredit, pending, wallet, units)];
            && Total(j', BySource(ClientTermination), WalletAvailable(buyer))
               == Total(j, BySource(ClientTermination), WalletAvailable(buyer))
            && Total(j', BySource(ClientCompensation), wallet) == Total(j, BySource(ClientCompensation), wallet) - units
            && Total(j', Every, pending) == Total(j, Every, pending) + units
            && Total(j', Every, Unfulfilled(period)) == Total(j, Every, Unfulfilled(period))
            && Total(j', Reversals, pending) == Total(j, Reversals, pending)
  {
    var pending, wallet := ProviderPending(provider), WalletAvailable(provider);
    var e := Transfer(ClientCompensation, AutomaticCredit, pending, wallet, units);
    TransferSums(ClientCompensation, AutomaticCredit, pending, wallet, units);
    hide Total, SumOn;
    TotalAppend(j, e, BySource(ClientTermination), WalletAvailable(buyer));
    TotalAppend(j, e, BySource(ClientCompensation), wallet);
    TotalAppend(j, e, Every, pending);
    TotalAppend(j, e, Every, Unfulfilled(period));
    TotalAppend(j, e, Reversals, pending);
  }

  lemma CreditSound(b: Book, canManage: bool, fin: Finance, at: int)
    requires Sound(b)
    ensures Credit(b, canManage, fin, at).Ok? ==> Sound(Credit(b, canManage, fin, at).value)
  {
    hide Compensation, Total, SumOn, RentalOk, JournalOk, ClaimOk;
    if CreditDue(b, at) && b.term.Some? {
      var t := b.term.value;
      if t.status == Completed && t.compensation > 0 && Credited(b) == 0 {
        CreditKey(b.journal, t.version, t.frozen.provider, t.compensation);
        CreditTotals(b.journal, t.frozen.buyer, t.frozen.provider, t.frozen.period.value, t.compensation);
      }
    }
  }

  lemma HoldForFinanceSound(b: Book, at: int)
    requires Sound(b) && (b.term.Some? ==> !Settled(b.term.value))
    ensures Sound(HoldForFinance(b, at))
    ensures var d := HoldForFinance(b, at);
            && d.journal == b.journal && d.award == b.award && d.rental == b.rental && d.receipt == b.receipt
            && (b.term.Some? ==>
                  && d.term.Some? && d.term.value.status == FinancePending && d.term.value.confirmed.Some?
                  && Stake(d.term.value) == Stake(b.term.value)
                      && PlannedSplit(d.term.value) == PlannedSplit(b.term.value)
                  && d.term.value.returned == 0 && d.term.value.compensation == 0 && d.term.value.held == 0)
  {
    hide Compensation, Total, SumOn, RentalOk;
  }

  lemma CleanupMarksSound(b: Book)
    requires Sound(b)
    ensures Sound(MarkCleanupFailed(b)) && Sound(RestartCleanup(b))
  {
    hide Compensation, Total, SumOn, RentalOk, AwardEvidence;
  }

  lemma ForeignPostSound(b: Book, a: Account, units: int)
    requires Sound(b)
    ensures Sound(ForeignPost(b, a, units))
  {
    hide Compensation, Total, SumOn, RentalOk, JournalOk, ClaimOk, AmountsOk;
  }

  lemma CleanupConfirmedSound(b: Book, host: string, env: CleanupEnv, at: int)
    requires Sound(b)
    ensures CleanupConfirmed(b, host, env, at).Ok? ==> Sound(CleanupConfirmed(b, host, env, at).value)
  {
    hide Sound, Accept, SettleCleanup, CleanupRefusal;
    AcceptSound(b, Acceptance(None, false, None, env.tail), env.cutoff);
    var e := EnsureTermination(b, host, env);
    if e.Ok? && e.value.term.Some? {
      var t := e.value.term.value;
      if !Settled(t) && CleanupRefusal(e.value, t, env).None? {
        SettleCleanupSound(e.value, t, env, at);
      }
    }
  }

  lemma ReceiptSound(b: Book, receipt: Option<int>)
    requires Sound(b)
    ensures Sound(b.(receipt := receipt))
  {
    hide Compensation, Total, SumOn, RentalOk, JournalOk, ClaimOk, AmountsOk;
  }

  /** A settled record is left alone: only a host mismatch could make the cleanup of a
      settled rental fail, and the frozen host is the rental's host. */
  lemma RecordCleanupKeepsSettled(b: Book, host: string, env: CleanupEnv, at: int)
    requires Sound(b) && b.term.Some? && Settled(b.term.value)
    ensures RecordCleanup(b, host, env, at).Ok? ==>
              RecordCleanup(b, host, env, at).value == b.(receipt := RecordCleanup(b, host, env, at).value.receipt)
  {
    hide Evidence, JournalOk, Places, LiabilityOk, AmountsOk, ClaimOk, PhaseOk, RentalOk;
  }

  lemma RecordCleanupSound(b: Book, host: string, env: CleanupEnv, at: int)
    requires Sound(b)
    ensures RecordCleanup(b, host, env, at).Ok? ==> Sound(RecordCleanup(b, host, env, at).value)
  {
    hide Sound, CleanupConfirmed;
    var b1 := b.(receipt := if b.receipt.Some? then b.receipt else Some(at));
    ReceiptSound(b, b1.receipt);
    CleanupConfirmedSound(b1, host, env, at);
    if b.term.Some? && Settled(b.term.value) {
      RecordCleanupKeepsSettled(b, host, env, at);
      if RecordCleanup(b, host, env, at).Ok? {
        ReceiptSound(b, RecordCleanup(b, host, env, at).value.receipt);
      }
    } else {
      HoldForFinanceSound(b1, at);
    }
  }
}
