/** Rows and step specifications of the Client rental termination ledger.

    A `Book` is what the database holds about one rental: the rental with its
    current period, the termination row, the optional compensation award, the
    journal entries this termination wrote, and the balance every other journal
    contributes to each account. Each step is a function from a book to either
    the next book or an error; on an error the surrounding transaction or
    savepoint leaves the book as it was. Times are milliseconds. */
module TerminationModel {
  import opened Base
  import opened Journal

  const DAY: int := 86_400_000
  const RESPONSE_WINDOW: int := 3 * DAY
  const MATURITY: int := 7 * DAY

  datatype Responsibility = BuyerFault | ProviderFault | PlatformFault | Undetermined | NoFault

  datatype Status = CleanupPending | CleanupFailed | FinancePending | Disputed | Completed

  datatype Terms = Terms(policy: int, rate: int)

  datatype Period = Period(
    id: string, contract: string, amount: int,
    fulfilled: int, refunded: int, compensation: int,
    open: bool, terms: Option<Terms>)

  /** A subscription with its contract and current period; `identityOk` is the
      contract-identity check of `basis_tx`. */
  datatype Rental = Rental(
    buyer: string, provider: string, host: string, contract: Option<string>,
    identityOk: bool, paidStarted: bool, period: Option<Period>)

  /** The columns the schema declares immutable: frozen when the exit is accepted. */
  datatype Snapshot = Snapshot(
    host: string, contract: Option<string>, period: Option<string>, buyer: string, provider: string,
    policy: int, rate: int, amount: int, remaining: int, cutoff: int)

  datatype Claim = Claim(
    responsibility: Responsibility, used: bool, openedAt: Option<int>, respondedAt: Option<int>)

  datatype Termination = Termination(
    frozen: Snapshot, claim: Claim, cap: int, returned: int, compensation: int, held: int,
    status: Status, confirmed: Option<int>, version: int)

  datatype AwardRow = AwardRow(
    provider: string, amount: int, reversed: int, credited: int, disputed: bool,
    awardedAt: int, unlockAt: int, entry: nat, creditEntry: Option<nat>)

  datatype Book = Book(
    rental: Option<Rental>, term: Option<Termination>, award: Option<AwardRow>,
    journal: seq<Entry>, foreign: map<Account, int>, receipt: Option<int>)

  // ---------------------------------------------------------------- compensation

  /** Basis-point share of a period, rounded half up, capped by what remains. The
      128-bit product is exact; the quotient is cast to i64 before the cap. */
  function Compensation(period: int, remaining: int, bps: int): Result<int> {
    if period < 0 || remaining < 0 || remaining > period || !(0 <= bps <= 10000) then Err(Internal)
    else Ok(Min(remaining, WrapI64((period * bps + 5000) / 10000)))
  }

  // ---------------------------------------------------------------- reading rows

  function Foreign(b: Book, a: Account): int { if a in b.foreign then b.foreign[a] else 0 }

  function Balance(b: Book, a: Account): int { Foreign(b, a) + Total(b.journal, Every, a) }

  /** A liability can pay out `units` only while its signed balance is at most -units. */
  predicate Covers(b: Book, a: Account, units: int) { Balance(b, a) <= -units }

  function PeriodRemaining(p: Period): int { p.amount - p.fulfilled - p.refunded - p.compensation }

  datatype Basis = Basis(policy: int, rate: int, amount: int, remaining: int, eligible: bool)

  function BasisOf(r: Rental): Result<Basis> {
    if r.contract.Some? && !r.identityOk then Err(Conflict)
    else
      match r.period
      case None => Ok(Basis(0, 0, 0, 0, false))
      case Some(p) =>
        var terms := if p.terms.Some? then p.terms.value else Terms(0, 0);
        Ok(Basis(terms.policy, terms.rate, p.amount, PeriodRemaining(p), r.paidStarted && p.open))
  }

  /** Money has been split for this termination. */
  predicate Settled(t: Termination) { t.confirmed.Some? && t.status != FinancePending }

  /** Compensation still at stake (`remaining_compensation`). */
  function Stake(t: Termination): int {
    if t.confirmed.None? || t.status == FinancePending then t.cap
    else if t.compensation > 0 then t.compensation
    else t.held
  }

  /** The Provider missed the formal response deadline (`timeout_due`). */
  predicate Due(t: Termination, at: int) {
    && t.claim.responsibility == Undetermined
    && t.claim.used
    && t.claim.respondedAt.None?
    && t.claim.openedAt.Some?
    && at >= t.claim.openedAt.value + RESPONSE_WINDOW
  }

  function Credited(b: Book): int { if b.award.Some? then b.award.value.credited else 0 }

  // ---------------------------------------------------------------- evidence

  predicate PeriodEvidence(b: Book, t: Termination) {
    t.frozen.period.Some? ==>
      && b.rental.Some? && b.rental.value.period.Some?
      && var p := b.rental.value.period.value;
      && p.id == t.frozen.period.value
      && t.frozen.contract == Some(p.contract)
      && p.amount == t.frozen.amount
      && p.amount - p.fulfilled - p.refunded + t.returned == t.frozen.remaining
      && p.compensation == t.compensation
  }

  predicate TermsEvidence(b: Book, t: Termination) {
    || (t.frozen.policy == 0 && t.frozen.rate == 0)
    || (&& b.rental.Some? && b.rental.value.period.Some?
        && t.frozen.period == Some(b.rental.value.period.value.id)
        && b.rental.value.period.value.terms == Some(Terms(t.frozen.policy, t.frozen.rate)))
  }

  function EntryOn(j: seq<Entry>, k: nat, a: Account): int {
    if k < |j| then SumOn(j[k].postings, a) else 0
  }

  predicate AwardEvidence(b: Book, t: Termination, c: AwardRow) {
    && c.amount <= t.cap
    && (c.disputed <==> t.status == Disputed)
    && c.unlockAt == c.awardedAt + MATURITY
    && c.reversed == Total(b.journal, Reversals, ProviderPending(t.frozen.provider))
    && c.provider == t.frozen.provider
    && c.entry < |b.journal|
    && b.journal[c.entry].source == ClientTermination && b.journal[c.entry].action == Award
    && c.amount == -EntryOn(b.journal, c.entry, ProviderPending(t.frozen.provider))
    && t.frozen.period.Some?
    && c.amount == EntryOn(b.journal, c.entry, Unfulfilled(t.frozen.period.value))
    && match c.creditEntry
       case None => c.credited == 0
       case Some(k) =>
         && c.credited > 0
         && k < |b.journal|
         && b.journal[k].source == ClientCompensation && b.journal[k].action == AutomaticCredit
         && c.credited == -EntryOn(b.journal, k, WalletAvailable(t.frozen.provider))
         && c.credited == EntryOn(b.journal, k, ProviderPending(t.frozen.provider))
  }

  /** `evidence_valid_tx`: the independent audit that every projection equals the
      journal and that a settled termination accounts for the whole remainder. */
  predicate Evidence(b: Book) {
    && b.term.Some?
    && var t := b.term.value;
    && t.returned == -Total(b.journal, BySource(ClientTermination), WalletAvailable(t.frozen.buyer))
    && t.compensation == (if b.award.Some? then b.award.value.amount - b.award.value.reversed else 0)
    && PeriodEvidence(b, t)
    && TermsEvidence(b, t)
    && (Settled(t) ==> t.returned + t.compensation + t.held == t.frozen.remaining)
    && (b.award.Some? ==> AwardEvidence(b, t, b.award.value))
  }

  // ---------------------------------------------------------------- acceptance

  datatype RequestReason = Voluntary | ProviderIssue | PlatformIssue | OtherReason

  datatype Request = Request(previewValid: bool, reason: RequestReason, claimBytes: nat)

  /** Settling the service tail: what was delivered, what was unavailable and goes back to
      the buyer, and whether the period ends with it; settling may also fail. */
  datatype Tail = Tail(ok: bool, delivered: nat, unavailable: nat, closes: bool)

  datatype Acceptance = Acceptance(actor: Option<string>, release: bool, request: Option<Request>, tail: Tail)

  /** Settle service up to the cutoff: delivered units become fulfilled and unavailable ones
      are refunded, and both leave the unfulfilled liability. */
  function SettleTail(b: Book, r: Rental, tail: Tail): Book {
    match r.period
    case None => b
    case Some(p) =>
      var account, wallet := Unfulfilled(p.id), WalletAvailable(r.buyer);
      b.(rental := Some(r.(period := Some(p.(fulfilled := p.fulfilled + tail.delivered,
                                             refunded := p.refunded + tail.unavailable,
                                             open := p.open && !tail.closes)))),
      foreign := b.foreign[account := Foreign(b, account) + tail.delivered + tail.unavailable]
                          [wallet := Foreign(b, wallet) - tail.unavailable])
  }

  predicate TailFits(r: Rental, tail: Tail) {
    r.period.Some? ==> tail.delivered + tail.unavailable <= PeriodRemaining(r.period.value)
  }

  function OpeningResponsibility(r: Rental, a: Acceptance, voluntary: bool): Responsibility {
    if voluntary then
      (if a.request.Some? && a.request.value.reason == Voluntary then BuyerFault else Undetermined)
    else if a.actor == Some(r.provider) then ProviderFault
    else NoFault
  }

  predicate IsVoluntary(r: Rental, a: Acceptance) {
    a.release || (a.actor == Some(r.buyer) && a.actor != Some(r.provider))
  }

  function AcceptanceRefusal(b: Book, a: Acceptance): Option<Error> {
    if b.rental.None? then Some(NotFound)
    else
      var r := b.rental.value;
      if BasisOf(r).Err? then Some(BasisOf(r).error)
      else if a.actor.Some? && a.actor != Some(r.buyer) && a.actor != Some(r.provider) then Some(Forbidden)
      else if IsVoluntary(r, a) && a.actor != Some(r.buyer) then Some(Forbidden)
      else if IsVoluntary(r, a) && (a.request.None? || !a.request.value.previewValid) then Some(Conflict)
      else if IsVoluntary(r, a) && (a.request.value.reason == OtherReason || a.request.value.claimBytes > 2000)
        then Some(BadRequest)
      else if r.contract.Some? && (!a.tail.ok || !TailFits(r, a.tail)) then Some(Internal)
      else None
  }

  /** The frozen snapshot a first acceptance writes. */
  function OpenTermination(r: Rental, basis: Basis, voluntary: bool, wanted: Responsibility, cap: int, at: int)
    : Termination
  {
    var responsibility := if wanted == Undetermined && cap == 0 then NoFault else wanted;
    var opening := responsibility == Undetermined && cap > 0;
    Termination(
      Snapshot(r.host, r.contract, if r.period.Some? then Some(r.period.value.id) else None, r.buyer, r.provider,
               basis.policy, basis.rate, basis.amount, basis.remaining, at),
      Claim(responsibility, opening, if opening then Some(at) else None, None),
      cap, 0, 0, 0, CleanupPending, None, 1)
  }

  /** `accept_tx`: a replay keeps the first snapshot. */
  function Accept(b: Book, a: Acceptance, at: int): Result<Book> {
    if b.term.Some? then Ok(b)
    else if AcceptanceRefusal(b, a) == Some(NotFound) && !a.release then Ok(b)
    else
      match AcceptanceRefusal(b, a)
      case Some(e) => Err(e)
      case None =>
        var r := b.rental.value;
        var voluntary := IsVoluntary(r, a);
        var b1 := if r.contract.Some? then SettleTail(b, r, a.tail) else b;
        var r1 := b1.rental.value;
        match BasisOf(r1)
        case Err(e) => Err(e)
        case Ok(basis) =>
          var cap := if voluntary && basis.eligible
                     then Compensation(basis.amount, basis.remaining, basis.rate) else Ok(0);
          match cap
          case Err(e) => Err(e)
          case Ok(units) =>
            Ok(b1.(term := Some(OpenTermination(r1, basis, voluntary, OpeningResponsibility(r, a, voluntary), units,
                at))))
  }

  // ---------------------------------------------------------------- money movements

  function RefundPeriod(b: Book, refund: int, compensation: int): Option<Rental> {
    match b.rental
    case None => None
    case Some(r) =>
      if r.period.None? then b.rental
      else
        var p := r.period.value;
        Some(r.(period := Some(p.(refunded := p.refunded + refund, compensation := p.compensation + compensation))))
  }

  /** Entries a step appends; zero units write nothing. */
  function Moved(action: Action, from: Account, to: Account, units: int): seq<Entry> {
    if units == 0 then [] else [Transfer(ClientTermination, action, from, to, units)]
  }

  function NewAward(provider: string, units: int, entry: nat, at: int): AwardRow {
    AwardRow(provider, units, 0, 0, false, at, at + MATURITY, entry, None)
  }

  // ---------------------------------------------------------------- verified cleanup

  datatype TerminateResult = TerminateFailed | NotFinalized | Finalized

  /** Outcomes of the finance checks and helpers outside this record: whether the finance
      scopes are safe, whether the credited wallet has room for the units, and whether the
      earning holds of the contract could be released. `cutoff` dates a rental that was
      cleaned up before terminations were recorded. */
  datatype CleanupEnv = CleanupEnv(
    safe: bool, terminate: TerminateResult, cutoff: int, tail: Tail, room: bool, released: bool)

  /** What a successful cleanup does with the remainder, fixed by the row alone. */
  datatype Split = Split(returned: int, compensation: int, held: int)

  function PlannedSplit(t: Termination): Split {
    var hold := if t.claim.responsibility == Undetermined then t.cap else 0;
    var award := if t.claim.responsibility == BuyerFault then t.cap else 0;
    Split(t.frozen.remaining - hold - award, award, hold)
  }

  function CleanupRefusal(b: Book, t: Termination, env: CleanupEnv): Option<Error> {
    if !Evidence(b) then Some(Conflict)
    else if !env.safe then Some(FinanceHold)
    else if t.frozen.contract.Some? && t.frozen.period.None? then
      (if env.terminate == TerminateFailed then Some(Internal) else None)
    else if t.frozen.contract.Some? then
      (match b.rental
       case None => Some(NotFound)
       case Some(r) =>
         match BasisOf(r)
         case Err(e) => Some(e)
         case Ok(basis) =>
           if r.period.None? || Some(r.period.value.id) != t.frozen.period || basis.remaining != t.frozen.remaining
           then Some(Conflict) else None)
    else None
  }

  /** A write of the settlement fails after the checks: the wallet credit overflows, or the
      earning holds stay. */
  predicate WriteFails(t: Termination, env: CleanupEnv) {
    t.frozen.contract.Some? &&
    ((t.frozen.period.Some? && PlannedSplit(t).returned > 0 && !env.room) || !env.released)
  }

  function SettleCleanup(b: Book, t: Termination, at: int): Book {
    var s := PlannedSplit(t);
    var monthly := t.frozen.contract.Some? && t.frozen.period.Some?;
    if !monthly then
      b.(term := Some(t.(confirmed := Some(at), status := (if t.held > 0 then Disputed else Completed),
          version := t.version + 1)))
    else
      var source := Unfulfilled(t.frozen.period.value);
      var j1 := b.journal + Moved(ReturnUnused(t.version), source, WalletAvailable(t.frozen.buyer), s.returned);
      var j2 := j1 + Moved(Award, source, ProviderPending(t.frozen.provider), s.compensation);
      var rental := RefundPeriod(b, s.returned, s.compensation);
      b.(term := Some(t.(
        returned := t.returned + s.returned,
        compensation := if s.compensation == 0 then t.compensation else s.compensation,
        held := s.held,
        confirmed := Some(at),
        status := if s.held > 0 then Disputed else Completed,
        version := t.version + 1)),
      award := if s.compensation == 0 then b.award else Some(NewAward(t.frozen.provider, s.compensation, |j1|, at)),
      journal := j2,
      rental := match rental
                case None => None
                case Some(r) => Some(if r.period.None? then r else r.(period := Some(r.period.value.(open := false)))))
  }

  /** A rental without a termination row gets one from its historical cleanup. */
  function EnsureTermination(b: Book, host: string, env: CleanupEnv): Result<Book> {
    if b.term.Some? then Ok(b)
    else if b.rental.None? || b.rental.value.host != host then Err(Conflict)
    else Accept(b, Acceptance(None, false, None, env.tail), env.cutoff)
  }

  /** `cleanup_confirmed_tx`. */
  function CleanupConfirmed(b: Book, host: string, env: CleanupEnv, at: int): Result<Book> {
    match EnsureTermination(b, host, env)
    case Err(e) => Err(e)
    case Ok(b1) =>
      if b1.term.None? then Err(Internal)
      else
        var t := b1.term.value;
        if t.frozen.host != host then Err(Conflict)
        else if Settled(t) then Ok(b1)
        else
          match CleanupRefusal(b1, t, env)
          case Some(e) => Err(e)
          case None =>
            if t.frozen.contract.Some? && t.frozen.period.None? && env.terminate == NotFinalized then Ok(b1)
            else if WriteFails(t, env) then Err(Internal)
            else Ok(SettleCleanup(b1, t, at))
  }

  /** The savepoint fallback: keep the receipt, move no money. */
  function HoldForFinance(b: Book, at: int): Book {
    match b.term
    case None => b
    case Some(t) =>
      b.(term := Some(t.(
        confirmed := if t.confirmed.Some? then t.confirmed else Some(at),
        status := FinancePending,
        version := t.version + 1)))
  }

  /** `record_cleanup_confirmed_tx`. */
  function RecordCleanup(b: Book, host: string, env: CleanupEnv, at: int): Result<Book> {
    if b.rental.None? then Ok(b)
    else if b.rental.value.host != host then Err(Conflict)
    else
      var b1 := b.(receipt := if b.receipt.Some? then b.receipt else Some(at));
      match CleanupConfirmed(b1, host, env, at)
      case Ok(b2) => Ok(b2)
      case Err(_) => Ok(HoldForFinance(b1, at))
  }

  /** `cleanup_failed_tx`: a failed SSH cleanup before any confirmation. */
  function MarkCleanupFailed(b: Book): Book {
    if b.term.Some? && b.term.value.confirmed.None? && b.term.value.status != CleanupFailed then
      b.(term := Some(b.term.value.(status := CleanupFailed, version := b.term.value.version + 1)))
    else b
  }

  /** A new cleanup job is bound to an unconfirmed termination. */
  function RestartCleanup(b: Book): Book {
    if b.term.Some? && b.term.value.confirmed.None? then
      b.(term := Some(b.term.value.(status := CleanupPending)))
    else b
  }

  // ---------------------------------------------------------------- decisions

  datatype Authority = Owner | ProviderActor(user: string) | BuyerWithdrawal(user: string) | Timeout

  /** Outcomes of the finance checks and of the wallet credit's overflow check. */
  datatype Finance = Finance(safe: bool, room: bool)

  datatype Note = Note(chars: nat, bytes: nat)

  predicate NoteOk(n: Note) { n.chars >= 3 && n.bytes <= 2000 }

  /** Unparsable award text and unknown responsibility text are `None`. */
  datatype Decision = Decision(version: int, award: Option<int>, responsibility: Option<Responsibility>, note: Note)

  predicate IsParty(who: Authority, t: Termination) {
    match who
    case Owner => true
    case ProviderActor(user) => t.frozen.provider == user
    case BuyerWithdrawal(user) => t.frozen.buyer == user
    case Timeout => true
  }

  predicate AwardAllowed(who: Authority, award: int, responsibility: Responsibility, current: int) {
    && 0 <= award <= current
    && (responsibility in {ProviderFault, PlatformFault, NoFault} ==> award == 0)
    && (who.ProviderActor? ==> !(award == current && current > 0))
    && (who.BuyerWithdrawal? ==> award == current && responsibility == BuyerFault)
    && (who.Timeout? ==> award == 0)
  }

  /** The liability a reduction is paid from once money has been split. */
  function ReductionSource(t: Termination): Account {
    if t.compensation > 0 then ProviderPending(t.frozen.provider)
    else Unfulfilled(if t.frozen.period.Some? then t.frozen.period.value else "")
  }

  /** Every check `apply_decision_tx` makes before it writes. */
  function DecisionGuard(b: Book, who: Authority, d: Decision, fin: Finance, at: int): Option<Error> {
    if b.term.None? then Some(NotFound)
    else
      var t := b.term.value;
      var current := Stake(t);
      if !IsParty(who, t) then Some(Forbidden)
      else if who.Timeout? != Due(t, at) then Some(Conflict)
      else if (who.BuyerWithdrawal? || who.Timeout?) && (t.claim.responsibility != Undetermined || !t.claim.used)
        then Some(Conflict)
      else if t.status == FinancePending then Some(Conflict)
      else if t.version != d.version then Some(Conflict)
      else if !NoteOk(d.note) then Some(BadRequest)
      else if d.responsibility.None? || d.responsibility.value == Undetermined then Some(BadRequest)
      else if d.award.None? then Some(BadRequest)
      else if current == 0 && t.confirmed.Some? then Some(Conflict)
      else if !AwardAllowed(who, d.award.value, d.responsibility.value, current) then Some(BadRequest)
      else if Credited(b) > 0 then Some(Conflict)
      else if !Evidence(b) then Some(Conflict)
      else if !fin.safe then Some(FinanceHold)
      else if t.confirmed.Some? && t.compensation > 0 && b.award.Some?
           && at >= b.award.value.unlockAt && t.status != Disputed then Some(Conflict)
      else None
  }

  /** The guards, and the liability and overflow checks of the wallet credit a reduction needs. */
  function DecisionRefusal(b: Book, who: Authority, d: Decision, fin: Finance, at: int): Option<Error> {
    match DecisionGuard(b, who, d, fin, at)
    case Some(e) => Some(e)
    case None =>
      var t := b.term.value;
      var cut := Stake(t) - d.award.value;
      if t.confirmed.Some? && cut > 0 && !Covers(b, ReductionSource(t), cut) then Some(Conflict)
      else if t.confirmed.Some? && cut > 0 && !fin.room then Some(Internal)
      else None
  }

  predicate StillDisputed(who: Authority, t: Termination, award: int) {
    who.ProviderActor? && t.claim.responsibility == Undetermined && award > 0
  }

  function DecidedResponsibility(who: Authority, t: Termination, award: int, wanted: Responsibility): Responsibility {
    if !who.ProviderActor? then wanted
    else if StillDisputed(who, t, award) then Undetermined
    else if award == 0 then ProviderFault
    else t.claim.responsibility
  }

  function DecidedResponse(who: Authority, t: Termination, at: int): Option<int> {
    if who.ProviderActor? && t.claim.responsibility == Undetermined && t.claim.respondedAt.None? then Some(at)
        else t.claim.respondedAt
  }

  /** The book after an admitted decision. */
  function Decided(b: Book, t: Termination, who: Authority, award: int, wanted: Responsibility, at: int): Book {
    var still := StillDisputed(who, t, award);
    var t1 := t.(claim := t.claim.(responsibility := DecidedResponsibility(who, t, award, wanted),
                                   respondedAt := DecidedResponse(who, t, at)),
                 version := t.version + 1);
    var cut := Stake(t) - award;
    var status := if still then Disputed else Completed;
    if t.confirmed.None? then b.(term := Some(t1.(cap := award)))
    else if t.compensation > 0 then
      b.(term := Some(t1.(compensation := award, returned := t.returned + cut, status := status)),
      award := match b.award
               case None => None
               case Some(c) => Some(c.(reversed := c.reversed + cut, disputed := still)),
      rental := RefundPeriod(b, cut, -cut),
      journal := b.journal + Moved(ReturnCompensation(t.version), ProviderPending(t.frozen.provider),
          WalletAvailable(t.frozen.buyer), cut))
    else
      var source := ReductionSource(t);
      var granted := if still then 0 else award;
      var j1 := b.journal + Moved(ReturnDisputed(t.version), source, WalletAvailable(t.frozen.buyer), cut);
      b.(term := Some(t1.(
        held := if still then award else 0,
        compensation := granted,
        returned := t.returned + cut,
        status := status)),
      award := if granted == 0 then b.award else Some(NewAward(t.frozen.provider, granted, |j1|, at)),
      rental := RefundPeriod(b, cut, granted),
      journal := j1 + Moved(Award, source, ProviderPending(t.frozen.provider), granted))
  }

  /** `apply_decision_tx`. */
  function Decide(b: Book, who: Authority, d: Decision, fin: Finance, at: int): Result<Book> {
    match DecisionRefusal(b, who, d, fin, at)
    case Some(e) => Err(e)
    case None => Ok(Decided(b, b.term.value, who, d.award.value, d.responsibility.value, at))
  }

  const WORKER_NOTE: Note := Note(80, 80)

  /** `withdraw_tx`: the buyer accepts whatever is still at stake. */
  function Withdraw(b: Book, user: string, version: int, fin: Finance, at: int): Result<Book> {
    if b.term.None? then Err(NotFound)
    else Decide(b, BuyerWithdrawal(user), Decision(version, Some(Stake(b.term.value)), Some(BuyerFault), WORKER_NOTE),
        fin, at)
  }

  /** One item of the timeout worker. */
  function ExpireDispute(b: Book, fin: Finance, at: int): Result<Book> {
    if b.term.None? then Err(NotFound)
    else Decide(b, Timeout, Decision(b.term.value.version, Some(0), Some(NoFault), WORKER_NOTE), fin, at)
  }

  // ---------------------------------------------------------------- claim steps

  /** `respond_tx`: a formal answer is not an award. */
  function Respond(b: Book, user: string, version: int, note: Note, at: int): Result<Book> {
    if b.term.None? then Err(NotFound)
    else
      var t := b.term.value;
      if t.frozen.provider != user then Err(Forbidden)
      else if t.version != version || t.claim.responsibility != Undetermined || !t.claim.used
           || t.claim.respondedAt.Some? || Stake(t) == 0 || Due(t, at) then Err(Conflict)
      else if !NoteOk(note) then Err(BadRequest)
      else Ok(b.(term := Some(t.(claim := t.claim.(respondedAt := Some(at)), version := t.version + 1))))
  }

  /** `dispute_tx`: at most once, before maturity, while something is at stake. */
  function Dispute(b: Book, user: string, version: int, claimBytes: nat, at: int): Result<Book> {
    if b.term.None? then Err(NotFound)
    else
      var t := b.term.value;
      if t.frozen.buyer != user then Err(Forbidden)
      else if t.status == FinancePending then Err(Conflict)
      else if t.version != version || t.claim.used || t.cap == 0 || Credited(b) > 0 then Err(Conflict)
      else if claimBytes > 2000 then Err(BadRequest)
      else if b.award.Some? && at >= b.award.value.unlockAt then Err(Conflict)
      else if t.confirmed.Some? && t.compensation == 0 then Err(Conflict)
      else
        Ok(b.(term := Some(t.(claim := Claim(Undetermined, true, Some(at), None),
                              status := if t.confirmed.None? then t.status else Disputed,
                              version := t.version + 1)),
           award := match b.award
                    case None => None
                    case Some(c) => Some(c.(disputed := true))))
  }

  // ---------------------------------------------------------------- automatic credit

  /** The credit worker's selection predicate. */
  predicate CreditDue(b: Book, at: int) {
    && b.award.Some?
    && !b.award.value.disputed
    && b.award.value.amount - b.award.value.reversed - b.award.value.credited > 0
    && b.award.value.unlockAt <= at
  }

  /** One item of the credit worker; `Ok` with the same book is a skipped item. */
  function Credit(b: Book, canManage: bool, fin: Finance, at: int): Result<Book> {
    if !CreditDue(b, at) then Ok(b)
    else if b.term.None? then Err(NotFound)
    else
      var t := b.term.value;
      var c := b.award.value;
      if t.status != Completed || !canManage then Ok(b)
      else if !Evidence(b) then Err(Internal)
      else if !fin.safe then Err(FinanceHold)
      else if t.compensation <= 0 then Err(BadRequest)
      else if KeyUsed(b.journal, ClientCompensation, AutomaticCredit) then Err(Internal)
      else if !Covers(b, ProviderPending(t.frozen.provider), t.compensation) then Err(Conflict)
      else if !fin.room then Err(Internal)
      else
        var e := Transfer(ClientCompensation, AutomaticCredit, ProviderPending(t.frozen.provider),
            WalletAvailable(t.frozen.provider), t.compensation);
        Ok(b.(journal := b.journal + [e],
           award := Some(if c.credited == 0 then c.(credited := t.compensation, creditEntry := Some(|b.journal|))
               else c)))
  }

  // ---------------------------------------------------------------- everyone else

  /** Any other journal may move any account except this period's own liability. */
  function ForeignPost(b: Book, a: Account, units: int): Book {
    if b.rental.Some? && b.rental.value.period.Some? && a == Unfulfilled(b.rental.value.period.value.id) then b
    else b.(foreign := b.foreign[a := Foreign(b, a) + units])
  }
}
