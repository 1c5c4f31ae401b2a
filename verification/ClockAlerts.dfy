/** The clock alert machine, specified by the history of probes it has observed. */
module ClockAlerts {
  import opened Base

  const AHEAD_WARNING: int := 2_000
  const AHEAD_CRITICAL: int := 4_000
  const AHEAD_REJECTION: int := 5_000
  const BEHIND_WARNING: int := -15_000
  const BEHIND_CRITICAL: int := -25_000
  const BEHIND_REJECTION: int := -30_000
  const RECOVERY: int := 2_000
  const U8_MAX: nat := 255

  datatype Risk = Healthy | Warning | Critical

  /** One probe round: the quorum offset if there was one, its uncertainty, and the
      operating system's own view of synchronisation. */
  datatype Probe = Probe(offset: Option<int>, uncertainty: Option<nat>, ntp: Option<bool>)

  datatype Skew = Skew(risk: Risk, offset: int)

  datatype Condition = SkewAlert(skew: Skew) | AssuranceLost(critical: bool) | NtpUnsynchronized

  function Classify(offset: int): Risk {
    if offset >= AHEAD_CRITICAL || offset <= BEHIND_CRITICAL then Critical
    else if offset >= AHEAD_WARNING || offset <= BEHIND_WARNING then Warning
    else Healthy
  }

  // ---------------------------------------------------------------- history

  predicate Risky(p: Probe) { p.offset.Some? && Classify(p.offset.value) != Healthy }

  predicate CriticalOffset(p: Probe) { p.offset.Some? && Classify(p.offset.value) == Critical }

  predicate Aligned(p: Probe) { p.offset.Some? && -RECOVERY < p.offset.value < RECOVERY }

  /** Even at the favourable end of its uncertainty the offset is past the protocol's
      rejection bound. The uncertainty is an unsigned word read as a signed one. */
  predicate Rejected(p: Probe) {
    p.offset.Some? &&
    var u := WrapI64(if p.uncertainty.Some? then p.uncertainty.value else 0);
    SaturateI64(p.offset.value - u) > AHEAD_REJECTION || SaturateI64(p.offset.value + u) < BEHIND_REJECTION
  }

  datatype Counter = RiskCount | RecoveryCount | ReferenceCount | NtpCount

  /** What extends each streak, and what ends it; other probes leave it alone. */
  predicate Hit(c: Counter, p: Probe) {
    match c
    case RiskCount => Risky(p)
    case RecoveryCount => Aligned(p)
    case ReferenceCount => p.offset.None?
    case NtpCount => p.ntp == Some(false)
  }

  predicate Reset(c: Counter, p: Probe) {
    match c
    case RiskCount => p.offset.Some? && !Risky(p)
    case RecoveryCount => !Aligned(p)
    case ReferenceCount => p.offset.Some?
    case NtpCount => p.ntp == Some(true)
  }

  predicate Counted(c: Counter, h: seq<Probe>, i: int) {
    0 <= i < |h| && Hit(c, h[i]) && forall j :: i <= j < |h| ==> !Reset(c, h[j])
  }

  ghost function Hits(c: Counter, h: seq<Probe>): set<int> { set i | 0 <= i < |h| && Counted(c, h, i) }

  /** How many probes since the last one that ends the streak, capped at a byte. */
  ghost function Streak(c: Counter, h: seq<Probe>): nat { Min(|Hits(c, h)|, U8_MAX) }

  /** The newest probe of the first `k + 1` calls for an alert by itself. */
  ghost predicate Trigger(h: seq<Probe>, k: int) {
    0 <= k < |h| && Risky(h[k]) && (Rejected(h[k]) || Streak(RiskCount, h[..k + 1]) >= 2)
  }

  predicate Clears(h: seq<Probe>, k: int) {
    2 <= k < |h| && Aligned(h[k]) && Aligned(h[k - 1]) && Aligned(h[k - 2])
  }

  predicate Standing(h: seq<Probe>, k: int) { forall j :: k < j < |h| ==> !Clears(h, j) }

  /** A skew alert is on exactly when some trigger has not been cleared since. */
  ghost predicate Active(h: seq<Probe>) { exists k :: Trigger(h, k) && Standing(h, k) }

  ghost predicate Escalates(h: seq<Probe>, k: int) {
    0 <= k < |h| && CriticalOffset(h[k]) && Active(h[..k + 1])
  }

  /** The alert is critical exactly when a critical probe arrived while it was on. */
  ghost predicate Escalated(h: seq<Probe>) { exists k :: Escalates(h, k) && Standing(h, k) }

  /** Probes whose offset the alert quotes. */
  ghost predicate Raises(h: seq<Probe>, k: int) {
    Trigger(h, k) || (0 <= k < |h| && CriticalOffset(h[k]) && Active(h[..k]) && !Escalated(h[..k]))
  }

  ghost predicate LastRaise(h: seq<Probe>, k: int) { Raises(h, k) && forall j :: k < j < |h| ==> !Raises(h, j) }

  /** The alert a history leaves behind. */
  ghost predicate Recorded(h: seq<Probe>, a: Option<Skew>) {
    && (a.Some? <==> Active(h))
    && (a.Some? ==> a.value.risk == if Escalated(h) then Critical else Warning)
    && (a.Some? ==> exists k :: 0 <= k < |h| && LastRaise(h, k) && h[k].offset == Some(a.value.offset))
  }

  /** The single condition, if any, reported after a history. */
  ghost function Emission(h: seq<Probe>, a: Option<Skew>): Option<Condition> {
    if a.Some? then Some(SkewAlert(a.value))
    else if Streak(ReferenceCount, h) >= 2 && Streak(NtpCount, h) >= 2 then Some(AssuranceLost(true))
    else if Streak(ReferenceCount, h) >= 5 then Some(AssuranceLost(false))
    else if Streak(NtpCount, h) >= 5 then Some(NtpUnsynchronized)
    else None
  }

  // ---------------------------------------------------------------- one more probe

  lemma HitsStep(c: Counter, h: seq<Probe>, p: Probe)
    ensures Hits(c, h + [p]) == if Reset(c, p) then {} else if Hit(c, p) then Hits(c, h) + {|h|} else Hits(c, h)
  {
    var g := h + [p];
    assert forall i :: 0 <= i < |h| ==> g[i] == h[i];
    assert g[|h|] == p;
    forall i | 0 <= i < |g|
      ensures Counted(c, g, i) <==> !Reset(c, p) && (if i < |h| then Counted(c, h, i) else Hit(c, p))
    {
      if Counted(c, g, i) && i < |h| { assert Counted(c, h, i); }
    }
  }

  /** Each streak follows the machine's update rule. */
  lemma StreakStep(c: Counter, h: seq<Probe>, p: Probe)
    ensures Streak(c, h + [p]) ==
            if Reset(c, p) then 0 else if Hit(c, p) then Min(Streak(c, h) + 1, U8_MAX) else Streak(c, h)
  {
    HitsStep(c, h, p);
    hide Hit, Reset;
  }

  lemma EmptyStreak(c: Counter)
    ensures Streak(c, []) == 0
  {
    assert Hits(c, []) == {};
  }

  /** Three in the recovery streak means the last three probes were aligned. */
  lemma RecoveryIsThreeAligned(h: seq<Probe>)
    ensures |h| > 0 ==> (Streak(RecoveryCount, h) >= 3 <==> Clears(h, |h| - 1))
  {
    hide Streak;
    var n := |h|;
    if n >= 1 {
      assert h == h[..n - 1] + [h[n - 1]];
      StreakStep(RecoveryCount, h[..n - 1], h[n - 1]);
    }
    if n >= 2 {
      assert h[..n - 1] == h[..n - 2] + [h[n - 2]];
      StreakStep(RecoveryCount, h[..n - 2], h[n - 2]);
    }
    if n >= 3 {
      assert h[..n - 2] == h[..n - 3] + [h[n - 3]];
      StreakStep(RecoveryCount, h[..n - 3], h[n - 3]);
    }
    if n == 1 || n == 2 {
      assert h[..0] == [];
      EmptyStreak(RecoveryCount);
    }
  }

  /** Appending a probe changes nothing about earlier positions. */
  lemma PrefixTrigger(h: seq<Probe>, t: seq<Probe>, k: int)
    requires 0 <= k < |h|
    ensures Trigger(h + t, k) == Trigger(h, k)
    ensures Clears(h + t, k) == Clears(h, k)
    ensures (h + t)[..k + 1] == h[..k + 1] && (h + t)[..k] == h[..k]
  {
    assert (h + t)[..k + 1] == h[..k + 1];
  }

  lemma StandingStep(h: seq<Probe>, p: Probe, k: int)
    requires 0 <= k < |h|
    ensures Standing(h + [p], k) <==> Standing(h, k) && !Clears(h + [p], |h|)
  {
    forall j | 0 <= j < |h| ensures Clears(h + [p], j) == Clears(h, j) { PrefixTrigger(h, [p], j); }
    assert |h + [p]| == |h| + 1;
  }

  lemma ActiveStep(h: seq<Probe>, p: Probe)
    ensures var g := h + [p];
            Active(g) <==> Trigger(g, |h|) || (Active(h) && !Clears(g, |h|))
  {
    var g := h + [p];
    hide Trigger, Clears, Standing;
    forall k | 0 <= k < |h| ensures Trigger(g, k) == Trigger(h, k)
        && (Standing(g, k) <==> Standing(h, k) && !Clears(g, |h|)) {
      PrefixTrigger(h, [p], k);
      StandingStep(h, p, k);
    }
    StandingAtEnd(g);
    assert forall k :: Trigger(g, k) ==> 0 <= k <= |h| by { TriggerBounds(g); }
    assert forall k :: Trigger(h, k) ==> 0 <= k < |h| by { TriggerBounds(h); }
    if Active(h) && !Clears(g, |h|) {
      var k :| Trigger(h, k) && Standing(h, k);
      assert Trigger(g, k) && Standing(g, k);
    }
    if Active(g) && !Trigger(g, |h|) {
      var k :| Trigger(g, k) && Standing(g, k);
      assert Trigger(h, k) && Standing(h, k);
    }
  }

  lemma StandingAtEnd(h: seq<Probe>)
    ensures Standing(h, |h| - 1)
  {
  }

  lemma TriggerBounds(h: seq<Probe>)
    ensures forall k :: Trigger(h, k) ==> 0 <= k < |h|
  {
  }

  lemma EscalatedStep(h: seq<Probe>, p: Probe)
    ensures var g := h + [p];
            Escalated(g) <==> (CriticalOffset(p) && Active(g)) || (Escalated(h) && !Clears(g, |h|))
  {
    var g := h + [p];
    hide CriticalOffset, Active, Clears, Standing;
    forall k | 0 <= k < |h| ensures Escalates(g, k) == Escalates(h, k)
        && (Standing(g, k) <==> Standing(h, k) && !Clears(g, |h|)) {
      PrefixTrigger(h, [p], k);
      StandingStep(h, p, k);
    }
    StandingAtEnd(g);
    assert g[..|h| + 1] == g;
    assert Escalates(g, |h|) <==> CriticalOffset(p) && Active(g);
    if Escalated(h) && !Clears(g, |h|) {
      var k :| Escalates(h, k) && Standing(h, k);
      assert Escalates(g, k) && Standing(g, k);
    }
    if Escalated(g) && !Escalates(g, |h|) {
      var k :| Escalates(g, k) && Standing(g, k);
      assert Escalates(h, k) && Standing(h, k);
    }
  }

  /** Only an alert that is on can be critical. */
  lemma EscalatedIsActive(h: seq<Probe>)
    requires Escalated(h)
    ensures Active(h)
  {
    var k :| Escalates(h, k) && Standing(h, k);
    var f := h[..k + 1];
    var t :| Trigger(f, t) && Standing(f, t);
    assert h == f + h[k + 1..];
    forall j | 0 <= j < |f| ensures Trigger(h, j) == Trigger(f, j) && Clears(h, j) == Clears(f, j) {
      PrefixTrigger(f, h[k + 1..], j);
    }
    assert Trigger(h, t) && Standing(h, t);
  }

  lemma LastRaiseStep(h: seq<Probe>, p: Probe, k: int)
    requires 0 <= k < |h| && LastRaise(h, k) && !Raises(h + [p], |h|)
    ensures LastRaise(h + [p], k)
  {
    hide Trigger, Active, Escalated, CriticalOffset;
    forall j | 0 <= j < |h| ensures Raises(h + [p], j) == Raises(h, j) { PrefixTrigger(h, [p], j); }
  }

  /** The probe just observed calls for the recorded alert to be rewritten. */
  lemma NewestRaises(h: seq<Probe>, p: Probe)
    ensures var g := h + [p];
            && (Trigger(g, |h|) <==> Risky(p) && (Rejected(p) || Streak(RiskCount, g) >= 2))
            && (Raises(g, |h|) <==> Trigger(g, |h|) || (CriticalOffset(p) && Active(h) && !Escalated(h)))
  {
    var g := h + [p];
    hide Active, Escalated, Rejected, Streak, CriticalOffset;
    assert g[..|h| + 1] == g && g[..|h|] == h;
  }

  /** The machine's own update of the recorded alert. */
  function NextSkew(a: Option<Skew>, p: Probe, riskStreak: nat, recoveryStreak: nat): Option<Skew> {
    if Aligned(p) then (if recoveryStreak >= 3 then None else a)
    else if Risky(p) && (Rejected(p) || riskStreak >= 2
        || (CriticalOffset(p) && a.Some? && a.value.risk == Warning)) then
      Some(Skew(if a.Some? && a.value.risk == Critical then Critical else Classify(p.offset.value), p.offset.value))
    else a
  }

  /** The update keeps the recorded alert equal to what the longer history leaves behind. */
  lemma SkewStep(h: seq<Probe>, a: Option<Skew>, p: Probe)
    requires Recorded(h, a)
    ensures Recorded(h + [p], NextSkew(a, p, Streak(RiskCount, h + [p]), Streak(RecoveryCount, h + [p])))
  {
    var g := h + [p];
    var n := NextSkew(a, p, Streak(RiskCount, g), Streak(RecoveryCount, g));
    assert g[|h|] == p;
    ActiveStep(h, p);
    EscalatedStep(h, p);
    NewestRaises(h, p);
    RecoveryIsThreeAligned(g);
    if Escalated(h) { EscalatedIsActive(h); }
    hide Active, Escalated, Streak, Trigger, LastRaise, Raises, Rejected;
    RejectedIsCritical(p);
    assert (n.Some? <==> Active(g)) && (n.Some? ==> n.value.risk == if Escalated(g) then Critical else Warning);
    if n.Some? {
      if Raises(g, |h|) {
        assert LastRaise(g, |h|) by { RaiseAtEnd(g); }
        assert n.value.offset == p.offset.value;
      } else {
        assert n == a;
        var k :| 0 <= k < |h| && LastRaise(h, k) && h[k].offset == Some(a.value.offset);
        LastRaiseStep(h, p, k);
        assert g[k] == h[k];
      }
    }
  }

  lemma RaiseAtEnd(h: seq<Probe>)
    requires Raises(h, |h| - 1)
    ensures LastRaise(h, |h| - 1)
  {
  }

  lemma RejectedIsCritical(p: Probe)
    ensures Aligned(p) ==> !Risky(p)
    ensures CriticalOffset(p) ==> Risky(p)
  {
  }

  /** The history determines the alert. */
  lemma RecordedIsUnique(h: seq<Probe>, a: Option<Skew>, b: Option<Skew>)
    requires Recorded(h, a) && Recorded(h, b)
    ensures a == b
  {
    hide Active, Escalated, Raises;
    if a.Some? {
      var i :| 0 <= i < |h| && LastRaise(h, i) && h[i].offset == Some(a.value.offset);
      var k :| 0 <= k < |h| && LastRaise(h, k) && h[k].offset == Some(b.value.offset);
      assert i == k;
    }
  }

  // ---------------------------------------------------------------- the machine

  class ClockAlertMachine {
    var riskStreak: nat
    var recoveryStreak: nat
    var ntpBadStreak: nat
    var referenceBadStreak: nat
    var activeSkew: Option<Skew>
    ghost var history: seq<Probe>

    /** Every field is the matching function of the observed history. */
    ghost predicate Valid()
      reads this
    {
      && riskStreak == Streak(RiskCount, history)
      && recoveryStreak == Streak(RecoveryCount, history)
      && ntpBadStreak == Streak(NtpCount, history)
      && referenceBadStreak == Streak(ReferenceCount, history)
      && Recorded(history, activeSkew)
    }

    constructor ()
      ensures Valid() && history == []
    {
      riskStreak, recoveryStreak, ntpBadStreak, referenceBadStreak := 0, 0, 0, 0;
      activeSkew, history := None, [];
      new;
      EmptyStreak(RiskCount);
      EmptyStreak(RecoveryCount);
      EmptyStreak(NtpCount);
      EmptyStreak(ReferenceCount);
    }

    method ObserveOffset(offset: int, uncertainty: Option<nat>)
      modifies `riskStreak, `recoveryStreak, `activeSkew
      ensures var p := Probe(Some(offset), uncertainty, None);
              && riskStreak == (if Risky(p) then Min(old(riskStreak) + 1, U8_MAX) else 0)
              && recoveryStreak == (if Aligned(p) then Min(old(recoveryStreak) + 1, U8_MAX) else 0)
              && activeSkew == NextSkew(old(activeSkew), p, riskStreak, recoveryStreak)
    {
      var raw := Classify(offset);
      if raw == Healthy && (if offset < 0 then -offset else offset) < RECOVERY {
        riskStreak := 0;
        recoveryStreak := Min(recoveryStreak + 1, U8_MAX);
        if recoveryStreak >= 3 {
          activeSkew := None;
        }
      } else if raw == Healthy {
        riskStreak := 0;
        recoveryStreak := 0;
      } else {
        recoveryStreak := 0;
        riskStreak := Min(riskStreak + 1, U8_MAX);
        var u := WrapI64(if uncertainty.Some? then uncertainty.value else 0);
        var rejected := SaturateI64(offset - u) > AHEAD_REJECTION || SaturateI64(offset + u) < BEHIND_REJECTION;
        var alreadyWarning := activeSkew.Some? && activeSkew.value.risk == Warning;
        if rejected || riskStreak >= 2 || (raw == Critical && alreadyWarning) {
          if activeSkew.Some? && activeSkew.value.risk == Critical {
            activeSkew := Some(Skew(Critical, offset));
          } else {
            activeSkew := Some(Skew(raw, offset));
          }
        }
      }
    }

    /** `observe`: at most one condition comes out, and it is the one the history calls for. */
    method Observe(p: Probe) returns (c: Option<Condition>)
      requires Valid()
      modifies this
      ensures Valid() && history == old(history) + [p]
      ensures c == Emission(history, activeSkew)
    {
      ghost var h := history;
      hide Streak, Recorded, Rejected, Classify;
      StreakStep(RiskCount, h, p);
      StreakStep(RecoveryCount, h, p);
      StreakStep(NtpCount, h, p);
      StreakStep(ReferenceCount, h, p);
      SkewStep(h, activeSkew, p);
      if p.offset.Some? {
        referenceBadStreak := 0;
        ObserveOffset(p.offset.value, p.uncertainty);
        OnlyOffsetMatters(p);
      } else {
        referenceBadStreak := Min(referenceBadStreak + 1, U8_MAX);
        recoveryStreak := 0;
      }
      if p.ntp == Some(false) {
        ntpBadStreak := Min(ntpBadStreak + 1, U8_MAX);
      } else if p.ntp == Some(true) {
        ntpBadStreak := 0;
      }
      history := h + [p];
      if activeSkew.Some? {
        return Some(SkewAlert(activeSkew.value));
      }
      if referenceBadStreak >= 2 && ntpBadStreak >= 2 {
        return Some(AssuranceLost(true));
      }
      if referenceBadStreak >= 5 {
        return Some(AssuranceLost(false));
      }
      if ntpBadStreak >= 5 {
        return Some(NtpUnsynchronized);
      }
      return None;
    }
  }

  /** The skew part of the machine does not look at the synchronisation flag. */
  lemma OnlyOffsetMatters(p: Probe)
    requires p.offset.Some?
    ensures var q := Probe(p.offset, p.uncertainty, None);
            && Risky(q) == Risky(p) && Aligned(q) == Aligned(p)
            && forall a, r, s :: NextSkew(a, q, r, s) == NextSkew(a, p, r, s)
  {
    hide Classify, WrapI64;
  }

  // ---------------------------------------------------------------- what it promises

  /** No alert without confirmation: an alert that is on goes back to a probe certain to be
      rejected, or to two risky probes with no healthy quorum between them. */
  lemma AlertNeedsConfirmation(h: seq<Probe>) returns (i: int, k: int)
    requires Active(h)
    ensures 0 <= i <= k < |h| && Risky(h[i]) && Risky(h[k]) && Standing(h, k)
    ensures Rejected(h[k]) || (i < k && forall j :: i < j < k && h[j].offset.Some? ==> Risky(h[j]))
  {
    k :| Trigger(h, k) && Standing(h, k);
    i := k;
    hide Rejected, Classify, Standing;
    if !Rejected(h[k]) {
      var g := h[..k + 1];
      var hits := Hits(RiskCount, g);
      i := OtherMember(hits, k);
      assert Counted(RiskCount, g, i);
      assert forall j :: i < j < k ==> g[j] == h[j] && !Reset(RiskCount, g[j]);
    }
  }

  lemma OtherMember(s: set<int>, k: int) returns (i: int)
    requires |s| >= 2
    ensures i in s && i != k
  {
    if forall x :: x in s ==> x == k {
      assert s <= {k};
      SubsetSize(s, {k});
    }
    i :| i in s && i != k;
  }

  /** Conversely, such a pair or such a probe always has the alert on at once. */
  lemma ConfirmationAlerts(h: seq<Probe>, i: int)
    requires 0 <= i < |h| && Risky(h[i]) && Risky(h[|h| - 1])
    requires Rejected(h[|h| - 1]) || i < |h| - 1
    requires forall j :: i < j < |h| && h[j].offset.Some? ==> Risky(h[j])
    ensures Active(h)
  {
    var n := |h| - 1;
    hide Rejected, Classify, Clears;
    assert h[..n + 1] == h;
    if !Rejected(h[n]) {
      assert Counted(RiskCount, h, i) && Counted(RiskCount, h, n);
      assert {i, n} <= Hits(RiskCount, h);
      SubsetSize({i, n}, Hits(RiskCount, h));
    }
    assert Trigger(h, n) && Standing(h, n);
  }

  /** A critical alert stays critical through every run that does not clear it. */
  lemma {:induction false} CriticalUntilCleared(h: seq<Probe>, t: seq<Probe>)
    requires Escalated(h)
    requires forall j :: |h| <= j < |h + t| ==> !Clears(h + t, j)
    ensures Escalated(h + t) && Active(h + t)
    decreases |t|
  {
    hide Active, Escalated;
    if |t| == 0 {
      assert h + t == h;
      EscalatedIsActive(h);
    } else {
      var s := t[..|t| - 1];
      var p := t[|t| - 1];
      assert h + t == (h + s) + [p];
      forall j | |h| <= j < |h + s| ensures !Clears(h + s, j) { PrefixTrigger(h + s, [p], j); }
      CriticalUntilCleared(h, s);
      EscalatedStep(h + s, p);
      EscalatedIsActive(h + t);
    }
  }

  /** An alert goes off at a probe exactly when that probe completes three aligned in a row. */
  lemma ClearedByThreeAligned(h: seq<Probe>, p: Probe)
    requires Active(h)
    ensures !Active(h + [p]) <==> Clears(h + [p], |h|)
  {
    ActiveStep(h, p);
  }

  /** The last `n` probes had no quorum. */
  predicate NoQuorum(h: seq<Probe>, n: nat) { n <= |h| && forall i :: |h| - n <= i < |h| ==> h[i].offset.None? }

  /** `n` probes were reported as unsynchronised and none as synchronised since the first of them. */
  ghost predicate Unsynchronized(h: seq<Probe>, n: nat) {
    exists s: set<int> :: AllUnsynced(h, s) && |s| == n
  }

  predicate AllUnsynced(h: seq<Probe>, s: set<int>) { forall i :: i in s ==> 0 <= i < |h| && UnsyncedSince(h, i) }

  predicate UnsyncedSince(h: seq<Probe>, i: int)
    requires 0 <= i < |h|
  {
    h[i].ntp == Some(false) && forall j :: i <= j < |h| ==> h[j].ntp != Some(true)
  }

  lemma {:induction false} ReferenceStreakMeans(h: seq<Probe>, n: nat)
    requires n <= U8_MAX
    ensures Streak(ReferenceCount, h) >= n <==> NoQuorum(h, n)
    decreases n
  {
    hide Streak;
    if n > 0 {
      if |h| == 0 {
        EmptyStreak(ReferenceCount);
      } else {
        var f, p := h[..|h| - 1], h[|h| - 1];
        assert h == f + [p];
        StreakStep(ReferenceCount, f, p);
        ReferenceStreakMeans(f, n - 1);
      }
    }
  }

  lemma NtpStreakMeans(h: seq<Probe>, n: nat)
    requires n <= U8_MAX
    ensures Streak(NtpCount, h) >= n <==> Unsynchronized(h, n)
  {
    var hits := Hits(NtpCount, h);
    assert forall i :: i in hits <==> 0 <= i < |h| && UnsyncedSince(h, i);
    if |hits| >= n {
      var t := SubsetOfSize(hits, n);
      assert AllUnsynced(h, t);
    }
    if Unsynchronized(h, n) {
      var s: set<int> :| AllUnsynced(h, s) && |s| == n;
      SubsetSize(s, hits);
    }
  }

  /** Which condition is reported. A skew alert always wins. Without one, two probes in a row
      with no quorum and two unsynchronised reports lose assurance critically; five probes in a
      row with no quorum lose it by themselves; five unsynchronised reports are a condition of
      their own; and anything less is silent. */
  lemma EmissionRule(h: seq<Probe>, a: Option<Skew>)
    ensures var c := Emission(h, a);
            var lost := NoQuorum(h, 2) && Unsynchronized(h, 2);
            && (a.Some? <==> c.Some? && c.value.SkewAlert?)
            && (a.Some? ==> c == Some(SkewAlert(a.value)))
            && (c == Some(AssuranceLost(true)) <==> a.None? && lost)
            && (c == Some(AssuranceLost(false)) <==> a.None? && !lost && NoQuorum(h, 5))
            && (c == Some(NtpUnsynchronized) <==> a.None? && !lost && !NoQuorum(h, 5) && Unsynchronized(h, 5))
            && (c == None <==> a.None? && !lost && !NoQuorum(h, 5) && !Unsynchronized(h, 5))
  {
    ReferenceStreakMeans(h, 2);
    ReferenceStreakMeans(h, 5);
    NtpStreakMeans(h, 2);
    NtpStreakMeans(h, 5);
    hide Streak, NoQuorum, Unsynchronized;
  }

  /** The thresholds: ahead is judged far more strictly than behind, both beyond the band in
      which the clock counts as recovered, and a probe within the uncertainty of the protocol's
      limits is never taken as certain to be rejected. */
  lemma Thresholds(p: Probe)
    requires p.offset.Some? && I64_MIN <= p.offset.value <= I64_MAX
    requires p.uncertainty.Some? ==> p.uncertainty.value <= I64_MAX
    ensures var o := p.offset.value;
            var u := if p.uncertainty.Some? then p.uncertainty.value else 0;
            && (Risky(p) <==> o >= 2_000 || o <= -15_000)
            && (CriticalOffset(p) <==> o >= 4_000 || o <= -25_000)
            && (Aligned(p) <==> -2_000 < o < 2_000)
            && (Rejected(p) <==> o - u > 5_000 || o + u < -30_000)
  {
  }

  // ---------------------------------------------------------------- rate limit

  const WARN_INTERVAL: nat := 60

  /** One caller of the rate limiter: its own reading of the clock, and the value it loaded. */
  datatype Caller =
    | Idle
    | Loading(now: nat)
    | Swapping(now: nat, previous: nat)
    | Silent(now: nat, seen: nat)
    | Emitted(now: nat)

  datatype Limiter = Limiter(last: nat, callers: map<nat, Caller>, emissions: seq<nat>)

  datatype LimitStep = Enter(id: nat, elapsed: nat) | Load(id: nat) | Swap(id: nat, spurious: bool)

  predicate TooSoon(now: nat, previous: nat) { previous != 0 && now < previous + WARN_INTERVAL }

  /** One atomic action of one caller; the exchange may fail although the value matches. */
  function Advance(s: Limiter, step: LimitStep): Limiter {
    if step.id !in s.callers then s
    else
      var c := s.callers[step.id];
      match step
      case Enter(id, elapsed) =>
        if c.Idle? then s.(callers := s.callers[id := Loading(elapsed + 1)]) else s
      case Load(id) =>
        if !c.Loading? then s
        else if TooSoon(c.now, s.last) then s.(callers := s.callers[id := Silent(c.now, s.last)])
        else s.(callers := s.callers[id := Swapping(c.now, s.last)])
      case Swap(id, spurious) =>
        if !c.Swapping? then s
        else if s.last == c.previous && !spurious then
          Limiter(c.now, s.callers[id := Emitted(c.now)], s.emissions + [c.now])
        else s.(callers := s.callers[id := Loading(c.now)])
  }

  function AdvanceAll(s: Limiter, steps: seq<LimitStep>): Limiter
    decreases |steps|
  {
    if |steps| == 0 then s else Advance(AdvanceAll(s, steps[..|steps| - 1]), steps[|steps| - 1])
  }

  predicate Spaced(e: seq<nat>) {
    && (forall i :: 0 <= i < |e| ==> e[i] >= 1)
    && (forall i :: 0 < i < |e| ==> e[i] >= e[i - 1] + 60)
  }

  predicate LimiterSound(s: Limiter) {
    && Spaced(s.emissions)
    && s.last == (if |s.emissions| == 0 then 0 else s.emissions[|s.emissions| - 1])
    && (forall id :: id in s.callers && s.callers[id].Loading? ==> s.callers[id].now >= 1)
    && (forall id :: id in s.callers && s.callers[id].Swapping? ==>
          s.callers[id].now >= 1 && !TooSoon(s.callers[id].now, s.callers[id].previous))
    && (forall id :: id in s.callers && s.callers[id].Silent? ==>
          s.callers[id].seen in s.emissions && s.callers[id].now < s.callers[id].seen + 60)
  }

  /** One atomic action keeps the limiter sound. */
  lemma AdvanceKeepsSound(s: Limiter, step: LimitStep)
    requires LimiterSound(s)
    ensures LimiterSound(Advance(s, step))
  {
  }

  /** Under every interleaving of any number of callers, with any clock readings, spurious
      exchange failures included: successive warnings are an interval apart, and a caller
      stays silent only because a warning within the interval had been given. */
  lemma {:induction false} WarningsAreSpaced(s: Limiter, steps: seq<LimitStep>)
    requires s.last == 0 && s.emissions == [] && forall id :: id in s.callers ==> s.callers[id] == Idle
    ensures LimiterSound(AdvanceAll(s, steps))
    decreases |steps|
  {
    if |steps| > 0 {
      WarningsAreSpaced(s, steps[..|steps| - 1]);
      AdvanceKeepsSound(AdvanceAll(s, steps[..|steps| - 1]), steps[|steps| - 1]);
      hide Advance, LimiterSound;
    }
  }
}
