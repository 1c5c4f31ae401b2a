/** The invalid-authentication tracker: a bounded table with lazy pruning, against an unbounded
    reference that remembers every failure. Times are seconds since the process started. */
module AbuseBans {
  import opened Base

  const WINDOW: nat := 600
  const LIMIT: nat := 10
  const BAN: nat := 3_600
  const MAX_TRACKED: nat := 8_192
  const MAX_IDLE: nat := 4_200

  datatype IpState = IpState(invalidAuthAt: seq<nat>, bannedUntil: Option<nat>, lastSeen: nat)

  // ---------------------------------------------------------------- reference

  /** Calls as they take the lock; a forced eviction makes the tracker forget an address. */
  datatype Call = Record(ip: string, now: nat) | Query(ip: string, now: nat) | Forget(ip: string, now: nat)

  /** Everything ever recorded against one address since its last ban, and that ban. */
  datatype Reference = Reference(since: seq<nat>, lastBan: Option<nat>)

  /** The failures no older than the window. */
  function Recent(s: seq<nat>, now: nat): seq<nat> {
    if |s| == 0 then []
    else if now > s[0] + 600 then Recent(s[1..], now)
    else [s[0]] + Recent(s[1..], now)
  }

  function Judge(r: Reference, now: nat): Reference {
    if |Recent(r.since + [now], now)| >= 10 then Reference([], Some(now))
    else Reference(r.since + [now], r.lastBan)
  }

  function Remembered(log: seq<Call>, ip: string): Reference
    decreases |log|
  {
    if |log| == 0 then Reference([], None)
    else
      var before := Remembered(log[..|log| - 1], ip);
      match log[|log| - 1]
      case Record(a, now) => if a == ip then Judge(before, now) else before
      case Query(_, _) => before
      case Forget(a, _) => if a == ip then Reference([], None) else before
  }

  function BanLeft(r: Reference, now: nat): Option<nat> {
    if r.lastBan.Some? && r.lastBan.value + 3_600 > now then Some(r.lastBan.value + 3_600 - now) else None
  }

  predicate Monotone(log: seq<Call>) { forall i :: 0 < i < |log| ==> log[i - 1].now <= log[i].now }

  function Latest(log: seq<Call>): nat { if |log| == 0 then 0 else log[|log| - 1].now }

  // ---------------------------------------------------------------- windows

  predicate Sorted(s: seq<nat>) { forall i, k :: 0 <= i < k < |s| ==> s[i] <= s[k] }

  /** Dropping stale failures from the front only, as the tracker does. */
  function DropStale(s: seq<nat>, now: nat): seq<nat> {
    if |s| > 0 && now > s[0] + WINDOW then DropStale(s[1..], now) else s
  }

  /** The in-place pruning loop. */
  method PruneOldFailures(s: seq<nat>, now: nat) returns (r: seq<nat>)
    ensures r == DropStale(s, now)
  {
    r := s;
    while |r| > 0 && now > r[0] + WINDOW
      invariant DropStale(r, now) == DropStale(s, now)
      decreases |r|
    {
      r := r[1..];
    }
  }

  lemma {:induction false} RecentAllFresh(s: seq<nat>, now: nat)
    ensures (forall t :: t in s ==> now <= t + WINDOW) <==> Recent(s, now) == s
    ensures |Recent(s, now)| <= |s|
    decreases |s|
  {
    if |s| > 0 {
      RecentAllFresh(s[1..], now);
      assert s[0] in s && forall t :: t in s <==> t == s[0] || t in s[1..];
      if now <= s[0] + WINDOW {
        assert Recent(s, now)[1..] == Recent(s[1..], now);
        assert s == [s[0]] + s[1..];
      } else {
        assert |Recent(s, now)| < |s|;
      }
    }
  }

  /** Front pruning keeps exactly the failures in the window if and only if no stale failure
      hides behind a fresh one. */
  lemma {:induction false} FrontPruningIsExactIff(s: seq<nat>, now: nat)
    ensures DropStale(s, now) == Recent(s, now) <==>
            (forall i, k :: 0 <= i < k < |s| && now <= s[i] + WINDOW ==> now <= s[k] + WINDOW)
    decreases |s|
  {
    if |s| > 0 {
      if now > s[0] + WINDOW {
        FrontPruningIsExactIff(s[1..], now);
        var t := s[1..];
        if forall i, k :: 0 <= i < k < |t| && now <= t[i] + WINDOW ==> now <= t[k] + WINDOW {
          forall i, k | 0 <= i < k < |s| && now <= s[i] + WINDOW ensures now <= s[k] + WINDOW {
            assert t[i - 1] == s[i] && t[k - 1] == s[k];
          }
        } else {
          var i, k :| 0 <= i < k < |t| && now <= t[i] + WINDOW && !(now <= t[k] + WINDOW);
          assert s[i + 1] == t[i] && s[k + 1] == t[k];
        }
      } else {
        RecentAllFresh(s, now);
        if forall i, k :: 0 <= i < k < |s| && now <= s[i] + WINDOW ==> now <= s[k] + WINDOW {
          forall t | t in s ensures now <= t + WINDOW {
            var k :| 0 <= k < |s| && s[k] == t;
          }
        } else {
          var i, k :| 0 <= i < k < |s| && now <= s[i] + WINDOW && !(now <= s[k] + WINDOW);
          assert s[k] in s;
        }
      }
    }
  }

  /** Clock readings are taken before the lock, so two calls can enter out of order; then a
      stale failure survives pruning. */
  lemma OutOfOrderFailureSurvives()
    ensures DropStale([100, 0], 650) != Recent([100, 0], 650)
  {
  }

  lemma {:induction false} RecentAppend(s: seq<nat>, now: nat)
    ensures Recent(s + [now], now) == Recent(s, now) + [now]
    decreases |s|
  {
    if |s| == 0 {
      assert s + [now] == [now];
    } else {
      RecentAppend(s[1..], now);
      assert (s + [now])[1..] == s[1..] + [now];
    }
  }

  lemma {:induction false} RecentStale(s: seq<nat>, now: nat)
    requires forall t :: t in s ==> now > t + WINDOW
    ensures Recent(s, now) == []
    decreases |s|
  {
    if |s| > 0 {
      assert s[0] in s && forall t :: t in s[1..] ==> t in s;
      RecentStale(s[1..], now);
    }
  }

  /** Pruning early loses nothing that a later look at the window would see. */
  lemma {:induction false} RecentTwice(s: seq<nat>, a: nat, b: nat)
    requires a <= b
    ensures Recent(Recent(s, a), b) == Recent(s, b)
    decreases |s|
  {
    if |s| > 0 {
      RecentTwice(s[1..], a, b);
      if a <= s[0] + WINDOW {
        assert Recent(s, a)[1..] == Recent(s[1..], a);
      }
    }
  }

  lemma {:induction false} RecentSorted(s: seq<nat>, now: nat)
    requires Sorted(s)
    ensures Sorted(Recent(s, now))
    ensures forall t :: t in Recent(s, now) ==> t in s
    decreases |s|
  {
    if |s| > 0 {
      RecentSorted(s[1..], now);
      var tail := Recent(s[1..], now);
      assert forall i :: 0 <= i < |tail| ==> tail[i] in tail;
      assert forall t :: t in s[1..] ==> s[0] <= t && t in s;
    }
  }

  // ---------------------------------------------------------------- simulation

  /** What the table holds for an address agrees with the reference at every time from
      `latest` on; an absent entry means nothing that still matters. */
  predicate Matches(st: Option<IpState>, r: Reference, latest: nat) {
    Sorted(r.since) &&
    match st
    case None =>
      && (forall t :: t in r.since ==> latest > t + WINDOW)
      && (r.lastBan.Some? ==> r.lastBan.value + BAN <= latest)
    case Some(x) =>
      && x.invalidAuthAt == (if |r.since| == 0 then [] else Recent(r.since, r.since[|r.since| - 1]))
      && (forall t :: t in r.since ==> t <= x.lastSeen)
      && (r.lastBan.Some? ==> r.lastBan.value <= x.lastSeen)
      && x.lastSeen <= latest
      && |x.invalidAuthAt| < LIMIT
      && (x.bannedUntil.Some? ==> r.lastBan.Some? && x.bannedUntil.value == r.lastBan.value + BAN)
      && (x.bannedUntil.None? ==> r.lastBan.Some? ==> r.lastBan.value + BAN <= latest)
  }

  function Lookup(m: map<string, IpState>, ip: string): Option<IpState> { if ip in m then Some(m[ip]) else None }

  ghost predicate Tracks(m: map<string, IpState>, log: seq<Call>, latest: nat) {
    forall ip :: Matches(Lookup(m, ip), Remembered(log, ip), latest)
  }

  lemma MatchesLater(st: Option<IpState>, r: Reference, a: nat, b: nat)
    requires Matches(st, r, a) && a <= b
    ensures Matches(st, r, b)
  {
  }

  predicate Active(x: IpState, now: nat) {
    (x.bannedUntil.Some? && x.bannedUntil.value > now) || now <= x.lastSeen + MAX_IDLE
  }

  /** `prune_idle_states` */
  function Kept(m: map<string, IpState>, now: nat): map<string, IpState> {
    map ip | ip in m && Active(m[ip], now) :: m[ip]
  }

  /** Dropping an idle entry never shows in any later answer. */
  lemma IdleIsForgettable(x: IpState, r: Reference, latest: nat, now: nat)
    requires Matches(Some(x), r, latest) && latest <= now && !Active(x, now)
    ensures Matches(None, r, now)
  {
  }

  lemma PruneKeeps(m: map<string, IpState>, log: seq<Call>, latest: nat, now: nat)
    requires Tracks(m, log, latest) && latest <= now
    ensures Tracks(Kept(m, now), log, now)
  {
    hide Matches, Remembered, Active;
    forall ip ensures Matches(Lookup(Kept(m, now), ip), Remembered(log, ip), now) {
      if ip in m && !Active(m[ip], now) {
        IdleIsForgettable(m[ip], Remembered(log, ip), latest, now);
      } else {
        MatchesLater(Lookup(m, ip), Remembered(log, ip), latest, now);
      }
    }
  }

  lemma RememberedStep(log: seq<Call>, c: Call, ip: string)
    ensures Remembered(log + [c], ip) ==
            if c.ip != ip || c.Query? then Remembered(log, ip)
            else if c.Record? then Judge(Remembered(log, ip), c.now)
            else Reference([], None)
  {
    assert (log + [c])[..|log|] == log;
    hide Judge;
  }

  lemma ForgetKeeps(m: map<string, IpState>, log: seq<Call>, ip: string, now: nat)
    requires Tracks(m, log, now)
    ensures Tracks(m - {ip}, log + [Forget(ip, now)], now)
  {
    forall a ensures Matches(Lookup(m - {ip}, a), Remembered(log + [Forget(ip, now)], a), now) {
      RememberedStep(log, Forget(ip, now), a);
      hide Remembered;
      assert Matches(Lookup(m, a), Remembered(log, a), now);
    }
  }

  /** The entry after a failure, with what the caller is told. */
  function Charged(st: Option<IpState>, now: nat): (IpState, Option<nat>) {
    var held := if st.Some? then st.value.invalidAuthAt else [];
    var times := DropStale(held, now) + [now];
    if |times| >= LIMIT then (IpState([], Some(now + BAN), now), Some(|times|))
    else (IpState(times, if st.Some? then st.value.bannedUntil else None, now), None)
  }

  /** The pruned deque is the window of the full record. */
  lemma WindowAgrees(st: Option<IpState>, r: Reference, now: nat)
    requires Matches(st, r, now)
    ensures DropStale(if st.Some? then st.value.invalidAuthAt else [], now) == Recent(r.since, now)
    ensures |Recent(r.since, now)| < LIMIT
  {
    if st.None? {
      RecentStale(r.since, now);
    } else if |r.since| > 0 {
      var last := r.since[|r.since| - 1];
      var held := st.value.invalidAuthAt;
      assert last in r.since;
      RecentSorted(r.since, last);
      FrontPruningIsExactIff(held, now);
      RecentTwice(r.since, last, now);
      RecentAllFresh(held, now);
    }
  }

  lemma ChargedMatches(st: Option<IpState>, r: Reference, now: nat)
    requires Matches(st, r, now)
    ensures Matches(Some(Charged(st, now).0), Judge(r, now), now)
    ensures Charged(st, now).1 == if Judge(r, now).since == [] then Some(LIMIT) else None
  {
    WindowAgrees(st, r, now);
    RecentAppend(r.since, now);
    var all := r.since + [now];
    assert all[|all| - 1] == now;
    assert Sorted(all) && forall t :: t in all ==> t <= now by {
      assert forall i :: 0 <= i < |r.since| ==> r.since[i] in r.since;
    }
  }

  lemma RecordKeeps(m: map<string, IpState>, log: seq<Call>, ip: string, now: nat)
    requires Tracks(m, log, now)
    ensures Tracks(m[ip := Charged(Lookup(m, ip), now).0], log + [Record(ip, now)], now)
    ensures Charged(Lookup(m, ip), now).1 ==
            if |Recent(Remembered(log, ip).since + [now], now)| >= LIMIT then Some(LIMIT) else None
  {
    ChargedMatches(Lookup(m, ip), Remembered(log, ip), now);
    var n := m[ip := Charged(Lookup(m, ip), now).0];
    hide Matches, Charged, Remembered, Judge;
    forall a ensures Matches(Lookup(n, a), Remembered(log + [Record(ip, now)], a), now) {
      RememberedStep(log, Record(ip, now), a);
    }
    assert Judge(Remembered(log, ip), now).since == [] <==>
        |Recent(Remembered(log, ip).since + [now], now)| >= LIMIT by {
      JudgeEmpties(Remembered(log, ip), now);
    }
  }

  lemma JudgeEmpties(r: Reference, now: nat)
    ensures Judge(r, now).since == [] <==> |Recent(r.since + [now], now)| >= LIMIT
  {
    hide Recent;
  }

  /** The entry after a query. */
  function Seen(x: IpState, now: nat): IpState {
    IpState(x.invalidAuthAt, if x.bannedUntil.Some? && x.bannedUntil.value > now then x.bannedUntil else None, now)
  }

  lemma QueryKeeps(m: map<string, IpState>, log: seq<Call>, ip: string, now: nat)
    requires Tracks(m, log, now)
    ensures var n := if ip in m then m[ip := Seen(m[ip], now)] else m;
            Tracks(n, log + [Query(ip, now)], now)
    ensures (if ip in m && m[ip].bannedUntil.Some?
        && m[ip].bannedUntil.value > now then Some(m[ip].bannedUntil.value - now) else None)
            == BanLeft(Remembered(log, ip), now)
  {
    var n := if ip in m then m[ip := Seen(m[ip], now)] else m;
    forall a ensures Matches(Lookup(n, a), Remembered(log + [Query(ip, now)], a), now) {
      RememberedStep(log, Query(ip, now), a);
      hide Remembered, Recent;
      assert Matches(Lookup(m, a), Remembered(log, a), now);
    }
    hide Remembered, Recent;
    assert Matches(Lookup(m, ip), Remembered(log, ip), now);
  }

  // ---------------------------------------------------------------- the tracker

  class AbuseTracker {
    var byIp: map<string, IpState>
    ghost var log: seq<Call>

    /** The table never outgrows its cap, whatever the clock does; while the calls enter in
        time order it answers like the reference. */
    ghost predicate Valid()
      reads this
    {
      |byIp| <= 8_192 && (Monotone(log) ==> Tracks(byIp, log, Latest(log)))
    }

    constructor ()
      ensures Valid() && byIp == map[] && log == []
    {
      byIp, log := map[], [];
    }

    /** `evict_oldest_state`: the entry touched longest ago, any of them on a tie. */
    method OldestKey() returns (oldest: string)
      requires byIp != map[]
      ensures oldest in byIp && forall ip :: ip in byIp ==> byIp[oldest].lastSeen <= byIp[ip].lastSeen
    {
      var rest := byIp.Keys;
      oldest :| oldest in byIp;
      while rest != {}
        invariant rest <= byIp.Keys && oldest in byIp
        invariant forall ip :: ip in byIp && ip !in rest ==> byIp[oldest].lastSeen <= byIp[ip].lastSeen
        decreases |rest|
      {
        var ip :| ip in rest;
        rest := rest - {ip};
        if byIp[ip].lastSeen < byIp[oldest].lastSeen {
          oldest := ip;
        }
      }
    }

    /** `ban_remaining` */
    method BanRemaining(ip: string, now: nat) returns (left: Option<nat>)
      requires Valid()
      modifies this
      ensures Valid() && log == old(log) + [Query(ip, now)]
      ensures Monotone(log) ==> left == BanLeft(Remembered(old(log), ip), now)
    {
      ghost var next := log + [Query(ip, now)];
      Prepare(byIp, log, Query(ip, now));
      hide Tracks, BanLeft, Remembered;
      if Monotone(next) { QueryKeeps(byIp, log, ip, now); }
      log := next;
      left := None;
      if ip in byIp {
        var state := byIp[ip];
        if state.bannedUntil.Some? && state.bannedUntil.value > now {
          left := Some(state.bannedUntil.value - now);
          byIp := byIp[ip := state.(lastSeen := now)];
        } else {
          byIp := byIp[ip := state.(lastSeen := now, bannedUntil := None)];
        }
      }
    }

    /** A full table makes room for a new address: idle entries go first, then, if none is
        idle, one entry touched longest ago. */
    method MakeRoom(ip: string, now: nat)
      requires Valid()
      modifies this
      ensures |byIp| <= MAX_TRACKED && (ip !in byIp ==> |byIp| < MAX_TRACKED)
      ensures Lookup(byIp, ip) == Lookup(old(byIp), ip)
      ensures Monotone(log + [Record(ip, now)]) ==> Tracks(byIp, log, now)
      ensures log == old(log) || ForcedOut(old(byIp), ip, now, old(log), log)
    {
      ghost var c := Record(ip, now);
      Prepare(byIp, log, c);
      if ip in byIp || |byIp| < MAX_TRACKED { return; }
      hide Tracks, Monotone;
      ghost var was := byIp;
      if Monotone(log + [c]) { PruneKeeps(byIp, log, now, now); }
      KeptSize(byIp, now);
      byIp := Kept(byIp, now);
      if |byIp| >= MAX_TRACKED {
        var v := OldestKey();
        ghost var forgot := log + [Forget(v, now)];
        if Monotone(forgot + [c]) {
          SkipForget(log, v, c);
          ForgetKeeps(byIp, log, v, now);
        }
        RemoveSize(byIp, v);
        byIp := byIp - {v};
        log := forgot;
        assert IsOldest(Kept(was, now), v);
      }
    }

    /** `record_invalid_auth`: a ban is decided exactly when the reference decides one, at the
        tenth failure. An address is forgotten only if the table is full, this address is not
        in it and no entry is idle; then it is one touched longest ago. */
    method RecordInvalidAuth(ip: string, now: nat) returns (ban: Option<nat>)
      requires Valid()
      modifies this
      ensures Valid() && ip in byIp
      ensures (byIp[ip], ban) == Charged(Lookup(old(byIp), ip), now)
      ensures exists room :: log == room + [Record(ip, now)] &&
                             (room == old(log) || ForcedOut(old(byIp), ip, now, old(log), room))
      ensures Monotone(log) ==>
                ban == if |Recent(Remembered(old(log), ip).since + [now], now)| >= 10 then Some(10) else None
    {
      MakeRoom(ip, now);
      ghost var was := log;
      hide Tracks, Remembered;
      SameMemory(old(byIp), ip, now, old(log), was);
      assert Latest(was + [Record(ip, now)]) == now;
      if Monotone(was + [Record(ip, now)]) { RecordKeeps(byIp, was, ip, now); }
      var held := if ip in byIp then byIp[ip].invalidAuthAt else [];
      var bannedUntil := if ip in byIp then byIp[ip].bannedUntil else None;
      var times := PruneOldFailures(held, now);
      times := times + [now];
      log := log + [Record(ip, now)];
      InsertSize(byIp, ip, Charged(Lookup(byIp, ip), now).0);
      if |times| >= LIMIT {
        byIp := byIp[ip := IpState([], Some(now + BAN), now)];
        return Some(|times|);
      }
      byIp := byIp[ip := IpState(times, bannedUntil, now)];
      return None;
    }
  }

  predicate IsOldest(m: map<string, IpState>, v: string) {
    v in m && forall a :: a in m ==> m[v].lastSeen <= m[a].lastSeen
  }

  /** The only way an address is forgotten while it could still matter. */
  predicate ForcedOut(m: map<string, IpState>, ip: string, now: nat, before: seq<Call>, after: seq<Call>) {
    && ip !in m && |Kept(m, now)| >= MAX_TRACKED
    && |after| == |before| + 1 && after[..|before|] == before
    && after[|before|].Forget? && after[|before|].now == now && IsOldest(Kept(m, now), after[|before|].ip)
  }

  lemma SameMemory(m: map<string, IpState>, ip: string, now: nat, before: seq<Call>, after: seq<Call>)
    requires after == before || ForcedOut(m, ip, now, before, after)
    ensures Remembered(after, ip) == Remembered(before, ip)
  {
    if after != before {
      assert after == before + [after[|before|]];
      RememberedStep(before, after[|before|], ip);
    }
  }

  lemma SkipForget(log: seq<Call>, v: string, c: Call)
    requires Monotone(log + [Forget(v, c.now)] + [c])
    ensures Monotone(log + [c])
  {
    var long := log + [Forget(v, c.now)] + [c];
    forall i | 0 < i < |log + [c]| ensures (log + [c])[i - 1].now <= (log + [c])[i].now {
      assert long[i - 1].now <= long[i].now;
    }
  }

  lemma KeptSize(m: map<string, IpState>, now: nat)
    ensures |Kept(m, now)| <= |m|
  {
    SubsetSize(Kept(m, now).Keys, m.Keys);
  }

  lemma RemoveSize(m: map<string, IpState>, v: string)
    requires v in m
    ensures |m - {v}| == |m| - 1
  {
    assert (m - {v}).Keys == m.Keys - {v};
  }

  lemma InsertSize(m: map<string, IpState>, ip: string, x: IpState)
    ensures |m[ip := x]| == if ip in m then |m| else |m| + 1
  {
    assert m[ip := x].Keys == m.Keys + {ip};
  }

  /** The clock of the table moves to the next call. */
  lemma Prepare(m: map<string, IpState>, log: seq<Call>, c: Call)
    requires Monotone(log) ==> Tracks(m, log, Latest(log))
    ensures Monotone(log + [c]) ==> Monotone(log) && Latest(log) <= c.now && Tracks(m, log, c.now)
    ensures Latest(log + [c]) == c.now
  {
    if Monotone(log + [c]) {
      var next := log + [c];
      assert forall i :: 0 <= i < |log| ==> next[i] == log[i];
      assert |log| > 0 ==> next[|log| - 1].now <= next[|log|].now;
      hide Matches, Remembered;
      forall ip ensures Matches(Lookup(m, ip), Remembered(log, ip), c.now) {
        MatchesLater(Lookup(m, ip), Remembered(log, ip), Latest(log), c.now);
      }
    }
  }

  // ---------------------------------------------------------------- out of order

  /** What the table holds for one address after failures entered at these times. */
  function Held(times: seq<nat>): Option<IpState> {
    if |times| == 0 then None else Some(Charged(Held(times[..|times| - 1]), times[|times| - 1]).0)
  }

  function Failures(ip: string, times: seq<nat>): seq<Call> {
    seq(|times|, i requires 0 <= i < |times| => Record(ip, times[i]))
  }

  /** One failure at 100 seconds, then `k` that entered later with an earlier reading. */
  function LateFirst(k: nat): seq<nat> { [100] + seq(k, _ => 0) }

  lemma LateFirstStep(ip: string, k: nat)
    requires k > 0
    ensures LateFirst(k) == LateFirst(k - 1) + [0] && |LateFirst(k - 1)| == k && LateFirst(k - 1)[0] == 100
    ensures Failures(ip, LateFirst(k)) == Failures(ip, LateFirst(k - 1)) + [Record(ip, 0)]
  {
    assert LateFirst(k) == LateFirst(k - 1) + [0];
  }

  lemma HeldStep(times: seq<nat>, t: nat)
    ensures Held(times + [t]) == Some(Charged(Held(times), t).0)
  {
    assert (times + [t])[..|times|] == times;
  }

  /** A fresh failure at the front, fewer than ten in all: the new one is only added. */
  lemma ChargedAdds(st: IpState, now: nat)
    requires 0 < |st.invalidAuthAt| && |st.invalidAuthAt| + 1 < LIMIT && now <= st.invalidAuthAt[0] + WINDOW
    ensures Charged(Some(st), now).0 == IpState(st.invalidAuthAt + [now], st.bannedUntil, now)
  {
  }

  /** Fewer than ten failures never make a ban. */
  lemma TooFewToBan(r: Reference, now: nat)
    requires |r.since| + 1 < LIMIT
    ensures Judge(r, now) == Reference(r.since + [now], r.lastBan)
  {
    RecentAllFresh(r.since + [now], now);
  }

  lemma FirstFailure(ip: string)
    ensures Held(LateFirst(0)) == Some(IpState(LateFirst(0), None, 100))
    ensures Remembered(Failures(ip, LateFirst(0)), ip) == Reference(LateFirst(0), None)
  {
    var none: seq<nat>, empty: seq<Call> := [], [];
    assert LateFirst(0) == none + [100];
    HeldStep(none, 100);
    assert Held(none) == None && DropStale(none, 100) == none;
    assert Failures(ip, LateFirst(0)) == empty + [Record(ip, 100)];
    RememberedStep(empty, Record(ip, 100), ip);
    assert Remembered(empty, ip) == Reference(none, None);
    TooFewToBan(Reference(none, None), 100);
  }

  lemma {:induction false} LateFirstKept(ip: string, k: nat)
    requires k <= 8
    ensures exists seen :: Held(LateFirst(k)) == Some(IpState(LateFirst(k), None, seen))
    ensures Remembered(Failures(ip, LateFirst(k)), ip) == Reference(LateFirst(k), None)
  {
    if k == 0 {
      FirstFailure(ip);
    } else {
      LateFirstKept(ip, k - 1);
      LateFirstStep(ip, k);
      var before := LateFirst(k - 1);
      var seen :| Held(before) == Some(IpState(before, None, seen));
      HeldStep(before, 0);
      ChargedAdds(IpState(before, None, seen), 0);
      RememberedStep(Failures(ip, before), Record(ip, 0), ip);
      TooFewToBan(Reference(before, None), 0);
      hide Held, Charged, Remembered, Judge, Failures, LateFirst;
    }
  }

  lemma LateWindow()
    ensures |LateFirst(8)| == 9 && DropStale(LateFirst(8), 650) == LateFirst(8)
    ensures |Recent(LateFirst(8) + [650], 650)| == 2
  {
    var times := LateFirst(8);
    assert times[0] == 100;
    RecentAppend(times, 650);
    RecentStale(times[1..], 650);
    assert Recent(times, 650) == [100];
  }

  /** A ban the reference would not give: a failure at 100 seconds that enters first shields
      eight failures at zero, and the next one at 650 counts all of them. */
  lemma OutOfOrderBan(ip: string)
    ensures Charged(Held(LateFirst(8)), 650).1 == Some(LIMIT)
    ensures Judge(Remembered(Failures(ip, LateFirst(8)), ip), 650) == Reference(LateFirst(8) + [650], None)
  {
    LateFirstKept(ip, 8);
    LateWindow();
    hide LateFirst, Failures;
  }
}
