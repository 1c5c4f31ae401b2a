/** The release validator: concurrent callers share one upstream fetch per selector and a
    short-lived cached result. The per-selector mutex is the weak-reference registry of
    `ActionLocks`, used here through the plain mutex it refines. Times are milliseconds. */
module SingleFlight {
  import opened Base
  import opened TextOrder

  // ---------------------------------------------------------------- selectors

  function Lower(c: char): char { if 'A' <= c <= 'Z' then (c as int + 32) as char else c }
  function LowerAll(s: string): string { seq(|s|, i requires 0 <= i < |s| => Lower(s[i])) }
  predicate IsHex(c: char) { '0' <= c <= '9' || 'a' <= c <= 'f' || 'A' <= c <= 'F' }

  /** `normalize_client_server_release`: `latest` or exactly seven hexadecimal digits. */
  function Normalize(raw: string): Result<string> {
    var n := LowerAll(Trim(raw));
    if n == "latest" || (|n| == 7 && forall i :: 0 <= i < |n| ==> IsHex(n[i])) then Ok(n) else Err(BadRequest)
  }

  /** A normalized selector is its own normal form, so every spelling of one release is
      one cache key and one flight. */
  lemma NormalizeIsStable(raw: string)
    requires Normalize(raw).Ok?
    ensures Normalize(Normalize(raw).value) == Normalize(raw)
  {
    var n := Normalize(raw).value;
    assert TrimStart(n) == n && TrimEnd(n) == n;
    assert forall i :: 0 <= i < |n| ==> Lower(n[i]) == n[i];
    assert LowerAll(n) == n;
  }

  /** The normal forms are `latest` and seven lower-case hexadecimal digits, and only text that
      spells one of them, up to case and surrounding blanks, is accepted. */
  lemma NormalForms(raw: string)
    ensures Normalize(raw) == Ok(raw) <==>
              raw == "latest" || (|raw| == 7 && forall i :: 0 <= i < 7 ==> '0' <= raw[i] <= '9' || 'a' <= raw[i] <= 'f')
    ensures Normalize(raw) == Normalize(Trim(raw)) == Normalize(LowerAll(Trim(raw)))
    ensures Normalize(raw).Ok? ==> Normalize(raw).value == LowerAll(Trim(raw))
  {
    var n := LowerAll(Trim(raw));
    TrimTwice(raw);
    LowerKeepsTrim(Trim(raw));
    assert LowerAll(n) == n;
    if raw == "latest" || (|raw| == 7 && forall i :: 0 <= i < 7 ==> '0' <= raw[i] <= '9' || 'a' <= raw[i] <= 'f') {
      assert !IsSpace(raw[0]) && !IsSpace(raw[|raw| - 1]);
      assert TrimStart(raw) == raw && TrimEnd(raw) == raw;
      assert forall i :: 0 <= i < |raw| ==> Lower(raw[i]) == raw[i];
      assert LowerAll(raw) == raw;
    }
    hide TrimStart, TrimEnd, IsSpace;
  }

  lemma TrimTwice(s: string)
    ensures Trim(Trim(s)) == Trim(s)
  {
    var i, k := TrimMeans(s);
    var t := Trim(s);
    hide TrimStart, TrimEnd, IsSpace;
    if |t| > 0 {
      assert TrimStart(t) == t && TrimEnd(t) == t by { EndsAreKept(t); }
    } else {
      assert t == "" && Trim("") == "" by { EmptyTrim(); }
    }
  }

  lemma EndsAreKept(t: string)
    requires |t| > 0 && !IsSpace(t[0]) && !IsSpace(t[|t| - 1])
    ensures TrimStart(t) == t && TrimEnd(t) == t
  {
  }

  lemma EmptyTrim()
    ensures Trim("") == ""
  {
  }

  lemma LowerKeepsTrim(t: string)
    requires Trim(t) == t
    ensures Trim(LowerAll(t)) == LowerAll(t)
  {
    var i, k := TrimMeans(t);
    var n := LowerAll(t);
    if |t| > 0 {
      assert !IsSpace(n[0]) && !IsSpace(n[|n| - 1]);
      hide IsSpace;
      EndsAreKept(n);
    }
  }

  // ---------------------------------------------------------------- state

  datatype Verdict = Valid | NotFoundUpstream | IncompleteAssets | CommitMismatch | Unavailable

  function TimeToLive(v: Verdict): (ttl: int)
    ensures 0 < ttl
  {
    match v
    case Valid => 300_000
    case Unavailable => 10_000
    case _ => 30_000
  }

  datatype Cached = Cached(expires: int, value: Verdict)

  /** One upstream fetch. */
  datatype Outcome = Open | Abandoned(at: int) | Stored(at: int, expires: int, value: Verdict)
  datatype Fetch = Fetch(selector: string, start: int, outcome: Outcome)

  /** The next thing a caller will do. */
  datatype Point =
    | ChecksCache(selector: string)
    | Queues(selector: string)
    | Rechecks(selector: string)
    | Fetches(selector: string, fetch: nat)

  datatype Response = Response(selector: string, value: Verdict, at: int)

  datatype State = State(
    cache: map<string, Cached>, owner: map<string, nat>, now: int,
    callers: map<nat, Point>, fetches: seq<Fetch>, responses: seq<Response>)

  datatype Step =
    | Tick(now: int)
    | Call(c: nat, raw: string)
    | Check(c: nat)
    | Acquire(c: nat)
    | Recheck(c: nat)
    | Store(c: nat, value: Verdict)
    | Cancel(c: nat)

  predicate Enabled(s: State, step: Step) {
    match step
    case Tick(now) => s.now <= now
    case Call(c, _) => c !in s.callers
    case Check(c) => c in s.callers && s.callers[c].ChecksCache?
    case Acquire(c) => c in s.callers && s.callers[c].Queues? && s.callers[c].selector !in s.owner
    case Recheck(c) => c in s.callers && s.callers[c].Rechecks?
    case Store(c, _) => c in s.callers && s.callers[c].Fetches? && s.callers[c].fetch < |s.fetches|
    case Cancel(c) => c in s.callers && (s.callers[c].Fetches? ==> s.callers[c].fetch < |s.fetches|)
  }

  /** `cached`: drop what has expired, then look. */
  function Retained(s: State): map<string, Cached> {
    map k | k in s.cache && s.cache[k].expires > s.now :: s.cache[k]
  }

  function Leave(s: State, c: nat): State
    requires c in s.callers
  {
    var sel := s.callers[c].selector;
    s.(callers := s.callers - {c},
    owner := if sel in s.owner && s.owner[sel] == c then s.owner - {sel} else s.owner)
  }

  function Answer(s: State, c: nat, value: Verdict): State
    requires c in s.callers
  {
    Leave(s, c).(responses := s.responses + [Response(s.callers[c].selector, value, s.now)])
  }

  function Apply(s: State, step: Step): State
    requires Enabled(s, step)
  {
    match step
    case Tick(now) => s.(now := now)
    case Call(c, raw) =>
      (match Normalize(raw)
       case Err(_) => s
       case Ok(selector) => s.(callers := s.callers[c := ChecksCache(selector)]))
    case Check(c) =>
      var sel := s.callers[c].selector;
      var s1 := s.(cache := Retained(s));
      if sel in s1.cache then Answer(s1, c, s1.cache[sel].value)
      else s1.(callers := s1.callers[c := Queues(sel)])
    case Acquire(c) =>
      var sel := s.callers[c].selector;
      s.(owner := s.owner[sel := c], callers := s.callers[c := Rechecks(sel)])
    case Recheck(c) =>
      var sel := s.callers[c].selector;
      var s1 := s.(cache := Retained(s));
      if sel in s1.cache then Answer(s1, c, s1.cache[sel].value)
      else s1.(fetches := s1.fetches + [Fetch(sel, s.now, Open)], callers := s1.callers[c := Fetches(sel, |s.fetches|)])
    case Store(c, value) =>
      var p := s.callers[c];
      var expires := s.now + TimeToLive(value);
      Answer(s.(cache := s.cache[p.selector := Cached(expires, value)],
             fetches := s.fetches[p.fetch := s.fetches[p.fetch].(outcome := Stored(s.now, expires, value))]), c, value)
    case Cancel(c) =>
      var p := s.callers[c];
      var s1 := if p.Fetches? then s.(fetches :=
          s.fetches[p.fetch := s.fetches[p.fetch].(outcome := Abandoned(s.now))]) else s;
      Leave(s1, c)
  }

  // ---------------------------------------------------------------- invariant

  /** A later fetch of one selector starts only when the earlier one is over and its result,
      if it produced one, has expired. */
  predicate Spaced(earlier: Fetch, later: Fetch) {
    earlier.selector == later.selector ==>
      match earlier.outcome
      case Open => false
      case Abandoned(at) => at <= later.start
      case Stored(at, expires, _) => at <= expires <= later.start
  }

  ghost predicate FetchesSpaced(fs: seq<Fetch>) {
    forall i, k :: 0 <= i < k < |fs| ==> Spaced(fs[i], fs[k])
  }

  /** The caller behind an open fetch owns its selector. */
  ghost predicate OwnersOk(s: State) {
    && (forall c :: c in s.callers && (s.callers[c].Rechecks? || s.callers[c].Fetches?) ==>
          s.callers[c].selector in s.owner && s.owner[s.callers[c].selector] == c)
    && (forall c :: c in s.callers && s.callers[c].Fetches? ==>
          s.callers[c].fetch < |s.fetches| && s.fetches[s.callers[c].fetch] == Fetch(s.callers[c].selector,
              s.fetches[s.callers[c].fetch].start, Open))
    && (forall i :: 0 <= i < |s.fetches| && s.fetches[i].outcome.Open? ==>
          s.fetches[i].selector in s.owner && s.owner[s.fetches[i].selector] in s.callers
          && s.callers[s.owner[s.fetches[i].selector]] == Fetches(s.fetches[i].selector, i))
  }

  /** A fetch's times are in the past, and a result that has not expired is still cached. */
  predicate Timely(now: int, cache: map<string, Cached>, f: Fetch) {
    f.start <= now &&
    match f.outcome
    case Open => true
    case Abandoned(at) => at <= now
    case Stored(at, expires, value) =>
      && at <= now && expires == at + (if value.Valid? then 300_000 else if value.Unavailable? then 10_000 else 30_000)
      && (now < expires ==> f.selector in cache && cache[f.selector] == Cached(expires, value))
  }

  ghost predicate CacheOk(s: State) {
    && (forall i :: 0 <= i < |s.fetches| ==> Timely(s.now, s.cache, s.fetches[i]))
    && (forall k :: k in s.cache ==> Backed(s.fetches, k, s.cache[k]))
  }

  /** A cache entry is the result of a fetch of that selector. */
  predicate Backed(fs: seq<Fetch>, selector: string, c: Cached) {
    exists i :: 0 <= i < |fs| && fs[i].selector == selector && fs[i].outcome.Stored?
                && fs[i].outcome.expires == c.expires && fs[i].outcome.value == c.value
  }

  /** A response is a fetched result that had not expired when it was given. */
  predicate Justified(fs: seq<Fetch>, r: Response) {
    exists i :: 0 <= i < |fs| && fs[i].selector == r.selector && fs[i].outcome.Stored?
                && fs[i].outcome.value == r.value && fs[i].outcome.at <= r.at < fs[i].outcome.expires
  }

  ghost predicate ResponsesOk(s: State) {
    forall i :: 0 <= i < |s.responses| ==> Justified(s.fetches, s.responses[i])
  }

  ghost predicate Inv(s: State) {
    FetchesSpaced(s.fetches) && OwnersOk(s) && CacheOk(s) && ResponsesOk(s)
  }

  lemma TickKeepsInv(s: State, now: int)
    requires Inv(s) && s.now <= now
    ensures Inv(Apply(s, Tick(now)))
  {
    hide Backed, Justified, FetchesSpaced;
  }

  lemma CallKeepsInv(s: State, step: Step)
    requires Inv(s) && Enabled(s, step) && (step.Call? || step.Acquire?)
    ensures Inv(Apply(s, step))
  {
    hide Backed, Justified, FetchesSpaced, Normalize;
  }

  /** A hit is backed by a stored, unexpired fetch. */
  lemma HitIsJustified(s: State, selector: string)
    requires Inv(s) && selector in Retained(s)
    ensures Justified(s.fetches, Response(selector, s.cache[selector].value, s.now))
  {
    var c := s.cache[selector];
    assert Backed(s.fetches, selector, c);
    var i :| 0 <= i < |s.fetches| && s.fetches[i].selector == selector && s.fetches[i].outcome.Stored?
             && s.fetches[i].outcome.expires == c.expires && s.fetches[i].outcome.value == c.value;
    assert Timely(s.now, s.cache, s.fetches[i]);
    hide Inv;
    assert s.fetches[i].outcome.at <= s.now < s.fetches[i].outcome.expires;
  }

  lemma PruneKeepsInv(s: State)
    requires Inv(s)
    ensures Inv(s.(cache := Retained(s)))
  {
    hide Backed, Justified, FetchesSpaced;
  }

  /** A caller that is not fetching can leave with a justified answer. */
  lemma LeaveKeepsInv(s: State, c: nat)
    requires Inv(s) && c in s.callers && !s.callers[c].Fetches?
    ensures Inv(Leave(s, c))
  {
    hide Backed, Justified, FetchesSpaced;
    var d := Leave(s, c);
    assert OwnersOk(d);
    hide OwnersOk;
  }

  lemma AnswerKeepsInv(s: State, c: nat, value: Verdict)
    requires Inv(s) && c in s.callers && !s.callers[c].Fetches?
    requires Justified(s.fetches, Response(s.callers[c].selector, value, s.now))
    ensures Inv(Answer(s, c, value))
  {
    LeaveKeepsInv(s, c);
    hide Backed, Justified, FetchesSpaced, Retained;
  }

  lemma CheckKeepsInv(s: State, c: nat)
    requires Inv(s) && Enabled(s, Check(c))
    ensures Inv(Apply(s, Check(c)))
  {
    var s1, sel := s.(cache := Retained(s)), s.callers[c].selector;
    PruneKeepsInv(s);
    if sel in s1.cache {
      HitIsJustified(s, sel);
      AnswerKeepsInv(s1, c, s1.cache[sel].value);
      hide Inv;
    } else {
      hide Backed, Justified, FetchesSpaced, Retained;
    }
  }

  lemma FetchKeepsInv(s: State, c: nat)
    requires Inv(s) && c in s.callers && s.callers[c].Rechecks? && s.callers[c].selector !in s.cache
    ensures var sel := s.callers[c].selector;
            Inv(s.(fetches := s.fetches + [Fetch(sel, s.now, Open)],
                callers := s.callers[c := Fetches(sel, |s.fetches|)]))
  {
    var sel := s.callers[c].selector;
    var d := s.(fetches := s.fetches + [Fetch(sel, s.now, Open)], callers := s.callers[c := Fetches(sel, |s.fetches|)]);
    MoreFetches(s.fetches, d.fetches);
    assert forall i :: 0 <= i < |s.fetches| ==> Spaced(s.fetches[i], d.fetches[|s.fetches|]);
    hide Backed, Justified;
    assert FetchesSpaced(d.fetches);
    hide FetchesSpaced;
  }

  lemma RecheckKeepsInv(s: State, c: nat)
    requires Inv(s) && Enabled(s, Recheck(c))
    ensures Inv(Apply(s, Recheck(c)))
  {
    var s1, sel := s.(cache := Retained(s)), s.callers[c].selector;
    PruneKeepsInv(s);
    if sel in s1.cache {
      HitIsJustified(s, sel);
      AnswerKeepsInv(s1, c, s1.cache[sel].value);
    } else {
      FetchKeepsInv(s1, c);
    }
    hide Inv;
  }

  /** Facts about stored fetches survive new fetches and the closing of an open one. */
  lemma MoreFetches(fs: seq<Fetch>, gs: seq<Fetch>)
    requires |fs| <= |gs|
    requires forall i :: 0 <= i < |fs| && fs[i].outcome.Stored? ==> gs[i] == fs[i]
    ensures forall sel, c :: Backed(fs, sel, c) ==> Backed(gs, sel, c)
    ensures forall r :: Justified(fs, r) ==> Justified(gs, r)
  {
    forall sel, c | Backed(fs, sel, c) ensures Backed(gs, sel, c) {
      var i :| 0 <= i < |fs| && fs[i].selector == sel && fs[i].outcome.Stored?
               && fs[i].outcome.expires == c.expires && fs[i].outcome.value == c.value;
      assert gs[i] == fs[i];
    }
    forall r | Justified(fs, r) ensures Justified(gs, r) {
      var i :| 0 <= i < |fs| && fs[i].selector == r.selector && fs[i].outcome.Stored?
               && fs[i].outcome.value == r.value && fs[i].outcome.at <= r.at < fs[i].outcome.expires;
      assert gs[i] == fs[i];
    }
  }

  /** Closing an open fetch keeps the spacing: it had no successor. */
  lemma ClosingKeepsSpacing(fs: seq<Fetch>, k: nat, f: Fetch)
    requires FetchesSpaced(fs) && k < |fs| && fs[k].outcome.Open?
    requires f.selector == fs[k].selector && f.start == fs[k].start
    ensures FetchesSpaced(fs[k := f])
    ensures forall m :: k < m < |fs| ==> fs[m].selector != fs[k].selector
    ensures forall m :: 0 <= m < k && fs[m].selector == fs[k].selector && fs[m].outcome.Stored? ==>
        fs[m].outcome.expires <= fs[k].start
  {
    var gs := fs[k := f];
    forall m | k < m < |fs| ensures fs[m].selector != fs[k].selector {
      assert Spaced(fs[k], fs[m]);
    }
    forall i, m | 0 <= i < m < |gs| ensures Spaced(gs[i], gs[m]) {
      assert Spaced(fs[i], fs[m]);
    }
    forall m | 0 <= m < k && fs[m].selector == fs[k].selector && fs[m].outcome.Stored?
      ensures fs[m].outcome.expires <= fs[k].start
    {
      assert Spaced(fs[m], fs[k]);
    }
  }

  /** Closing the fetch of caller `c` and leaving, with or without a stored result. */
  lemma CloseKeepsOwners(s: State, c: nat, f: Fetch)
    requires OwnersOk(s) && FetchesSpaced(s.fetches) && c in s.callers && s.callers[c].Fetches?
    requires f.selector == s.callers[c].selector && !f.outcome.Open?
    ensures OwnersOk(Leave(s.(fetches := s.fetches[s.callers[c].fetch := f]), c))
  {
    var k := s.callers[c].fetch;
    var d := Leave(s.(fetches := s.fetches[k := f]), c);
    assert forall e :: e in d.callers && d.callers[e].Fetches? ==> d.callers[e].fetch != k;
  }

  /** Overwriting a selector's entry leaves fetches whose results have expired timely. */
  lemma TimelyAfterStore(now: int, cache: map<string, Cached>, f: Fetch, selector: string, c: Cached)
    requires Timely(now, cache, f)
    requires f.selector == selector && f.outcome.Stored? ==> f.outcome.expires <= now
    ensures Timely(now, cache[selector := c], f)
  {
  }

  lemma StoreKeepsCache(s: State, c: nat, value: Verdict)
    requires Inv(s) && Enabled(s, Store(c, value))
    ensures CacheOk(Apply(s, Store(c, value)))
  {
    var d := Apply(s, Store(c, value));
    var p := s.callers[c];
    var entry := Cached(s.now + TimeToLive(value), value);
    var f := s.fetches[p.fetch].(outcome := Stored(s.now, entry.expires, value));
    assert s.fetches[p.fetch] == Fetch(p.selector, s.fetches[p.fetch].start, Open);
    ClosingKeepsSpacing(s.fetches, p.fetch, f);
    MoreFetches(s.fetches, d.fetches);
    assert d.fetches == s.fetches[p.fetch := f] && d.cache == s.cache[p.selector := entry] && d.now == s.now;
    assert Timely(s.now, s.cache, s.fetches[p.fetch]) && Timely(d.now, d.cache, f);
    assert Backed(d.fetches, p.selector, entry) by { assert d.fetches[p.fetch] == f; }
    assert s.fetches[p.fetch].start <= s.now;
    hide Inv, Apply, Backed, Justified, FetchesSpaced, OwnersOk, TimeToLive, Timely;
    forall i | 0 <= i < |d.fetches| ensures Timely(d.now, d.cache, d.fetches[i]) {
      if i != p.fetch { TimelyAfterStore(s.now, s.cache, s.fetches[i], p.selector, entry); }
    }
  }

  lemma StoreKeepsAnswers(s: State, c: nat, value: Verdict)
    requires Inv(s) && Enabled(s, Store(c, value))
    ensures FetchesSpaced(Apply(s, Store(c, value)).fetches) && ResponsesOk(Apply(s, Store(c, value)))
  {
    var d := Apply(s, Store(c, value));
    var p := s.callers[c];
    var f := s.fetches[p.fetch].(outcome := Stored(s.now, s.now + TimeToLive(value), value));
    ClosingKeepsSpacing(s.fetches, p.fetch, f);
    MoreFetches(s.fetches, d.fetches);
    assert d.fetches[p.fetch] == f;
    assert Justified(d.fetches, Response(p.selector, value, s.now));
    hide Backed, Justified, FetchesSpaced, CacheOk, OwnersOk, TimeToLive;
  }

  lemma StoreKeepsInv(s: State, c: nat, value: Verdict)
    requires Inv(s) && Enabled(s, Store(c, value))
    ensures Inv(Apply(s, Store(c, value)))
  {
    var d := Apply(s, Store(c, value));
    var p := s.callers[c];
    StoreKeepsCache(s, c, value);
    StoreKeepsAnswers(s, c, value);
    CloseKeepsOwners(s, c, s.fetches[p.fetch].(outcome := Stored(s.now, s.now + TimeToLive(value), value)));
    hide FetchesSpaced, CacheOk, ResponsesOk, TimeToLive;
    assert OwnersOk(d);
  }

  lemma CancelKeepsInv(s: State, c: nat)
    requires Inv(s) && Enabled(s, Cancel(c))
    ensures Inv(Apply(s, Cancel(c)))
  {
    var p := s.callers[c];
    if p.Fetches? {
      var d := Apply(s, Cancel(c));
      var f := s.fetches[p.fetch].(outcome := Abandoned(s.now));
      CloseKeepsOwners(s, c, f);
      assert OwnersOk(d);
      ClosingKeepsSpacing(s.fetches, p.fetch, f);
      MoreFetches(s.fetches, d.fetches);
      hide Backed, Justified, FetchesSpaced, OwnersOk;
    } else {
      LeaveKeepsInv(s, c);
      hide Inv;
    }
  }

  lemma StepKeepsInv(s: State, step: Step)
    requires Inv(s) && Enabled(s, step)
    ensures Inv(Apply(s, step))
  {
    hide Inv, Apply;
    match step
    case Tick(now) => TickKeepsInv(s, now);
    case Call(_, _) => CallKeepsInv(s, step);
    case Acquire(_) => CallKeepsInv(s, step);
    case Check(c) => CheckKeepsInv(s, c);
    case Recheck(c) => RecheckKeepsInv(s, c);
    case Store(c, value) => StoreKeepsInv(s, c, value);
    case Cancel(c) => CancelKeepsInv(s, c);
  }

  ghost predicate Reaches(s: State, steps: seq<Step>, d: State)
    decreases |steps|
  {
    if |steps| == 0 then s == d
    else Enabled(s, steps[0]) && Reaches(Apply(s, steps[0]), steps[1..], d)
  }

  lemma {:induction false} ReachableInv(s: State, steps: seq<Step>, d: State)
    requires Inv(s) && Reaches(s, steps, d)
    ensures Inv(d)
    decreases |steps|
  {
    if |steps| > 0 {
      StepKeepsInv(s, steps[0]);
      hide Inv, Apply;
      ReachableInv(Apply(s, steps[0]), steps[1..], d);
    }
  }

  function Start(now: int): State { State(map[], map[], now, map[], [], []) }

  /** Single flight, for any number of callers, cancellations and any interleaving: two
      fetches of one selector never overlap, the later one starts only after the earlier
      result has expired, and every answer is the result of one fetch of that selector
      given before it expired. */
  lemma FetchesNeverOverlap(now: int, steps: seq<Step>, s: State)
    requires Reaches(Start(now), steps, s)
    ensures forall i, k :: 0 <= i < k < |s.fetches| ==> Spaced(s.fetches[i], s.fetches[k])
    ensures forall i :: 0 <= i < |s.responses| ==> Justified(s.fetches, s.responses[i])
  {
    ReachableInv(Start(now), steps, s);
    hide Reaches, Spaced, Justified;
  }

  /** While a stored result is fresh, every caller gets exactly that result and starts no
      fetch: one that looks into the cache first, and one that has waited for the selector's
      lock and looks again. */
  lemma FreshResultIsServed(now: int, steps: seq<Step>, s: State, i: nat, c: nat)
    requires Reaches(Start(now), steps, s)
    requires i < |s.fetches| && s.fetches[i].outcome.Stored? && s.now < s.fetches[i].outcome.expires
    requires c in s.callers && s.callers[c].selector == s.fetches[i].selector
    requires s.callers[c].ChecksCache? || s.callers[c].Rechecks?
    ensures var d := Apply(s, if s.callers[c].ChecksCache? then Check(c) else Recheck(c));
            && d.fetches == s.fetches && c !in d.callers
            && d.responses == s.responses + [Response(s.fetches[i].selector, s.fetches[i].outcome.value, s.now)]
  {
    ReachableInv(Start(now), steps, s);
    hide Reaches, FetchesSpaced, OwnersOk, Backed, Justified;
  }

  /** While a result is fresh no caller of its selector is fetching. */
  lemma FreshResultEndsFetching(now: int, steps: seq<Step>, s: State, i: nat, c: nat)
    requires Reaches(Start(now), steps, s)
    requires i < |s.fetches| && s.fetches[i].outcome.Stored? && s.now < s.fetches[i].outcome.expires
    requires c in s.callers && s.callers[c].selector == s.fetches[i].selector
    ensures !s.callers[c].Fetches?
  {
    ReachableInv(Start(now), steps, s);
    hide Reaches, Backed, Justified;
    assert forall k :: 0 <= k < i ==> Spaced(s.fetches[k], s.fetches[i]);
    assert forall k :: i < k < |s.fetches| ==> Spaced(s.fetches[i], s.fetches[k]) && s.fetches[k].start <= s.now;
  }
}
