/** The Bark provider row: a configuration fence across a network call, and a circuit breaker,
    both specified by the log of requests the row has served. */
module BarkFence {
  import opened Base

  const FAILURE_THRESHOLD: int := 3
  const CIRCUIT_OPEN_SECS: int := 300

  datatype Config = Config(enabled: bool, identity: Option<string>, binding: Option<string>)

  datatype Event =
    | Publish(config: Config)
    | Healthy(identity: string)
    | Failure(identity: string, now: int)
    | BeginBinding(identity: string, binding: string)
    | CommitBinding(identity: string, binding: string, generation: int, cipher: string)

  datatype Status = Disabled | Ready | Degraded

  /** A configuration missing either half is published as disabled. */
  function Effective(c: Config): Config {
    c.(enabled := c.enabled && c.identity.Some? && c.binding.Some?)
  }

  // ---------------------------------------------------------------- history

  /** The configuration in force after a log: the last one published. */
  function InForce(log: seq<Event>): Config
    decreases |log|
  {
    if |log| == 0 then Config(false, None, None)
    else if log[|log| - 1].Publish? then Effective(log[|log| - 1].config)
    else InForce(log[..|log| - 1])
  }

  predicate Changes(log: seq<Event>, k: int) {
    0 <= k < |log| && log[k].Publish? && Effective(log[k].config) != InForce(log[..k])
  }

  ghost function ChangeSet(log: seq<Event>): set<int> { set k | 0 <= k < |log| && Changes(log, k) }

  /** A report about the provider that is in force and enabled when it arrives. */
  predicate Current(log: seq<Event>, k: int) {
    && 0 <= k < |log| && (log[k].Healthy? || log[k].Failure?)
    && InForce(log[..k]).enabled && InForce(log[..k]).identity == Some(log[k].identity)
  }

  predicate Wipes(log: seq<Event>, k: int) { Changes(log, k) || (Current(log, k) && log[k].Healthy?) }

  predicate CountsFailure(log: seq<Event>, k: int) {
    Current(log, k) && log[k].Failure? && forall j :: k < j < |log| ==> !Wipes(log, j)
  }

  /** Failures reported since the last success or configuration change. */
  ghost function FailureSet(log: seq<Event>): set<int> { set k | 0 <= k < |log| && CountsFailure(log, k) }

  predicate LastFailure(log: seq<Event>, k: int) {
    CountsFailure(log, k) && forall j :: k < j < |log| ==> !CountsFailure(log, j)
  }

  /** The circuit is open from the third counted failure on, for five minutes after the last. */
  ghost predicate CircuitOf(log: seq<Event>, until: Option<int>) {
    && (until.Some? <==> |FailureSet(log)| >= 3)
    && (until.Some? ==>
          exists k :: 0 <= k < |log| && LastFailure(log, k) && until.value == log[k].now + 300)
  }

  ghost function Generation(log: seq<Event>): int { Min(|ChangeSet(log)|, I64_MAX) }

  ghost function FailureCount(log: seq<Event>): int { Min(|FailureSet(log)|, I64_MAX) }

  // ---------------------------------------------------------------- one more request

  lemma PrefixFacts(log: seq<Event>, t: seq<Event>, k: int)
    requires 0 <= k < |log|
    ensures (log + t)[..k] == log[..k] && (log + t)[k] == log[k]
    ensures Changes(log + t, k) == Changes(log, k)
    ensures Current(log + t, k) == Current(log, k)
    ensures Wipes(log + t, k) == Wipes(log, k)
  {
    assert (log + t)[..k] == log[..k];
  }

  lemma NewestFacts(log: seq<Event>, e: Event)
    ensures Changes(log + [e], |log|) <==> e.Publish? && Effective(e.config) != InForce(log)
    ensures Current(log + [e], |log|) <==>
              (e.Healthy? || e.Failure?) && InForce(log).enabled && InForce(log).identity == Some(e.identity)
    ensures InForce(log + [e]) == if e.Publish? then Effective(e.config) else InForce(log)
  {
    assert (log + [e])[..|log|] == log;
  }

  lemma GenerationStep(log: seq<Event>, e: Event)
    ensures Generation(log + [e]) == if Changes(log + [e], |log|) then Min(Generation(log) + 1, I64_MAX)
        else Generation(log)
  {
    var g := log + [e];
    forall k | 0 <= k < |log| ensures Changes(g, k) == Changes(log, k) { PrefixFacts(log, [e], k); }
    hide Changes;
    assert ChangeSet(g) == if Changes(g, |log|) then ChangeSet(log) + {|log|} else ChangeSet(log);
  }

  lemma CountsStep(log: seq<Event>, e: Event, k: int)
    requires 0 <= k < |log|
    ensures CountsFailure(log + [e], k) <==> CountsFailure(log, k) && !Wipes(log + [e], |log|)
  {
    var g := log + [e];
    forall j | 0 <= j < |log| ensures Wipes(g, j) == Wipes(log, j) {
      PrefixFacts(log, [e], j);
    }
    PrefixFacts(log, [e], k);
    hide Changes, Current, Wipes;
  }

  lemma FailuresStep(log: seq<Event>, e: Event)
    ensures var g := log + [e];
            FailureSet(g) == if Wipes(g, |log|) then {}
                             else if Current(g, |log|) && e.Failure? then FailureSet(log) + {|log|}
                             else FailureSet(log)
  {
    var g := log + [e];
    forall k | 0 <= k < |log| ensures CountsFailure(g, k) <==> CountsFailure(log, k) && !Wipes(g, |log|) {
      CountsStep(log, e, k);
    }
    NewestCounts(log, e);
    NewestFacts(log, e);
    hide CountsFailure, Current, Changes, InForce;
  }

  lemma NewestCounts(log: seq<Event>, e: Event)
    ensures CountsFailure(log + [e], |log|) <==> Current(log + [e], |log|) && e.Failure?
  {
    hide Current, Changes;
  }

  /** A failure that counts reopens the window; anything else leaves the circuit as it was,
      unless it wipes the count. */
  lemma CircuitStep(log: seq<Event>, e: Event, until: Option<int>)
    requires CircuitOf(log, until)
    ensures var g := log + [e];
            CircuitOf(g, if Wipes(g, |log|) then None
                         else if Current(g, |log|) && e.Failure? then
                           (if |FailureSet(log)| + 1 >= FAILURE_THRESHOLD then Some(e.now + CIRCUIT_OPEN_SECS)
                               else None)
                         else until)
  {
    var g := log + [e];
    FailuresStep(log, e);
    NewestCounts(log, e);
    forall k | 0 <= k < |log| ensures CountsFailure(g, k) <==> CountsFailure(log, k) && !Wipes(g, |log|) {
      CountsStep(log, e, k);
    }
    hide CountsFailure, FailureSet, Wipes, Current;
    assert g[|log|] == e;
    if CountsFailure(g, |log|) {
      assert LastFailure(g, |log|);
    } else if !Wipes(g, |log|) && until.Some? {
      var k :| 0 <= k < |log| && LastFailure(log, k) && until.value == log[k].now + CIRCUIT_OPEN_SECS;
      assert g[k] == log[k];
      assert LastFailure(g, k);
    }
  }

  predicate IsChange(c: Config, e: Event) { e.Publish? && Effective(e.config) != c }

  predicate IsCurrent(c: Config, e: Event) {
    (e.Healthy? || e.Failure?) && c.enabled && c.identity == Some(e.identity)
  }

  /** How every part of the row must move with one more request. */
  lemma LogStep(log: seq<Event>, e: Event, until: Option<int>)
    requires CircuitOf(log, until)
    ensures var g := log + [e];
            var c := InForce(log);
            var wiped := IsChange(c, e) || (IsCurrent(c, e) && e.Healthy?);
            var counted := IsCurrent(c, e) && e.Failure?;
            && InForce(g) == (if e.Publish? then Effective(e.config) else c)
            && Generation(g) == (if IsChange(c, e) then Min(Generation(log) + 1, I64_MAX) else Generation(log))
            && FailureCount(g) == (if wiped then 0 else if counted then Min(FailureCount(log) + 1, I64_MAX)
                else FailureCount(log))
            && CircuitOf(g, if wiped then None
                            else if counted then
                              (if FailureCount(log) + 1 >= FAILURE_THRESHOLD then Some(e.now + CIRCUIT_OPEN_SECS)
                                  else None)
                            else until)
  {
    NewestFacts(log, e);
    GenerationStep(log, e);
    FailuresStep(log, e);
    CircuitStep(log, e, until);
    NewIndex(log);
    hide Generation, FailureSet, CircuitOf, InForce, Changes, Current;
  }

  lemma NewIndex(log: seq<Event>)
    ensures |log| !in FailureSet(log)
  {
  }

  // ---------------------------------------------------------------- the row

  class ProviderRuntime {
    var identity: Option<string>
    var binding: Option<string>
    var generation: int
    var enabled: bool
    var status: Status
    var failures: int
    var circuitOpenUntil: Option<int>
    ghost var log: seq<Event>

    ghost predicate Valid()
      reads this
    {
      && Config(enabled, identity, binding) == InForce(log)
      && generation == Generation(log)
      && failures == FailureCount(log)
      && CircuitOf(log, circuitOpenUntil)
      && status == (if failures > 0 then Degraded else if enabled then Ready else Disabled)
    }

    constructor ()
      ensures Valid() && log == []
    {
      identity, binding, generation, enabled := None, None, 0, false;
      status, failures, circuitOpenUntil, log := Disabled, 0, None, [];
      new;
      assert ChangeSet([]) == {} && FailureSet([]) == {};
    }

    /** `sync_provider_configuration_tx` */
    method Sync(c: Config) returns (g: int)
      requires Valid()
      modifies this
      ensures Valid() && log == old(log) + [Publish(c)]
      ensures g == Generation(log)
    {
      ghost var e := Publish(c);
      ghost var next := log + [e];
      LogStep(log, e, circuitOpenUntil);
      hide Generation, FailureCount, CircuitOf, InForce;
      var on := c.enabled && c.identity.Some? && c.binding.Some?;
      var changed := identity != c.identity || binding != c.binding || enabled != on;
      g := if changed then Min(generation + 1, I64_MAX) else generation;
      if changed {
        identity, binding, generation, enabled := c.identity, c.binding, g, on;
        status := if on then Ready else Disabled;
        failures, circuitOpenUntil := 0, None;
      }
      log := next;
    }

    /** `mark_bark_provider_healthy` */
    method MarkHealthy(id: string)
      requires Valid()
      modifies this
      ensures Valid() && log == old(log) + [Healthy(id)]
    {
      ghost var e := Healthy(id);
      ghost var next := log + [e];
      LogStep(log, e, circuitOpenUntil);
      hide Generation, FailureCount, CircuitOf, InForce;
      if enabled && identity == Some(id) {
        status, failures, circuitOpenUntil := Ready, 0, None;
      }
      log := next;
    }

    /** `mark_bark_provider_failure` */
    method MarkFailure(id: string, now: int)
      requires Valid()
      modifies this
      ensures Valid() && log == old(log) + [Failure(id, now)]
    {
      ghost var e := Failure(id, now);
      ghost var next := log + [e];
      LogStep(log, e, circuitOpenUntil);
      hide Generation, FailureCount, CircuitOf, InForce;
      var prior := if identity == Some(id) then failures else 0;
      var count := Min(prior + 1, I64_MAX);
      var until := if count >= FAILURE_THRESHOLD then Some(now + CIRCUIT_OPEN_SECS) else None;
      if enabled && identity == Some(id) {
        status, failures, circuitOpenUntil := Degraded, count, until;
      }
      log := next;
    }

    /** `begin_bark_binding_attempt`: the generation to present at commit, if the
        configuration the caller read is the one in force. */
    method Begin(id: string, b: string) returns (g: Result<int>)
      requires Valid()
      modifies `log
      ensures Valid() && log == old(log) + [BeginBinding(id, b)]
      ensures g == if InForce(old(log)) == Config(true, Some(id), Some(b)) then Ok(Generation(old(log)))
          else Err(Conflict)
    {
      ghost var e := BeginBinding(id, b);
      ghost var next := log + [e];
      LogStep(log, e, circuitOpenUntil);
      hide Generation, FailureCount, CircuitOf, InForce;
      log := next;
      if enabled && identity == Some(id) && binding == Some(b) {
        return Ok(generation);
      }
      return Err(Conflict);
    }

    /** `commit_bark_binding`, up to the decision to write the binding. */
    method Commit(id: string, b: string, expected: int, cipher: string) returns (ok: bool)
      requires Valid()
      modifies `log
      ensures Valid() && log == old(log) + [CommitBinding(id, b, expected, cipher)]
      ensures ok <==> Accepts(old(log), log[|log| - 1])
    {
      ghost var e := CommitBinding(id, b, expected, cipher);
      ghost var next := log + [e];
      LogStep(log, e, circuitOpenUntil);
      hide Generation, FailureCount, CircuitOf, InForce;
      log := next;
      ok := enabled && identity == Some(id) && binding == Some(b) && generation == expected && cipher == b;
    }
  }

  // ---------------------------------------------------------------- the fence

  ghost predicate Begins(log: seq<Event>, e: Event) {
    e.BeginBinding? && InForce(log) == Config(true, Some(e.identity), Some(e.binding))
  }

  ghost predicate Accepts(log: seq<Event>, e: Event) {
    && e.CommitBinding? && InForce(log) == Config(true, Some(e.identity), Some(e.binding))
    && e.generation == Generation(log) && e.cipher == e.binding
  }

  predicate ChangedBetween(log: seq<Event>, a: int, b: int) { exists k :: a < k < b && Changes(log, k) }

  /** The generation never goes back, and repeats exactly when nothing changed in between or
      it had already reached the largest value. */
  lemma {:induction false} GenerationRepeats(log: seq<Event>, a: nat, b: nat)
    requires a <= b <= |log|
    ensures Generation(log[..a]) <= Generation(log[..b])
    ensures Generation(log[..a]) == Generation(log[..b]) <==>
              (forall k :: a <= k < b ==> !Changes(log, k)) || Generation(log[..a]) == I64_MAX
    decreases b - a
  {
    hide Generation, Changes;
    if a < b {
      GenerationRepeats(log, a, b - 1);
      GenerationCap(log[..b - 1]);
      GenerationStep(log[..b - 1], log[b - 1]);
      assert log[..b] == log[..b - 1] + [log[b - 1]];
      assert log == log[..b] + log[b..];
      PrefixFacts(log[..b], log[b..], b - 1);
    }
  }

  lemma GenerationCap(log: seq<Event>)
    ensures 0 <= Generation(log) <= I64_MAX
  {
  }

  /** The configuration in force only moves at a change. */
  lemma {:induction false} InForceSteady(log: seq<Event>, a: nat, b: nat)
    requires a <= b <= |log| && forall k :: a <= k < b ==> !Changes(log, k)
    ensures InForce(log[..a]) == InForce(log[..b])
    decreases b - a
  {
    if a < b {
      InForceSteady(log, a, b - 1);
      assert log[..b] == log[..b - 1] + [log[b - 1]];
      NewestFacts(log[..b - 1], log[b - 1]);
      PrefixFacts(log[..b], log[b..], b - 1);
      assert log == log[..b] + log[b..];
      assert !Changes(log, b - 1);
    }
  }

  /** The fence: a commit that presents the generation its own begin returned is accepted
      exactly when the caller's key matches and no enable, server or key transition came
      between begin and commit, transitions away and back included. The one exception is a
      row whose generation was already at its maximum when the attempt began; there only the
      configuration in force at the commit counts. */
  lemma FenceHolds(log: seq<Event>, a: nat, e: Event)
    requires a < |log| && Begins(log[..a], log[a])
    requires e.CommitBinding? && e.identity == log[a].identity && e.binding == log[a].binding
    requires e.generation == Generation(log[..a])
    ensures Accepts(log, e) <==>
              && e.cipher == e.binding
              && (!ChangedBetween(log, a, |log|) ||
                  (Generation(log[..a]) == I64_MAX && InForce(log) == InForce(log[..a])))
  {
    assert log[..|log|] == log;
    assert !Changes(log, a);
    GenerationRepeats(log, a, |log|);
    if !ChangedBetween(log, a, |log|) {
      InForceSteady(log, a, |log|);
    }
  }

  /** Publishing alternately two configurations: every request is a change. */
  function Flips(n: nat): seq<Event> {
    if n == 0 then []
    else Flips(n - 1) + [Publish(Config(n % 2 == 1, Some("server"), Some("key")))]
  }

  lemma {:induction false} FlipsChange(n: nat)
    ensures Generation(Flips(n)) == Min(n, I64_MAX)
    ensures InForce(Flips(n)) == if n == 0 then Config(false, None, None)
        else Config(n % 2 == 1, Some("server"), Some("key"))
  {
    if n == 0 {
      assert ChangeSet([]) == {};
    } else {
      FlipsChange(n - 1);
      hide Generation;
      GenerationStep(Flips(n - 1), Publish(Config(n % 2 == 1, Some("server"), Some("key"))));
      NewestFacts(Flips(n - 1), Publish(Config(n % 2 == 1, Some("server"), Some("key"))));
    }
  }

  /** The exception is real: after 2^63 - 1 changes a transition away and back goes unseen. */
  lemma SaturatedFenceMissesFlip()
    ensures var before := Flips(I64_MAX);
            var begin := BeginBinding("server", "key");
            var log := before + [begin] + [Publish(Config(false, Some("server"), Some("key")))]
                       + [Publish(Config(true, Some("server"), Some("key")))];
            && Begins(before, begin) && ChangedBetween(log, |before|, |log|)
            && Accepts(log, CommitBinding("server", "key", Generation(before), "key"))
  {
    var off, on := Config(false, Some("server"), Some("key")), Config(true, Some("server"), Some("key"));
    var before := Flips(I64_MAX);
    FlipsChange(I64_MAX);
    var l1 := before + [BeginBinding("server", "key")];
    var l2 := l1 + [Publish(off)];
    var l3 := l2 + [Publish(on)];
    hide Generation, Flips;
    NewestFacts(before, BeginBinding("server", "key"));
    GenerationStep(before, BeginBinding("server", "key"));
    NewestFacts(l1, Publish(off));
    GenerationStep(l1, Publish(off));
    NewestFacts(l2, Publish(on));
    GenerationStep(l2, Publish(on));
    hide *;
    assert Changes(l3, |l2|);
  }

  /** Reports about a configuration that is not in force change nothing. */
  lemma StaleReportsAreIgnored(log: seq<Event>, e: Event, until: Option<int>)
    requires e.Healthy? || e.Failure?
    requires !(InForce(log).enabled && InForce(log).identity == Some(e.identity))
    requires CircuitOf(log, until)
    ensures InForce(log + [e]) == InForce(log) && Generation(log + [e]) == Generation(log)
    ensures FailureCount(log + [e]) == FailureCount(log) && CircuitOf(log + [e], until)
  {
    LogStep(log, e, until);
    hide InForce, FailureCount, CircuitOf, Generation;
  }
}
