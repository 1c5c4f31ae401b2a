/** Concurrent takeovers over the action locks: two installations each, taken in one
    stable order, plus the single-installation users of the same locks. */
module TakeoverLocks {
  import opened Base
  import opened TextOrder

  /** `lock_client_market_actions`: the smaller installation first. */
  function InOrder(target: string, source: string): (string, string) {
    var t, s := Trim(target), Trim(source);
    if t == s || Less(t, s) then (t, s) else (s, t)
  }

  /** Both installations are locked, and both sides of a swap lock them in the same order. */
  lemma OrderIsOfBoth(target: string, source: string)
    ensures {InOrder(target, source).0, InOrder(target, source).1} == {Trim(target), Trim(source)}
    ensures InOrder(target, source) == InOrder(source, target)
    ensures !Less(InOrder(target, source).1, InOrder(target, source).0)
  {
    var t, s := Trim(target), Trim(source);
    LessTotal(t, s);
    LessIrreflexive(t);
    if Less(t, s) && Less(s, t) {
      LessTransitive(t, s, t);
    }
    hide Trim, Less;
  }

  datatype Phase =
    | WantFirst(first: string, second: string)
    | WantSecond(first: string, second: string)
    | HasBoth(first: string, second: string)
    | WantOne(key: string)
    | HasOne(key: string)

  datatype State = State(phase: map<nat, Phase>, owner: map<string, nat>)

  datatype Step =
    | RequestTakeover(task: nat, target: string, source: string)
    | RequestOne(task: nat, installation: string)
    | Advance(task: nat)
    | Release(task: nat)

  /** The lock a task is queued on. */
  function Wanted(p: Phase): Option<string> {
    match p
    case WantFirst(first, _) => Some(first)
    case WantSecond(_, second) => Some(second)
    case WantOne(key) => Some(key)
    case _ => None
  }

  function Held(p: Phase): set<string> {
    match p
    case WantSecond(first, _) => {first}
    case HasBoth(first, second) => {first, second}
    case HasOne(key) => {key}
    case _ => {}
  }

  predicate Enabled(s: State, step: Step) {
    match step
    case RequestTakeover(t, _, _) => t !in s.phase
    case RequestOne(t, _) => t !in s.phase
    case Advance(t) => t in s.phase && Wanted(s.phase[t]).Some? && Wanted(s.phase[t]).value !in s.owner
    case Release(t) => t in s.phase
  }

  function AfterGrant(p: Phase): Phase {
    match p
    case WantFirst(first, second) => if first == second then HasBoth(first, second) else WantSecond(first, second)
    case WantSecond(first, second) => HasBoth(first, second)
    case WantOne(key) => HasOne(key)
    case _ => p
  }

  /** `Release` drops every guard, whether the work finished, failed or was cancelled. */
  function Apply(s: State, step: Step): State
    requires Enabled(s, step)
  {
    match step
    case RequestTakeover(t, target, source) =>
      var order := InOrder(target, source);
      s.(phase := s.phase[t := WantFirst(order.0, order.1)])
    case RequestOne(t, installation) => s.(phase := s.phase[t := WantOne(installation)])
    case Advance(t) =>
      s.(phase := s.phase[t := AfterGrant(s.phase[t])], owner := s.owner[Wanted(s.phase[t]).value := t])
    case Release(t) => s.(phase := s.phase - {t}, owner := s.owner - Held(s.phase[t]))
  }

  ghost predicate Inv(s: State) {
    && (forall k :: k in s.owner ==> s.owner[k] in s.phase && k in Held(s.phase[s.owner[k]]))
    && (forall t, k :: t in s.phase && k in Held(s.phase[t]) ==> k in s.owner && s.owner[k] == t)
    && (forall t :: t in s.phase ==> Ordered(s.phase[t]))
  }

  predicate Ordered(p: Phase) {
    match p
    case WantFirst(first, second) => first == second || Less(first, second)
    case WantSecond(first, second) => Less(first, second)
    case _ => true
  }

  lemma RequestKeepsInv(s: State, step: Step)
    requires Inv(s) && Enabled(s, step) && (step.RequestTakeover? || step.RequestOne?)
    ensures Inv(Apply(s, step))
  {
    hide Trim, Less;
    if step.RequestTakeover? {
      LessTotal(Trim(step.target), Trim(step.source));
    }
    var d := Apply(s, step);
    assert Held(d.phase[step.task]) == {};
    forall k | k in d.owner ensures d.owner[k] in d.phase && k in Held(d.phase[d.owner[k]]) {
      assert s.owner[k] in s.phase;
    }
  }

  lemma AdvanceKeepsInv(s: State, t: nat)
    requires Inv(s) && Enabled(s, Advance(t))
    ensures Inv(Apply(s, Advance(t)))
  {
    hide Less;
    var d := Apply(s, Advance(t));
    var wanted := Wanted(s.phase[t]).value;
    assert Held(d.phase[t]) == Held(s.phase[t]) + {wanted};
    forall k | k in d.owner ensures d.owner[k] in d.phase && k in Held(d.phase[d.owner[k]]) {
      if k != wanted { assert k in Held(s.phase[s.owner[k]]); }
    }
    forall u, k | u in d.phase && k in Held(d.phase[u]) ensures k in d.owner && d.owner[k] == u {
      if u != t { assert k in Held(s.phase[u]); }
    }
  }

  lemma ReleaseKeepsInv(s: State, t: nat)
    requires Inv(s) && t in s.phase
    ensures Inv(Apply(s, Release(t)))
  {
    hide Less, Held;
    var d := Apply(s, Release(t));
    assert d.phase == s.phase - {t} && d.owner == s.owner - Held(s.phase[t]);
    forall k | k in d.owner ensures d.owner[k] in d.phase && k in Held(d.phase[d.owner[k]]) {
      assert k in Held(s.phase[s.owner[k]]);
    }
    forall u, k | u in d.phase && k in Held(d.phase[u]) ensures k in d.owner && d.owner[k] == u {
      assert u != t && d.phase[u] == s.phase[u];
      assert s.owner[k] == u;
      assert k !in Held(s.phase[t]);
    }
  }

  lemma StepKeepsInv(s: State, step: Step)
    requires Inv(s) && Enabled(s, step)
    ensures Inv(Apply(s, step))
  {
    hide Inv, Apply;
    match step
    case RequestTakeover(_, _, _) => RequestKeepsInv(s, step);
    case RequestOne(_, _) => RequestKeepsInv(s, step);
    case Advance(t) => AdvanceKeepsInv(s, t);
    case Release(t) => ReleaseKeepsInv(s, t);
  }

  ghost predicate Reaches(s: State, steps: seq<Step>, d: State)
    decreases |steps|
  {
    if |steps| == 0 then s == d
    else Enabled(s, steps[0]) && Reaches(Apply(s, steps[0]), steps[1..], d)
  }

  lemma {:induction false} ReachableInv(s: State, steps: seq<Step>, d: State)
    requires Inv(s) && Reaches(s, steps, d)
    ensures Inv(d)
    decreases |steps|
  {
    if |steps| > 0 {
      StepKeepsInv(s, steps[0]);
      ReachableInv(Apply(s, steps[0]), steps[1..], d);
    }
  }

  /** Task `t` is queued on a lock that task `u` holds. */
  predicate WaitsFor(s: State, t: nat, u: nat) {
    && t in s.phase && u in s.phase
    && Wanted(s.phase[t]).Some?
    && Wanted(s.phase[t]).value in s.owner
    && s.owner[Wanted(s.phase[t]).value] == u
  }

  predicate WaitChain(s: State, ts: seq<nat>) {
    forall i :: 0 <= i < |ts| - 1 ==> WaitsFor(s, ts[i], ts[i + 1])
  }

  /** Along a chain of waiting tasks the wanted locks strictly increase. */
  lemma {:induction false} ChainIncreases(s: State, ts: seq<nat>)
    requires Inv(s) && |ts| >= 2 && WaitChain(s, ts)
    requires forall i :: 0 <= i < |ts| ==> ts[i] in s.phase && Wanted(s.phase[ts[i]]).Some?
    ensures Less(Wanted(s.phase[ts[0]]).value, Wanted(s.phase[ts[|ts| - 1]]).value)
    decreases |ts|
  {
    var first, next := s.phase[ts[0]], s.phase[ts[1]];
    assert WaitsFor(s, ts[0], ts[1]);
    assert Wanted(first).value in Held(next);
    assert Less(Wanted(first).value, Wanted(next).value);
    if |ts| > 2 {
      forall i | 0 <= i < |ts[1..]| - 1 ensures WaitsFor(s, ts[1..][i], ts[1..][i + 1]) {
        assert WaitsFor(s, ts[i + 1], ts[i + 2]);
      }
      ChainIncreases(s, ts[1..]);
      LessTransitive(Wanted(first).value, Wanted(next).value, Wanted(s.phase[ts[|ts| - 1]]).value);
    }
  }

  /** Deadlock freedom: however many takeovers run over whatever pairs, equal and swapped
      ones included, no reachable state has a cycle of tasks waiting for each other. */
  lemma NoDeadlock(steps: seq<Step>, s: State, ts: seq<nat>)
    requires Reaches(State(map[], map[]), steps, s)
    requires |ts| >= 2 && WaitChain(s, ts)
    ensures ts[0] != ts[|ts| - 1]
  {
    ReachableInv(State(map[], map[]), steps, s);
    if ts[0] == ts[|ts| - 1] {
      assert WaitsFor(s, ts[0], ts[1]);
      forall i | 0 <= i < |ts| ensures ts[i] in s.phase && Wanted(s.phase[ts[i]]).Some? {
        if i < |ts| - 1 { assert WaitsFor(s, ts[i], ts[i + 1]); }
      }
      ChainIncreases(s, ts);
      LessIrreflexive(Wanted(s.phase[ts[0]]).value);
    }
  }

  /** Two tasks never hold the same installation. */
  lemma MutualExclusion(steps: seq<Step>, s: State, t: nat, u: nat, k: string)
    requires Reaches(State(map[], map[]), steps, s)
    requires t in s.phase && u in s.phase && k in Held(s.phase[t]) && k in Held(s.phase[u])
    ensures t == u
  {
    ReachableInv(State(map[], map[]), steps, s);
    hide Reaches;
    assert s.owner[k] == t;
  }

  predicate Seeks(p: Phase, a: string, b: string) {
    (p.WantFirst? || p.WantSecond? || p.HasBoth?) && {p.first, p.second} == {a, b}
  }

  lemma {:induction false} KeepsSeeking(s: State, t: nat, a: string, b: string, steps: seq<Step>, d: State)
    requires Reaches(s, steps, d) && Release(t) !in steps && t in s.phase && Seeks(s.phase[t], a, b)
    ensures t in d.phase && Seeks(d.phase[t], a, b)
    decreases |steps|
  {
    if |steps| > 0 {
      KeepsSeeking(Apply(s, steps[0]), t, a, b, steps[1..], d);
    }
  }

  /** A takeover that has not let go either still waits for a lock, or owns both of its
      installations and no other. */
  lemma TakeoverOwnsBoth(s: State, t: nat, target: string, source: string, steps: seq<Step>, d: State)
    requires Inv(s) && Enabled(s, RequestTakeover(t, target, source))
    requires Reaches(Apply(s, RequestTakeover(t, target, source)), steps, d) && Release(t) !in steps
    ensures t in d.phase
    ensures Wanted(d.phase[t]).Some? ||
            forall k :: (k in d.owner && d.owner[k] == t) <==> k == Trim(target) || k == Trim(source)
  {
    var s1 := Apply(s, RequestTakeover(t, target, source));
    OrderIsOfBoth(target, source);
    StepKeepsInv(s, RequestTakeover(t, target, source));
    ReachableInv(s1, steps, d);
    hide Trim, InOrder, Reaches, Less;
    KeepsSeeking(s1, t, Trim(target), Trim(source), steps, d);
    if Wanted(d.phase[t]).None? {
      var p := d.phase[t];
      assert Held(p) == {p.first, p.second} == {Trim(target), Trim(source)};
    }
  }
}
