/** The registry of per-installation action locks: a map of weak references to mutexes,
    pruned and refilled under the registry's own mutex while strong references are
    dropped at any moment by other tasks. Modelled as interleaved steps. */
module ActionLocks {
  import opened Base

  /** Where the call holding the registry mutex is: after `retain`, or after a failed
      `upgrade` and before inserting a fresh mutex. */
  datatype Section = Free | Retained(req: nat, key: string) | Missed(req: nat, key: string)

  /** A strong reference: one call of `lock` that has its `Arc`. */
  datatype Ref = Ref(req: nat, key: string, id: nat)

  datatype Registry = Registry(
    weak: map<string, nat>, refs: set<Ref>, held: map<nat, nat>, section: Section, next: nat)

  predicate Live(refs: set<Ref>, id: nat) { exists r :: r in refs && r.id == id }

  datatype Step =
    | EnterAndRetain(req: nat, key: string)
    | Upgrade
    | Insert
    | Acquire(r: Ref)
    | Drop(r: Ref)

  predicate Enabled(s: Registry, step: Step) {
    match step
    case EnterAndRetain(req, _) => s.section.Free? && (forall r :: r in s.refs ==> r.req != req)
    case Upgrade => s.section.Retained?
    case Insert => s.section.Missed?
    case Acquire(r) => r in s.refs && r.id !in s.held
    case Drop(r) => r in s.refs
  }

  /** Dropping a guard releases its mutex; dropping an `Arc` that never acquired does not. */
  function Apply(s: Registry, step: Step): Registry
    requires Enabled(s, step)
  {
    match step
    case EnterAndRetain(req, key) =>
      s.(weak := map k | k in s.weak && Live(s.refs, s.weak[k]) :: s.weak[k], section := Retained(req, key))
    case Upgrade =>
      var req, key := s.section.req, s.section.key;
      if key in s.weak && Live(s.refs, s.weak[key])
      then s.(refs := s.refs + {Ref(req, key, s.weak[key])}, section := Free)
      else s.(section := Missed(req, key))
    case Insert =>
      var req, key := s.section.req, s.section.key;
      s.(weak := s.weak[key := s.next], refs := s.refs + {Ref(req, key, s.next)}, section := Free, next := s.next + 1)
    case Acquire(r) => s.(held := s.held[r.id := r.req])
    case Drop(r) =>
      s.(refs := s.refs - {r},
      held := if r.id in s.held && s.held[r.id] == r.req then s.held - {r.id} else s.held)
  }

  /** A holder still has its strong reference. */
  predicate Claimed(refs: set<Ref>, id: nat, req: nat) { exists r :: r in refs && r.id == id && r.req == req }

  ghost predicate Inv(s: Registry) {
    && (forall r :: r in s.refs ==> r.key in s.weak && s.weak[r.key] == r.id)
    && (forall k :: k in s.weak ==> s.weak[k] < s.next)
    && (forall k, m :: k in s.weak && m in s.weak && s.weak[k] == s.weak[m] ==> k == m)
    && (forall id :: id in s.held ==> id < s.next && Claimed(s.refs, id, s.held[id]))
    && (s.section.Missed? ==> forall r :: r in s.refs ==> r.key != s.section.key)
    && (!s.section.Free? ==> forall r :: r in s.refs ==> r.req != s.section.req)
    && (forall r, q :: r in s.refs && q in s.refs && r.req == q.req ==> r == q)
  }

  const START: Registry := Registry(map[], {}, map[], Free, 0)

  lemma EnterKeepsInv(s: Registry, step: Step)
    requires Inv(s) && Enabled(s, step) && step.EnterAndRetain?
    ensures Inv(Apply(s, step))
  {
    var d := Apply(s, step);
    forall r | r in s.refs ensures r.key in d.weak && d.weak[r.key] == r.id {
      assert Live(s.refs, s.weak[r.key]);
    }
    hide Live, Claimed;
  }

  lemma UpgradeKeepsInv(s: Registry)
    requires Inv(s) && s.section.Retained?
    ensures Inv(Apply(s, Upgrade))
  {
    var d := Apply(s, Upgrade);
    if d.section.Missed? {
      forall r | r in s.refs ensures Live(s.refs, s.weak[r.key]) {
      }
    } else {
      ClaimsGrow(s, d);
      hide Live, Claimed;
    }
  }

  lemma InsertKeepsInv(s: Registry)
    requires Inv(s) && s.section.Missed?
    ensures Inv(Apply(s, Insert))
  {
    var d := Apply(s, Insert);
    ClaimsGrow(s, d);
    hide Live, Claimed;
    var added := Ref(s.section.req, s.section.key, s.next);
    forall r | r in d.refs ensures r.key in d.weak && d.weak[r.key] == r.id {
      assert r == added || r in s.refs;
    }
  }

  lemma ClaimsGrow(s: Registry, d: Registry)
    requires s.refs <= d.refs && d.held == s.held
    requires forall id :: id in s.held ==> Claimed(s.refs, id, s.held[id])
    ensures forall id :: id in d.held ==> Claimed(d.refs, id, d.held[id])
  {
    forall id | id in d.held ensures Claimed(d.refs, id, d.held[id]) {
      var r :| r in s.refs && r.id == id && r.req == s.held[id];
      assert r in d.refs;
    }
  }

  lemma AcquireKeepsInv(s: Registry, r: Ref)
    requires Inv(s) && Enabled(s, Acquire(r))
    ensures Inv(Apply(s, Acquire(r)))
  {
    assert Claimed(s.refs, r.id, r.req);
    assert r.id == s.weak[r.key];
    hide Live, Claimed;
  }

  lemma DropKeepsInv(s: Registry, r: Ref)
    requires Inv(s) && r in s.refs
    ensures Inv(Apply(s, Drop(r)))
  {
    var d := Apply(s, Drop(r));
    forall id | id in d.held ensures Claimed(d.refs, id, d.held[id]) {
      var q :| q in s.refs && q.id == id && q.req == s.held[id];
      assert q in d.refs;
    }
    hide Live, Claimed;
  }

  lemma StepKeepsInv(s: Registry, step: Step)
    requires Inv(s) && Enabled(s, step)
    ensures Inv(Apply(s, step))
  {
    hide Inv, Apply;
    match step
    case EnterAndRetain(req, key) => EnterKeepsInv(s, step);
    case Upgrade => UpgradeKeepsInv(s);
    case Insert => InsertKeepsInv(s);
    case Acquire(r) => AcquireKeepsInv(s, r);
    case Drop(r) => DropKeepsInv(s, r);
  }

  ghost predicate Reaches(s: Registry, steps: seq<Step>, d: Registry)
    decreases |steps|
  {
    if |steps| == 0 then s == d
    else Enabled(s, steps[0]) && Reaches(Apply(s, steps[0]), steps[1..], d)
  }

  lemma {:induction false} ReachableInv(s: Registry, steps: seq<Step>, d: Registry)
    requires Inv(s) && Reaches(s, steps, d)
    ensures Inv(d)
    decreases |steps|
  {
    if |steps| > 0 {
      StepKeepsInv(s, steps[0]);
      ReachableInv(Apply(s, steps[0]), steps[1..], d);
    }
  }

  // ---------------------------------------------------------------- one mutex per key

  predicate Holds(s: Registry, r: Ref) { r in s.refs && r.id in s.held && s.held[r.id] == r.req }

  /** For every interleaving, two live references to one installation share one mutex,
      different installations never do, and at most one call holds an installation. */
  lemma OneLiveMutexPerKey(steps: seq<Step>, s: Registry, r: Ref, q: Ref)
    requires Reaches(START, steps, s) && r in s.refs && q in s.refs
    ensures r.key == q.key <==> r.id == q.id
    ensures Holds(s, r) && Holds(s, q) && r.key == q.key ==> r == q
  {
    ReachableInv(START, steps, s);
  }

  // ---------------------------------------------------------------- refinement

  /** What a caller sees: which call currently owns an installation. */
  function OwnerOf(s: Registry, k: string): Option<nat> {
    if k in s.weak && s.weak[k] in s.held then Some(s.held[s.weak[k]]) else None
  }

  /** An owned key still has the reference that owns it. */
  lemma OwnerHasRef(s: Registry, k: string) returns (r: Ref)
    requires Inv(s) && OwnerOf(s, k).Some?
    ensures r in s.refs && r.key == k && r.id == s.weak[k] && r.req == s.held[s.weak[k]]
  {
    assert Claimed(s.refs, s.weak[k], s.held[s.weak[k]]);
    r :| r in s.refs && r.id == s.weak[k] && r.req == s.held[s.weak[k]];
    assert s.weak[r.key] == s.weak[k];
  }

  lemma SectionKeepsOwner(s: Registry, step: Step, k: string)
    requires Inv(s) && Enabled(s, step) && (step.EnterAndRetain? || step.Upgrade? || step.Insert?)
    ensures OwnerOf(Apply(s, step), k) == OwnerOf(s, k)
  {
    if OwnerOf(s, k).Some? {
      var r := OwnerHasRef(s, k);
      assert Live(s.refs, s.weak[k]);
    }
    hide Claimed, Live;
  }

  /** The registry refines one plain mutex per installation: acquiring is possible exactly
      when nobody owns the installation, it makes the caller the owner, dropping the
      owner's guard frees it, and no other step changes ownership. */
  lemma RefinesPerKeyMutex(s: Registry, step: Step, k: string)
    requires Inv(s) && Enabled(s, step)
    ensures var d := Apply(s, step);
            match step
            case Acquire(r) =>
              && OwnerOf(s, r.key).None?
              && OwnerOf(d, k) == if k == r.key then Some(r.req) else OwnerOf(s, k)
            case Drop(r) => OwnerOf(d, k) == if Holds(s, r) && k == r.key then None else OwnerOf(s, k)
            case _ => OwnerOf(d, k) == OwnerOf(s, k)
    ensures forall r :: r in s.refs ==> (OwnerOf(s, r.key).None? <==> Enabled(s, Acquire(r)))
  {
    if step.EnterAndRetain? || step.Upgrade? || step.Insert? {
      SectionKeepsOwner(s, step, k);
    }
    hide Claimed, Live;
  }
}
