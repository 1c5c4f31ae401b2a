/** Merging persisted observations of one request for the dashboard ticker. */
module Ticker {
  import opened Base
  import TextOrder

  datatype Usage = Usage(
    input: Option<nat>, output: Option<nat>, cacheRead: Option<nat>, cacheCreation: Option<nat>, total: Option<nat>,
    state: Option<string>, stream: Option<string>, revision: Option<nat>)

  datatype Labels = Labels(
    shareId: string, shareName: Option<string>, shareSubdomain: Option<string>,
    country: Option<string>, countryIso3: Option<string>, email: Option<string>)

  datatype Details = Details(
    agent: Option<string>, requestedModel: Option<string>, actualModel: Option<string>, model: Option<string>,
    latency: Option<nat>, status: Option<nat>)

  datatype Event = Event(requestId: string, labels: Labels, details: Details, started: int, usage: Usage)

  // ---------------------------------------------------------------- usage

  predicate HasUsage(u: Usage) {
    || u.state.Some? || u.revision.Some? || u.input.Some? || u.output.Some?
    || u.cacheRead.Some? || u.cacheCreation.Some? || u.total.Some?
  }

  function Rank(state: Option<string>): nat {
    match state
    case None => 0
    case Some(s) => if s == "observed" then 3 else if s == "missing" || s == "parse_error" || s == "interrupted" then 2
        else 1
  }

  function OrZero(x: Option<nat>): nat { if x.Some? then x.value else 0 }

  function Total(u: Usage): Option<nat> {
    if u.total.Some? then u.total
    else if u.input.Some? || u.output.Some? || u.cacheRead.Some? || u.cacheCreation.Some? then
      Some(OrZero(u.input) + OrZero(u.output) + OrZero(u.cacheRead) + OrZero(u.cacheCreation))
    else None
  }

  /** `should_replace_ticker_usage` */
  predicate ShouldReplace(target: Usage, source: Usage) {
    if !HasUsage(source) then false
    else if !HasUsage(target) then true
    else if OrZero(source.revision) > OrZero(target.revision) then true
    else if OrZero(source.revision) < OrZero(target.revision) then false
    else
      var richer := match (Total(source), Total(target))
        case (Some(s), Some(t)) => s > t
        case (Some(_), None) => true
        case _ => false;
      Rank(source.state) > Rank(target.state) || (Rank(source.state) == Rank(target.state) && richer)
  }

  /** What a usage record is judged by. */
  datatype Key = Key(has: bool, revision: nat, rank: nat, total: Option<nat>)

  function KeyOf(u: Usage): Key { Key(HasUsage(u), OrZero(u.revision), Rank(u.state), Total(u)) }

  /** Lexicographic order on keys. */
  predicate Below(a: Key, b: Key) {
    if a.has != b.has then b.has
    else if a.revision != b.revision then a.revision < b.revision
    else if a.rank != b.rank then a.rank < b.rank
    else b.total.Some? && (a.total.None? || a.total.value < b.total.value)
  }

  /** The branching comparison is the key order, on every pair of records. */
  lemma ReplacesByKey(target: Usage, source: Usage)
    ensures ShouldReplace(target, source) <==> Below(KeyOf(target), KeyOf(source))
  {
    if !HasUsage(target) {
      assert KeyOf(target) == Key(false, 0, 0, None);
    }
    if !HasUsage(source) {
      assert KeyOf(source) == Key(false, 0, 0, None);
    }
    hide Rank;
  }

  /** Replacement is a strict weak order: transitive, and incomparable means equal keys. */
  lemma ReplacementIsWeakOrder(a: Usage, b: Usage, c: Usage)
    ensures ShouldReplace(a, b) && ShouldReplace(b, c) ==> ShouldReplace(a, c)
    ensures !ShouldReplace(a, b) && !ShouldReplace(b, a) <==> KeyOf(a) == KeyOf(b)
  {
    ReplacesByKey(a, b);
    ReplacesByKey(b, a);
    ReplacesByKey(b, c);
    ReplacesByKey(a, c);
    hide KeyOf, ShouldReplace;
  }

  predicate IsObserved(u: Usage) { u.state == Some("observed") }

  predicate IsSettled(u: Usage) { u.state in {Some("missing"), Some("parse_error"), Some("interrupted")} }

  predicate NoCounts(u: Usage) {
    u.input.None? && u.output.None? && u.cacheRead.None? && u.cacheCreation.None? && u.total.None?
  }

  /** The order of records: any usage beats none; then the newer revision, whatever else it says;
      then an observed state, then a missing, unparsable or interrupted one, then any other named
      state, then none. */
  lemma StateOrder(target: Usage, source: Usage)
    ensures NoCounts(source) && source.state.None? && source.revision.None? ==> !ShouldReplace(target, source)
    ensures NoCounts(target) && target.state.None? && target.revision.None? ==>
              (ShouldReplace(target, source) <==>
               !NoCounts(source) || source.state.Some? || source.revision.Some?)
    ensures target.revision.Some? && source.revision.Some? && target.revision.value < source.revision.value ==>
              ShouldReplace(target, source) && !ShouldReplace(source, target)
    ensures target.revision == source.revision ==>
              && (IsObserved(source) && !IsObserved(target) ==>
                    ShouldReplace(target, source) && !ShouldReplace(source, target))
              && (IsSettled(source) && !IsObserved(target) && !IsSettled(target) ==>
                    ShouldReplace(target, source) && !ShouldReplace(source, target))
              && (source.state.Some? && target.state.None? ==>
                    ShouldReplace(target, source) && !ShouldReplace(source, target))
  {
  }

  /** Between records of one revision and the same state the larger count wins: the stated total
      if there is one, and otherwise the sum of the four counts. A record without counts never
      replaces one that has them. */
  lemma CountOrder(target: Usage, source: Usage)
    requires target.revision == source.revision && target.state == source.state
    ensures target.total.Some? && source.total.Some? ==>
              (ShouldReplace(target, source) <==> target.total.value < source.total.value)
    ensures target.total.Some? && source.total.None? && !NoCounts(source) ==>
              (ShouldReplace(target, source) <==>
               target.total.value < OrZero(source.input) + OrZero(source.output)
                                    + OrZero(source.cacheRead) + OrZero(source.cacheCreation))
    ensures source.total.Some? && target.total.None? && !NoCounts(target) ==>
              (ShouldReplace(target, source) <==>
               OrZero(target.input) + OrZero(target.output)
               + OrZero(target.cacheRead) + OrZero(target.cacheCreation) < source.total.value)
    ensures NoCounts(source) ==> !ShouldReplace(target, source)
    ensures NoCounts(target) ==> (ShouldReplace(target, source) <==> !NoCounts(source))
  {
    hide Rank;
  }

  // ---------------------------------------------------------------- sticky fields

  datatype Field =
    | ShareId | ShareName | ShareSubdomain | Country | CountryIso3 | Email
    | Agent | RequestedModel | ActualModel | Model | Latency | Status

  datatype Value = Text(text: Option<string>) | Number(number: Option<nat>)

  function Get(e: Event, f: Field): Value {
    match f
    case ShareId => Text(Some(e.labels.shareId))
    case ShareName => Text(e.labels.shareName)
    case ShareSubdomain => Text(e.labels.shareSubdomain)
    case Country => Text(e.labels.country)
    case CountryIso3 => Text(e.labels.countryIso3)
    case Email => Text(e.labels.email)
    case Agent => Text(e.details.agent)
    case RequestedModel => Text(e.details.requestedModel)
    case ActualModel => Text(e.details.actualModel)
    case Model => Text(e.details.model)
    case Latency => Number(e.details.latency)
    case Status => Number(e.details.status)
  }

  predicate Blank(s: Option<string>) { s.None? || TextOrder.Trim(s.value) == "" }

  /** A text says nothing exactly when it is missing or has no character but blanks. */
  lemma BlankMeans(s: Option<string>)
    ensures Blank(s) <==> s.None? || forall i :: 0 <= i < |s.value| ==> TextOrder.IsSpace(s.value[i])
  {
    if s.Some? {
      var t := s.value;
      var i, k := TextOrder.TrimMeans(t);
      hide TextOrder.Trim, TextOrder.IsSpace;
      if Blank(s) {
        assert t[..i] + t[k..] == t;
        assert forall n :: 0 <= n < i ==> t[n] == t[..i][n];
        assert forall n :: k <= n < |t| ==> t[n] == t[k..][n - k];
      } else {
        assert TextOrder.Trim(t)[0] == t[i];
      }
    }
  }

  /** The values worth keeping over a later observation's silence. */
  predicate Informative(f: Field, v: Value) {
    match v
    case Number(n) => OrZero(n) != 0
    case Text(t) => if f.Agent? || f.RequestedModel? || f.ActualModel? || f.Model? then t.Some? else !Blank(t)
  }

  ghost predicate MergesInto(target: Event, source: Event, r: Event) {
    && r.requestId == source.requestId
    && r.usage == (if Below(KeyOf(target.usage), KeyOf(source.usage)) then source.usage else target.usage)
    && r.started == Min(target.started, source.started)
    && forall f :: Get(r, f) == if Informative(f, Get(source, f)) then Get(source, f) else Get(target, f)
  }

  method MergeLabels(target: Labels, source: Labels) returns (r: Labels)
    ensures r == Labels(if Blank(Some(source.shareId)) then target.shareId else source.shareId,
                        if Blank(source.shareName) then target.shareName else source.shareName,
                        if Blank(source.shareSubdomain) then target.shareSubdomain else source.shareSubdomain,
                        if Blank(source.country) then target.country else source.country,
                        if Blank(source.countryIso3) then target.countryIso3 else source.countryIso3,
                        if Blank(source.email) then target.email else source.email)
  {
    hide Blank;
    r := source;
    if Blank(Some(r.shareId)) { r := r.(shareId := target.shareId); }
    if Blank(r.shareName) { r := r.(shareName := target.shareName); }
    if Blank(r.shareSubdomain) { r := r.(shareSubdomain := target.shareSubdomain); }
    if Blank(r.country) { r := r.(country := target.country); }
    if Blank(r.countryIso3) { r := r.(countryIso3 := target.countryIso3); }
    if Blank(r.email) { r := r.(email := target.email); }
  }

  method MergeDetails(target: Details, source: Details) returns (r: Details)
    ensures r == Details(if source.agent.None? then target.agent else source.agent,
                         if source.requestedModel.None? then target.requestedModel else source.requestedModel,
                         if source.actualModel.None? then target.actualModel else source.actualModel,
                         if source.model.None? then target.model else source.model,
                         if OrZero(source.latency) == 0 then target.latency else source.latency,
                         if OrZero(source.status) == 0 then target.status else source.status)
  {
    r := source;
    if r.agent.None? { r := r.(agent := target.agent); }
    if r.requestedModel.None? { r := r.(requestedModel := target.requestedModel); }
    if r.actualModel.None? { r := r.(actualModel := target.actualModel); }
    if r.model.None? { r := r.(model := target.model); }
    if OrZero(r.latency) == 0 { r := r.(latency := target.latency); }
    if OrZero(r.status) == 0 { r := r.(status := target.status); }
  }

  /** `merge_persisted_ticker_event` */
  method Merge(target: Event, source: Event) returns (r: Event)
    ensures MergesInto(target, source, r)
  {
    ReplacesByKey(target.usage, source.usage);
    hide KeyOf, Below, Blank, ShouldReplace;
    var labels := MergeLabels(target.labels, source.labels);
    var usage := if ShouldReplace(target.usage, source.usage) then source.usage else target.usage;
    var details := MergeDetails(target.details, source.details);
    var started := if target.started < source.started then target.started else source.started;
    r := Event(source.requestId, labels, details, started, usage);
    assert forall f :: Get(r, f) == if Informative(f, Get(source, f)) then Get(source, f) else Get(target, f) by {
      forall f ensures Get(r, f) == if Informative(f, Get(source, f)) then Get(source, f) else Get(target, f) {
        match f
        case ShareId => case ShareName => case ShareSubdomain => case Country => case CountryIso3 => case Email =>
        case Agent => case RequestedModel => case ActualModel => case Model => case Latency => case Status =>
      }
    }
    hide Get, Informative;
  }

  // ---------------------------------------------------------------- folding

  /** `i` holds the first usage of maximal key. */
  ghost predicate FirstBest(es: seq<Event>, i: int) {
    && 0 <= i < |es|
    && (forall k :: 0 <= k < |es| ==> !Below(KeyOf(es[i].usage), KeyOf(es[k].usage)))
    && (forall k :: 0 <= k < i ==> Below(KeyOf(es[k].usage), KeyOf(es[i].usage)))
  }

  ghost predicate Earliest(es: seq<Event>, started: int) {
    (exists k :: 0 <= k < |es| && es[k].started == started) && forall k :: 0 <= k < |es| ==> started <= es[k].started
  }

  ghost predicate LastInformative(es: seq<Event>, f: Field, i: int) {
    && 0 <= i < |es| && Informative(f, Get(es[i], f))
    && forall k :: i < k < |es| ==> !Informative(f, Get(es[k], f))
  }

  /** The last informative value, or the first value if there is none. */
  ghost predicate Kept(es: seq<Event>, f: Field, v: Value) {
    || (exists i :: LastInformative(es, f, i) && v == Get(es[i], f))
    || (|es| > 0 && (forall k :: 0 <= k < |es| ==> !Informative(f, Get(es[k], f))) && v == Get(es[0], f))
  }

  /** `r` is what any number of observations `es` of one request amount to. */
  ghost predicate Summary(es: seq<Event>, r: Event) {
    && (exists i :: 0 <= i < |es| && FirstBest(es, i) && r.usage == es[i].usage)
    && Earliest(es, r.started)
    && forall f :: Kept(es, f, Get(r, f))
  }

  lemma BestStep(es: seq<Event>, i: int, s: Event)
    requires FirstBest(es, i)
    ensures FirstBest(es + [s], if Below(KeyOf(es[i].usage), KeyOf(s.usage)) then |es| else i)
  {
    hide KeyOf;
    var g := es + [s];
    assert g[|es|] == s && forall k :: 0 <= k < |es| ==> g[k] == es[k];
    if Below(KeyOf(es[i].usage), KeyOf(s.usage)) {
      forall k | 0 <= k < |es| ensures Below(KeyOf(g[k].usage), KeyOf(s.usage)) {
        assert !Below(KeyOf(es[i].usage), KeyOf(es[k].usage));
        NotBelowThenBelow(KeyOf(es[k].usage), KeyOf(es[i].usage), KeyOf(s.usage));
      }
      hide Below;
      assert !Below(KeyOf(s.usage), KeyOf(s.usage)) by { Irreflexive(KeyOf(s.usage)); }
      forall k | 0 <= k < |es| ensures !Below(KeyOf(s.usage), KeyOf(g[k].usage)) {
        Asymmetric(KeyOf(g[k].usage), KeyOf(s.usage));
      }
    }
  }

  lemma Irreflexive(a: Key)
    ensures !Below(a, a)
  {
  }

  lemma Asymmetric(a: Key, b: Key)
    requires Below(a, b)
    ensures !Below(b, a)
  {
  }

  lemma NotBelowThenBelow(a: Key, b: Key, c: Key)
    requires !Below(b, a) && Below(b, c)
    ensures Below(a, c)
  {
  }

  lemma KeptStep(es: seq<Event>, f: Field, v: Value, s: Event)
    requires Kept(es, f, v)
    ensures Kept(es + [s], f, if Informative(f, Get(s, f)) then Get(s, f) else v)
  {
    hide Informative, Get;
    var g := es + [s];
    assert g[|es|] == s && forall k :: 0 <= k < |es| ==> g[k] == es[k];
    if Informative(f, Get(s, f)) {
      assert LastInformative(g, f, |es|);
    } else if exists i :: LastInformative(es, f, i) && v == Get(es[i], f) {
      var i :| LastInformative(es, f, i) && v == Get(es[i], f);
      assert LastInformative(g, f, i) && g[i] == es[i];
    } else {
      assert g[0] == es[0];
    }
  }

  /** Merging one more observation keeps the summary. */
  lemma SummaryStep(es: seq<Event>, t: Event, s: Event, r: Event)
    requires Summary(es, t) && MergesInto(t, s, r)
    ensures Summary(es + [s], r)
  {
    hide Informative, Get, KeyOf, Below, Kept;
    var g := es + [s];
    assert g[|es|] == s && forall k :: 0 <= k < |es| ==> g[k] == es[k];
    var i :| 0 <= i < |es| && FirstBest(es, i) && t.usage == es[i].usage;
    hide FirstBest;
    BestStep(es, i, s);
    assert FirstBest(g, if Below(KeyOf(t.usage), KeyOf(s.usage)) then |es| else i);
    forall f ensures Kept(g, f, Get(r, f)) {
      KeptStep(es, f, Get(t, f), s);
    }
    assert Earliest(g, r.started) by {
      if r.started == s.started {
        assert g[|es|].started == r.started;
      } else {
        var k :| 0 <= k < |es| && es[k].started == t.started;
        assert g[k].started == r.started;
      }
    }
  }

  lemma SummaryOfOne(e: Event)
    ensures Summary([e], e)
  {
    hide Informative, Get, KeyOf;
    assert FirstBest([e], 0) by { Irreflexive(KeyOf(e.usage)); }
    assert [e][0].started == e.started;
    forall f ensures Kept([e], f, Get(e, f)) {
      if Informative(f, Get(e, f)) { assert LastInformative([e], f, 0); }
    }
  }

  function Observations(events: seq<Event>, id: string): seq<Event> {
    if |events| == 0 then []
    else
      var rest := Observations(events[..|events| - 1], id);
      var e := events[|events| - 1];
      if e.requestId == id then rest + [e] else rest
  }

  /** The first loop of the ticker: every request identifier ends with the summary of all of
      its observations, and no other identifier appears. */
  method Collect(events: seq<Event>) returns (byId: map<string, Event>)
    ensures forall id :: id in byId <==> |Observations(events, id)| > 0
    ensures forall id :: id in byId ==> Summary(Observations(events, id), byId[id])
  {
    hide Summary, MergesInto;
    byId := map[];
    for n := 0 to |events|
      invariant forall id :: id in byId <==> |Observations(events[..n], id)| > 0
      invariant forall id :: id in byId ==> Summary(Observations(events[..n], id), byId[id])
    {
      var e := events[n];
      assert events[..n + 1][..n] == events[..n] && events[..n + 1][n] == e;
      if e.requestId in byId {
        var merged := Merge(byId[e.requestId], e);
        SummaryStep(Observations(events[..n], e.requestId), byId[e.requestId], e, merged);
        byId := byId[e.requestId := merged];
      } else {
        SummaryOfOne(e);
        assert Observations(events[..n + 1], e.requestId) == [e];
        byId := byId[e.requestId := e];
      }
    }
    assert events[..|events|] == events;
  }

  lemma Elsewhere(es: seq<Event>, fs: seq<Event>, i: nat) returns (x: nat)
    requires multiset(es) == multiset(fs) && i < |es|
    ensures x < |fs| && fs[x] == es[i]
  {
    assert es[i] in multiset(es);
    assert es[i] in fs;
    x :| x < |fs| && fs[x] == es[i];
  }

  lemma BestKeyIsOne(es: seq<Event>, fs: seq<Event>, i: int, j: int)
    requires multiset(es) == multiset(fs) && FirstBest(es, i) && FirstBest(fs, j)
    ensures KeyOf(es[i].usage) == KeyOf(fs[j].usage)
  {
    hide KeyOf, Below;
    var x := Elsewhere(es, fs, i);
    var y := Elsewhere(fs, es, j);
    assert !Below(KeyOf(es[i].usage), KeyOf(es[y].usage)) && !Below(KeyOf(fs[j].usage), KeyOf(fs[x].usage));
    hide FirstBest;
    Incomparable(KeyOf(es[i].usage), KeyOf(fs[j].usage));
  }

  lemma Incomparable(a: Key, b: Key)
    requires !Below(a, b) && !Below(b, a)
    ensures a == b
  {
  }

  /** The order of the observations does not matter: the kept usage has the same key and the
      start time is the same. */
  lemma OrderDoesNotMatter(es: seq<Event>, fs: seq<Event>, a: Event, b: Event)
    requires multiset(es) == multiset(fs) && Summary(es, a) && Summary(fs, b)
    ensures KeyOf(a.usage) == KeyOf(b.usage) && a.started == b.started
  {
    hide KeyOf, Kept, Below;
    var i :| 0 <= i < |es| && FirstBest(es, i) && a.usage == es[i].usage;
    var j :| 0 <= j < |fs| && FirstBest(fs, j) && b.usage == fs[j].usage;
    hide FirstBest;
    BestKeyIsOne(es, fs, i, j);
    var p :| 0 <= p < |es| && es[p].started == a.started;
    var q :| 0 <= q < |fs| && fs[q].started == b.started;
    var u := Elsewhere(es, fs, p);
    var w := Elsewhere(fs, es, q);
  }
}
