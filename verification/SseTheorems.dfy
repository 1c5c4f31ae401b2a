/** What the verdict on a Responses stream depends on, and what it does not. */
module SseTheorems {
  import opened Base
  import opened SseLexer
  import opened SseEvents
  import TextOrder

  // ---------------------------------------------------------------- bytes

  lemma {:induction false} SkipMeansEmpty(s: seq<byte>, cap: nat)
    ensures var x := Feed(START, s, cap); x.skipLf ==> x.line == [] && !x.truncated
    decreases |s|
  {
    if |s| > 0 { SkipMeansEmpty(s[..|s| - 1], cap); }
  }

  /** Line ends do not change the verdict, with any unterminated rest, as long as the lines
      read back as written. */
  lemma LineEndsKeepVerdict(d: Decoders, ls: seq<seq<byte>>, es: seq<Ending>, fs: seq<Ending>, tail: seq<byte>)
    requires |ls| == |es| == |fs| && AllPlain(ls) && Plain(tail)
    requires Unambiguous(ls, es) && Unambiguous(ls, fs)
    ensures Judged(d, Render(ls, es) + tail) == Judged(d, Render(ls, fs) + tail)
  {
    FeedRendered(ls, es, tail);
    FeedRendered(ls, fs, tail);
    hide Consume, Apply, Dispatched, Clip;
  }

  lemma FeedRendered(ls: seq<seq<byte>>, es: seq<Ending>, tail: seq<byte>)
    requires |ls| == |es| && AllPlain(ls) && Plain(tail) && Unambiguous(ls, es)
    ensures var x := Feed(START, Render(ls, es) + tail, PARSE_CAP);
            var c := Clip(tail, PARSE_CAP);
            x.line == c.bytes && x.truncated == c.truncated && x.out == ClipAll(ls, PARSE_CAP)
  {
    ChunksDoNotMatter(START, Render(ls, es), tail, PARSE_CAP);
    LexRendered(ls, es, PARSE_CAP);
    SurvivingLength(ls, es, PARSE_CAP);
    FeedPlain(Feed(START, Render(ls, es), PARSE_CAP), tail, PARSE_CAP);
  }

  const BLANK: Line := Line([], false)

  lemma NothingIsNeutral(d: Decoders, v: Verdict)
    ensures Apply(v, Dispatched(d, NOTHING)) == v
  {
    assert TrimFront([]) == [] && TrimBack([]) == [];
  }

  /** A blank line dispatches; on nothing pending it does nothing. */
  lemma TakeBlank(d: Decoders, ls: seq<Line>)
    ensures var r := Consume(d, NOTHING, OPEN, ls);
            Consume(d, NOTHING, OPEN, ls + [BLANK]) == (NOTHING, Apply(r.1, Dispatched(d, r.0)))
  {
    assert (ls + [BLANK])[..|ls|] == ls;
    hide Apply, Dispatched;
  }

  lemma BlankEnds(d: Decoders, ls: seq<Line>)
    ensures var r := Consume(d, NOTHING, OPEN, ls);
            var q := Consume(d, NOTHING, OPEN, ls + [BLANK]);
            Apply(q.1, Dispatched(d, q.0)) == Apply(r.1, Dispatched(d, r.0))
  {
    TakeBlank(d, ls);
    hide Consume, Apply, Dispatched;
    var r := Consume(d, NOTHING, OPEN, ls);
    NothingIsNeutral(d, Apply(r.1, Dispatched(d, r.0)));
  }

  /** A stream that stops inside a line or an event is judged as if it had been ended
      properly. */
  lemma FinalEventIsDispatched(d: Decoders, s: seq<byte>)
    ensures Judged(d, s) == Judged(d, s + [NEWLINE, NEWLINE])
  {
    var x := Feed(START, s, PARSE_CAP);
    var y := Feed(START, s + [NEWLINE, NEWLINE], PARSE_CAP);
    TwoNewlines(s);
    hide Consume, Apply, Dispatched, Feed;
    BlankEnds(d, Closed(x));
    BlankEnds(d, Closed(x) + [BLANK]);
  }

  lemma TwoNewlines(s: seq<byte>)
    ensures var x := Feed(START, s, PARSE_CAP);
            var y := Feed(START, s + [NEWLINE, NEWLINE], PARSE_CAP);
            Closed(y) == Closed(x) + [BLANK] || Closed(y) == Closed(x) + [BLANK] + [BLANK]
  {
    var x := Feed(START, s, PARSE_CAP);
    SkipMeansEmpty(s, PARSE_CAP);
    assert s + [NEWLINE, NEWLINE] == s + [NEWLINE] + [NEWLINE];
    ChunksDoNotMatter(START, s + [NEWLINE], [NEWLINE], PARSE_CAP);
    ChunksDoNotMatter(START, s, [NEWLINE], PARSE_CAP);
    FeedOne(x, NEWLINE, PARSE_CAP);
    FeedOne(Step(x, NEWLINE, PARSE_CAP), NEWLINE, PARSE_CAP);
    hide Feed;
  }

  // ---------------------------------------------------------------- events

  /** The lines of an event, all of them non-blank. */
  predicate IsEvent(b: seq<Line>) { forall i :: 0 <= i < |b| ==> |b[i].bytes| > 0 }

  predicate AreEvents(bs: seq<seq<Line>>) { forall i :: 0 <= i < |bs| ==> IsEvent(bs[i]) }

  /** Events one after the other, each ended by a blank line. */
  function Stream(bs: seq<seq<Line>>): seq<Line> {
    if |bs| == 0 then [] else Stream(bs[..|bs| - 1]) + bs[|bs| - 1] + [BLANK]
  }

  function GatherAll(d: Decoders, b: seq<Line>): (Pending, bool)
    decreases |b|
  {
    if |b| == 0 then (NOTHING, false)
    else
      var r := GatherAll(d, b[..|b| - 1]);
      var l := b[|b| - 1];
      var g := Gather(d, r.0, l.bytes);
      (g.0, r.1 || l.truncated || g.1)
  }

  function EventEffect(d: Decoders, b: seq<Line>): Effect {
    var g := GatherAll(d, b);
    var e := Dispatched(d, g.0);
    e.(error := e.error || g.1)
  }

  function Effects(d: Decoders, bs: seq<seq<Line>>): seq<Effect> {
    seq(|bs|, i requires 0 <= i < |bs| => EventEffect(d, bs[i]))
  }

  function ApplyAll(v: Verdict, es: seq<Effect>): Verdict
    decreases |es|
  {
    if |es| == 0 then v else Apply(ApplyAll(v, es[..|es| - 1]), es[|es| - 1])
  }

  lemma {:induction false} ConsumeConcat(d: Decoders, p: Pending, v: Verdict, a: seq<Line>, b: seq<Line>)
    ensures var r := Consume(d, p, v, a);
            Consume(d, p, v, a + b) == Consume(d, r.0, r.1, b)
    decreases |b|
  {
    hide TakeLine;
    if |b| == 0 {
      assert a + b == a;
    } else {
      assert (a + b)[..|a + b| - 1] == a + b[..|b| - 1];
      ConsumeConcat(d, p, v, a, b[..|b| - 1]);
    }
  }

  lemma {:induction false} ConsumeEvent(d: Decoders, v: Verdict, b: seq<Line>)
    requires IsEvent(b)
    ensures var g := GatherAll(d, b);
            Consume(d, NOTHING, v, b) == (g.0, v.(error := v.error || g.1))
    decreases |b|
  {
    if |b| > 0 {
      ConsumeEvent(d, v, b[..|b| - 1]);
      hide Gather, Apply, Dispatched;
    }
  }

  /** An event ended by a blank line adds its own effect and leaves nothing pending. */
  lemma ConsumeEnded(d: Decoders, v: Verdict, b: seq<Line>)
    requires IsEvent(b)
    ensures Consume(d, NOTHING, v, b + [BLANK]) == (NOTHING, Apply(v, EventEffect(d, b)))
  {
    ConsumeEvent(d, v, b);
    assert (b + [BLANK])[..|b|] == b;
    hide Dispatched, GatherAll;
  }

  /** The verdict on complete events is the accumulated effect of each event by itself. */
  lemma {:induction false} StreamIsEffects(d: Decoders, bs: seq<seq<Line>>)
    requires AreEvents(bs)
    ensures Consume(d, NOTHING, OPEN, Stream(bs)) == (NOTHING, ApplyAll(OPEN, Effects(d, bs)))
    decreases |bs|
  {
    var n := |bs| - 1;
    if |bs| > 0 {
      StreamIsEffects(d, bs[..n]);
      assert Effects(d, bs)[..n] == Effects(d, bs[..n]);
      assert Stream(bs) == Stream(bs[..n]) + (bs[n] + [BLANK]);
      ConsumeConcat(d, NOTHING, OPEN, Stream(bs[..n]), bs[n] + [BLANK]);
      ConsumeEnded(d, ApplyAll(OPEN, Effects(d, bs[..n])), bs[n]);
      hide Apply, EventEffect, TakeLine;
    }
  }

  // ---------------------------------------------------------------- acceptance

  function FirstSuccess(es: seq<Effect>): Option<string>
    decreases |es|
  {
    if |es| == 0 then None
    else
      var f := FirstSuccess(es[..|es| - 1]);
      if f.Some? then f else NameOf(es[|es| - 1].success)
  }

  predicate Clean(es: seq<Effect>) { forall e :: e in es ==> !e.error && e.failure.None? }

  /** Every checked success agrees with the first success of any sort. */
  predicate Agreed(es: seq<Effect>) {
    forall e :: e in es && e.success.Recorded? ==> FirstSuccess(es) == Some(e.success.kind)
  }

  lemma LastSplit(es: seq<Effect>, e: Effect)
    requires |es| > 0
    ensures e in es <==> e in es[..|es| - 1] || e == es[|es| - 1]
  {
    assert es == es[..|es| - 1] + [es[|es| - 1]];
  }

  lemma {:induction false} FirstIsNoneIff(es: seq<Effect>)
    ensures FirstSuccess(es).None? <==> forall e :: e in es ==> e.success.Silent?
    ensures FirstSuccess(es).Some? ==> exists e :: e in es && NameOf(e.success) == FirstSuccess(es)
    decreases |es|
  {
    if |es| > 0 {
      FirstIsNoneIff(es[..|es| - 1]);
      forall e ensures e in es <==> e in es[..|es| - 1] || e == es[|es| - 1] { LastSplit(es, e); }
    }
  }

  /** Acceptance, in terms of the events alone. */
  lemma {:induction false} AcceptedIff(es: seq<Effect>)
    ensures var v := ApplyAll(OPEN, es);
            && v.success == FirstSuccess(es)
            && (v.failure.None? && !v.error <==> Clean(es) && Agreed(es))
    decreases |es|
  {
    if |es| > 0 {
      var n := |es| - 1;
      AcceptedIff(es[..n]);
      FirstIsNoneIff(es[..n]);
      forall e ensures e in es <==> e in es[..n] || e == es[n] { LastSplit(es, e); }
    }
  }

  // ---------------------------------------------------------------- order

  predicate WellKinded(es: seq<Effect>) {
    forall e :: e in es && e.success.Recorded? ==> e.success.kind == COMPLETED || e.success.kind == INCOMPLETE
  }

  /** The one mixture whose verdict depends on order: capped completions, which are checked,
      beside completions with a padded type, which are only noticed. */
  ghost predicate OrderSensitive(es: seq<Effect>) {
    && Clean(es)
    && (exists e :: e in es && e.success == Recorded(INCOMPLETE))
    && (exists e :: e in es && e.success == Noticed)
    && (forall e :: e in es && e.success.Recorded? ==> e.success.kind == INCOMPLETE)
  }

  ghost predicate SameEffects(es: seq<Effect>, fs: seq<Effect>) { forall e :: e in es <==> e in fs }

  predicate Accepts(es: seq<Effect>) { Accepted(ApplyAll(OPEN, es)) }

  /** Any order and any repetition of the same events is judged alike, outside the mixture. */
  lemma OrderDoesNotMatter(es: seq<Effect>, fs: seq<Effect>)
    requires SameEffects(es, fs) && WellKinded(es) && !OrderSensitive(es)
    ensures Accepts(es) ==> Accepts(fs)
  {
    AcceptedIff(es);
    AcceptedIff(fs);
    FirstIsNoneIff(es);
    FirstIsNoneIff(fs);
    hide FirstSuccess, ApplyAll;
    if Accepts(es) {
      var e :| e in es && NameOf(e.success) == FirstSuccess(es);
      assert !e.success.Silent? && e in fs;
      var f :| f in fs && NameOf(f.success) == FirstSuccess(fs);
      forall g | g in fs && g.success.Recorded? ensures FirstSuccess(fs) == Some(g.success.kind) {
        assert g in es && f in es;
        assert FirstSuccess(es) == Some(g.success.kind);
        if f.success.Noticed? && g.success.kind == INCOMPLETE {
          assert g.success == Recorded(INCOMPLETE);
        }
      }
    }
  }

  function MoveFront<T>(s: seq<T>, i: nat): seq<T>
    requires i < |s|
  {
    [s[i]] + s[..i] + s[i + 1..]
  }

  lemma MoveFrontKeeps<T>(s: seq<T>, i: nat)
    requires i < |s|
    ensures multiset(MoveFront(s, i)) == multiset(s)
  {
    assert s == s[..i] + [s[i]] + s[i + 1..];
  }

  lemma {:induction false} FirstInFront(x: Effect, es: seq<Effect>)
    requires !x.success.Silent?
    ensures FirstSuccess([x] + es) == NameOf(x.success)
    decreases |es|
  {
    if |es| == 0 {
      assert [x] + es == [x];
      assert FirstSuccess([x][..0]) == None;
    } else {
      FirstInFront(x, es[..|es| - 1]);
      assert ([x] + es)[..|es|] == [x] + es[..|es| - 1];
    }
  }

  lemma MovedMembers(es: seq<Effect>, i: nat)
    requires i < |es|
    ensures SameEffects(es, MoveFront(es, i))
    ensures !es[i].success.Silent? ==> FirstSuccess(MoveFront(es, i)) == NameOf(es[i].success)
  {
    assert es == es[..i] + [es[i]] + es[i + 1..];
    assert MoveFront(es, i) == [es[i]] + (es[..i] + es[i + 1..]);
    if !es[i].success.Silent? { FirstInFront(es[i], es[..i] + es[i + 1..]); }
    hide FirstSuccess;
  }

  lemma CappedFirstAccepted(es: seq<Effect>, i: nat)
    requires OrderSensitive(es) && i < |es| && es[i].success == Recorded(INCOMPLETE)
    ensures Accepts(MoveFront(es, i))
  {
    MovedMembers(es, i);
    AcceptedIff(MoveFront(es, i));
    hide FirstSuccess, ApplyAll, MoveFront;
  }

  lemma PaddedFirstRejected(es: seq<Effect>, k: nat)
    requires OrderSensitive(es) && k < |es| && es[k].success == Noticed
    ensures !Accepts(MoveFront(es, k))
  {
    MovedMembers(es, k);
    AcceptedIff(MoveFront(es, k));
    hide FirstSuccess, ApplyAll, MoveFront;
    var e :| e in es && e.success == Recorded(INCOMPLETE);
    assert e in MoveFront(es, k);
  }

  /** In the mixture, an order that starts with a capped completion is accepted and one that
      starts with a padded completion is not. */
  lemma MixtureGoesBothWays(es: seq<Effect>) returns (i: nat, k: nat)
    requires OrderSensitive(es)
    ensures i < |es| && k < |es| && Accepts(MoveFront(es, i)) && !Accepts(MoveFront(es, k))
  {
    var e :| e in es && e.success == Recorded(INCOMPLETE);
    var f :| f in es && f.success == Noticed;
    i :| i < |es| && es[i] == e;
    k :| k < |es| && es[k] == f;
    CappedFirstAccepted(es, i);
    PaddedFirstRejected(es, k);
  }

  lemma KindsAreTwo(d: Decoders, bs: seq<seq<Line>>)
    ensures WellKinded(Effects(d, bs))
  {
    forall i | 0 <= i < |bs| && Effects(d, bs)[i].success.Recorded?
      ensures Effects(d, bs)[i].success.kind == COMPLETED || Effects(d, bs)[i].success.kind == INCOMPLETE
    {
      hide GatherAll, TrimBack, TrimFront, TextOrder.Trim, IsFailure;
      assert Effects(d, bs)[i] == EventEffect(d, bs[i]);
    }
  }

  predicate Reordering(bs: seq<seq<Line>>, cs: seq<seq<Line>>) { multiset(bs) == multiset(cs) }

  /** The stream of these events, as the tracker judges it. */
  predicate StreamAccepted(d: Decoders, bs: seq<seq<Line>>) { Accepted(Consume(d, NOTHING, OPEN, Stream(bs)).1) }

  lemma ReorderedBlocks(bs: seq<seq<Line>>, cs: seq<seq<Line>>)
    requires Reordering(bs, cs)
    ensures (forall b :: b in bs <==> b in cs) && (AreEvents(bs) <==> AreEvents(cs))
  {
    hide IsEvent;
    assert forall b :: b in bs <==> b in multiset(bs);
    assert forall b :: b in cs <==> b in multiset(cs);
    assert forall i :: 0 <= i < |bs| ==> bs[i] in cs;
    assert forall i :: 0 <= i < |cs| ==> cs[i] in bs;
  }

  lemma MixtureKept(es: seq<Effect>, fs: seq<Effect>)
    requires SameEffects(es, fs)
    ensures OrderSensitive(es) <==> OrderSensitive(fs)
    ensures WellKinded(es) <==> WellKinded(fs)
  {
  }

  lemma SameBlocksSameEffects(d: Decoders, bs: seq<seq<Line>>, cs: seq<seq<Line>>)
    requires forall b :: b in bs <==> b in cs
    ensures SameEffects(Effects(d, bs), Effects(d, cs))
  {
    hide EventEffect;
    forall i | 0 <= i < |bs| ensures Effects(d, bs)[i] in Effects(d, cs) {
      assert bs[i] in cs;
      var k :| 0 <= k < |cs| && cs[k] == bs[i];
      assert Effects(d, cs)[k] == Effects(d, bs)[i];
    }
    forall i | 0 <= i < |cs| ensures Effects(d, cs)[i] in Effects(d, bs) {
      assert cs[i] in bs;
      var k :| 0 <= k < |bs| && bs[k] == cs[i];
      assert Effects(d, bs)[k] == Effects(d, cs)[i];
    }
  }

  lemma SameBlocksAlike(d: Decoders, bs: seq<seq<Line>>, cs: seq<seq<Line>>)
    requires AreEvents(bs) && AreEvents(cs) && !OrderSensitive(Effects(d, bs))
    requires forall b :: b in bs <==> b in cs
    ensures StreamAccepted(d, bs) == StreamAccepted(d, cs)
  {
    SameBlocksSameEffects(d, bs, cs);
    var es, fs := Effects(d, bs), Effects(d, cs);
    KindsAreTwo(d, bs);
    MixtureKept(es, fs);
    StreamIsEffects(d, bs);
    StreamIsEffects(d, cs);
    OrderDoesNotMatter(es, fs);
    OrderDoesNotMatter(fs, es);
    hide Effects, OrderSensitive, SameEffects, WellKinded, Consume, Stream;
  }

  lemma MovedEffects(d: Decoders, bs: seq<seq<Line>>, i: nat)
    requires i < |bs|
    ensures Effects(d, MoveFront(bs, i)) == MoveFront(Effects(d, bs), i)
  {
    hide EventEffect;
  }

  /** Every order of a set of complete events gets the same verdict exactly when the events
      are not the mixture. */
  lemma ReorderingIff(d: Decoders, bs: seq<seq<Line>>)
    requires AreEvents(bs)
    ensures (forall cs :: Reordering(bs, cs) ==> StreamAccepted(d, cs) == StreamAccepted(d, bs)) <==>
            !OrderSensitive(Effects(d, bs))
  {
    if OrderSensitive(Effects(d, bs)) {
      var i, k := MixtureGoesBothWays(Effects(d, bs));
      MovedAccepted(d, bs, i);
      MovedAccepted(d, bs, k);
    } else {
      hide StreamAccepted;
      forall cs | Reordering(bs, cs) ensures StreamAccepted(d, cs) == StreamAccepted(d, bs) {
        ReorderedBlocks(bs, cs);
        SameBlocksAlike(d, bs, cs);
      }
    }
  }

  lemma MovedAccepted(d: Decoders, bs: seq<seq<Line>>, i: nat)
    requires AreEvents(bs) && i < |bs|
    ensures Reordering(bs, MoveFront(bs, i))
    ensures StreamAccepted(d, MoveFront(bs, i)) <==> Accepts(MoveFront(Effects(d, bs), i))
  {
    MoveFrontKeeps(bs, i);
    ReorderedBlocks(bs, MoveFront(bs, i));
    StreamIsEffects(d, MoveFront(bs, i));
    MovedEffects(d, bs, i);
    hide Effects, MoveFront, Consume, Stream, ApplyAll;
  }

  /** Outside the mixture: accepted exactly when there is no protocol error and no failure,
      some success, and all successes are of one kind. */
  lemma AcceptanceRule(d: Decoders, bs: seq<seq<Line>>)
    requires AreEvents(bs) && !OrderSensitive(Effects(d, bs))
    ensures var es := Effects(d, bs);
            StreamAccepted(d, bs) <==>
              && Clean(es)
              && (exists e :: e in es && !e.success.Silent?)
              && (forall e, f :: e in es && f in es && !e.success.Silent? && !f.success.Silent? ==>
                    NameOf(e.success) == NameOf(f.success))
  {
    var es := Effects(d, bs);
    StreamIsEffects(d, bs);
    KindsAreTwo(d, bs);
    AcceptedIff(es);
    FirstIsNoneIff(es);
    hide Effects, Consume, Stream, ApplyAll, FirstSuccess;
  }

  // ---------------------------------------------------------------- from events to bytes

  /** An event as written: non-empty lines without line ends in them. */
  predicate IsWritten(e: seq<seq<byte>>) { forall i :: 0 <= i < |e| ==> |e[i]| > 0 && Plain(e[i]) }

  predicate AreWritten(es: seq<seq<seq<byte>>>) { forall i :: 0 <= i < |es| ==> IsWritten(es[i]) }

  /** The lines of a stream of events, each event ended by an empty line. */
  function Written(es: seq<seq<seq<byte>>>): seq<seq<byte>> {
    if |es| == 0 then [] else Written(es[..|es| - 1]) + es[|es| - 1] + [[]]
  }

  /** The events as the tracker sees them, clipped to the line bound. */
  function ClipEvents(es: seq<seq<seq<byte>>>): seq<seq<Line>> {
    seq(|es|, i requires 0 <= i < |es| => ClipAll(es[i], PARSE_CAP))
  }

  lemma {:induction false} ClipConcat(a: seq<seq<byte>>, b: seq<seq<byte>>, cap: nat)
    ensures ClipAll(a + b, cap) == ClipAll(a, cap) + ClipAll(b, cap)
    decreases |b|
  {
    if |b| == 0 {
      assert a + b == a;
    } else {
      assert (a + b)[..|a + b| - 1] == a + b[..|b| - 1];
      ClipConcat(a, b[..|b| - 1], cap);
    }
  }

  lemma {:induction false} ClippedEvent(e: seq<seq<byte>>)
    requires IsWritten(e)
    ensures IsEvent(ClipAll(e, PARSE_CAP))
    decreases |e|
  {
    if |e| > 0 { ClippedEvent(e[..|e| - 1]); }
  }

  lemma {:induction false} WrittenIsPlain(es: seq<seq<seq<byte>>>)
    requires AreWritten(es)
    ensures AllPlain(Written(es))
    decreases |es|
  {
    if |es| > 0 {
      WrittenIsPlain(es[..|es| - 1]);
      assert IsWritten(es[|es| - 1]);
      hide AreWritten, Plain;
      assert Plain([]) by { EmptyIsPlain(); }
    }
  }

  lemma EmptyIsPlain()
    ensures Plain([])
  {
  }

  lemma ClippedAreEvents(es: seq<seq<seq<byte>>>)
    requires AreWritten(es)
    ensures AreEvents(ClipEvents(es))
  {
    hide IsEvent, IsWritten, ClipAll;
    forall i | 0 <= i < |es| ensures IsEvent(ClipEvents(es)[i]) { ClippedEvent(es[i]); }
  }

  lemma ClipBlank()
    ensures ClipAll([[]], PARSE_CAP) == [BLANK]
  {
    var blank: seq<seq<byte>> := [[]];
    assert blank[..0] == [] && ClipAll(blank[..0], PARSE_CAP) == [];
  }

  /** The clipped lines of the last event, then a blank line. */
  lemma ClipLast(es: seq<seq<seq<byte>>>)
    requires |es| > 0
    ensures var n := |es| - 1;
            ClipAll(Written(es), PARSE_CAP) ==
            ClipAll(Written(es[..n]), PARSE_CAP) + ClipAll(es[n], PARSE_CAP) + [BLANK]
  {
    var n := |es| - 1;
    var before, blank: seq<seq<byte>> := Written(es[..n]), [[]];
    assert Written(es) == before + es[n] + blank;
    ClipConcat(before + es[n], blank, PARSE_CAP);
    ClipConcat(before, es[n], PARSE_CAP);
    ClipBlank();
  }

  lemma {:induction false} WrittenIsStream(es: seq<seq<seq<byte>>>)
    ensures ClipAll(Written(es), PARSE_CAP) == Stream(ClipEvents(es))
    decreases |es|
  {
    if |es| > 0 {
      var n := |es| - 1;
      WrittenIsStream(es[..n]);
      ClipLast(es);
      StreamLast(ClipEvents(es));
      assert ClipEvents(es)[..n] == ClipEvents(es[..n]);
      assert ClipEvents(es)[n] == ClipAll(es[n], PARSE_CAP);
    }
  }

  lemma StreamLast(bs: seq<seq<Line>>)
    requires |bs| > 0
    ensures Stream(bs) == Stream(bs[..|bs| - 1]) + bs[|bs| - 1] + [BLANK]
  {
  }

  /** The bytes of complete events are judged as their stream of lines is, whatever the line
      ends. */
  lemma JudgedIsStream(d: Decoders, es: seq<seq<seq<byte>>>, ends: seq<Ending>)
    requires AreWritten(es) && |ends| == |Written(es)| && Unambiguous(Written(es), ends)
    ensures Accepted(Judged(d, Render(Written(es), ends))) <==> StreamAccepted(d, ClipEvents(es))
  {
    var ls := Written(es);
    var empty: seq<byte> := [];
    WrittenIsStream(es);
    WrittenIsPlain(es);
    ClippedAreEvents(es);
    FeedRendered(ls, ends, empty);
    assert Render(ls, ends) + empty == Render(ls, ends);
    var x := Feed(START, Render(ls, ends), PARSE_CAP);
    assert Closed(x) == Stream(ClipEvents(es));
    StreamIsEffects(d, ClipEvents(es));
    hide Consume, Stream, ClipEvents, Feed, Render, Written;
    NothingIsNeutral(d, Consume(d, NOTHING, OPEN, Closed(x)).1);
    hide Apply, Dispatched, Effects, ApplyAll;
  }

  /** The tracker fed chunk by chunk. */
  function FeedChunks(x: Lexer, chunks: seq<seq<byte>>): Lexer
    decreases |chunks|
  {
    if |chunks| == 0 then x else Feed(FeedChunks(x, chunks[..|chunks| - 1]), chunks[|chunks| - 1], PARSE_CAP)
  }

  function Join(chunks: seq<seq<byte>>): seq<byte> {
    if |chunks| == 0 then [] else Join(chunks[..|chunks| - 1]) + chunks[|chunks| - 1]
  }

  lemma {:induction false} ChunksAreJoined(x: Lexer, chunks: seq<seq<byte>>)
    ensures FeedChunks(x, chunks) == Feed(x, Join(chunks), PARSE_CAP)
    decreases |chunks|
  {
    if |chunks| > 0 {
      var n := |chunks| - 1;
      ChunksAreJoined(x, chunks[..n]);
      ChunksDoNotMatter(x, Join(chunks[..n]), chunks[n], PARSE_CAP);
    }
  }

  lemma ClippedReordering(es: seq<seq<seq<byte>>>, fs: seq<seq<seq<byte>>>)
    requires multiset(es) == multiset(fs)
    ensures forall b :: b in ClipEvents(es) <==> b in ClipEvents(fs)
    ensures AreWritten(es) <==> AreWritten(fs)
  {
    hide ClipAll, IsWritten;
    assert forall e :: e in es <==> e in multiset(es);
    assert forall e :: e in fs <==> e in multiset(fs);
    forall i | 0 <= i < |es| ensures ClipEvents(es)[i] in ClipEvents(fs) && es[i] in fs {
      assert es[i] in fs;
      var k :| 0 <= k < |fs| && fs[k] == es[i];
      assert ClipEvents(fs)[k] == ClipEvents(es)[i];
    }
    forall i | 0 <= i < |fs| ensures ClipEvents(fs)[i] in ClipEvents(es) && fs[i] in es {
      assert fs[i] in es;
      var k :| 0 <= k < |es| && es[k] == fs[i];
      assert ClipEvents(es)[k] == ClipEvents(fs)[i];
    }
  }

  /** Bytes in, verdict out: two streams of the same events, in different orders, with
      different line ends and cut into different chunks, are both accepted or both refused,
      unless the events are the mixture. */
  lemma BytesOfSameEvents(d: Decoders, es: seq<seq<seq<byte>>>, fs: seq<seq<seq<byte>>>,
                          esEnds: seq<Ending>, fsEnds: seq<Ending>, esChunks: seq<seq<byte>>, fsChunks: seq<seq<byte>>)
    requires AreWritten(es) && multiset(es) == multiset(fs) && !OrderSensitive(Effects(d, ClipEvents(es)))
    requires |esEnds| == |Written(es)| && Unambiguous(Written(es), esEnds)
        && Join(esChunks) == Render(Written(es), esEnds)
    requires |fsEnds| == |Written(fs)| && Unambiguous(Written(fs), fsEnds)
        && Join(fsChunks) == Render(Written(fs), fsEnds)
    ensures Accepted(Final(d, FeedChunks(START, esChunks))) == Accepted(Final(d, FeedChunks(START, fsChunks)))
  {
    ClippedReordering(es, fs);
    JudgedIsStream(d, es, esEnds);
    JudgedIsStream(d, fs, fsEnds);
    ChunksAreJoined(START, esChunks);
    ChunksAreJoined(START, fsChunks);
    ClippedAreEvents(es);
    ClippedAreEvents(fs);
    hide Final, StreamAccepted, OrderSensitive, AreWritten, AreEvents, Unambiguous;
    SameBlocksAlike(d, ClipEvents(es), ClipEvents(fs));
  }

  // ---------------------------------------------------------------- the mixture occurs

  /** A provider whose payload `A` is a completion with a padded type and whose payload `B`
      is a response cut off at the expected cap. */
  function SampleJson(data: seq<byte>): Parsed {
    if data == [65] then Typed(" response.completed", false, false, false) else Typed(INCOMPLETE, false, false, true)
  }

  function SampleUtf8(data: seq<byte>): Option<string> { None }

  function SampleEvent(payload: byte): seq<Line> { [Line(DATA_FIELD + [payload], false)] }

  lemma SampleEffects()
    ensures var d := Decoders(SampleJson, SampleUtf8);
            && EventEffect(d, SampleEvent(65)) == Effect(false, None, Noticed, false)
            && EventEffect(d, SampleEvent(66)) == Effect(false, None, Recorded(INCOMPLETE), false)
  {
    var d := Decoders(SampleJson, SampleUtf8);
    SampleGathered(d, 65);
    SampleGathered(d, 66);
    hide GatherAll;
    SampleTrim();
    PaddedTrim();
    hide TrimFront, TrimBack, TextOrder.Trim;
    assert Dispatched(d, Pending(None, [65, NEWLINE])) == TypedEffect(SampleJson([65]), None);
    assert Dispatched(d, Pending(None, [66, NEWLINE])) == TypedEffect(SampleJson([66]), None);
  }

  lemma SampleGathered(d: Decoders, payload: byte)
    requires payload != 32
    ensures GatherAll(d, SampleEvent(payload)) == (Pending(None, [payload, NEWLINE]), false)
  {
    var b := SampleEvent(payload);
    assert b[..0] == [] && GatherAll(d, b[..0]) == (NOTHING, false);
    var l := b[0].bytes;
    assert l[..|DATA_FIELD|] == DATA_FIELD && l[|DATA_FIELD|..] == [payload];
    assert !HasPrefix(l, EVENT_FIELD) by { assert l[..|EVENT_FIELD|][0] == 100; }
    assert [] + [payload] + [NEWLINE] == [payload, NEWLINE];
    assert Gather(d, NOTHING, l) == (Pending(None, [payload, NEWLINE]), false);
    hide Gather;
  }

  lemma SampleTrim()
    ensures TrimBack(TrimFront([65, NEWLINE])) == [65] && TrimBack(TrimFront([66, NEWLINE])) == [66]
  {
    assert TrimFront([65, NEWLINE]) == [65, NEWLINE] && TrimFront([66, NEWLINE]) == [66, NEWLINE];
    assert [65, NEWLINE][..1] == [65] && [66, NEWLINE][..1] == [66];
    assert TrimBack([65]) == [65] && TrimBack([66]) == [66];
    assert TrimBack([65, NEWLINE]) == TrimBack([65, NEWLINE][..1])
        && TrimBack([66, NEWLINE]) == TrimBack([66, NEWLINE][..1]);
  }

  lemma PaddedTrim()
    ensures TextOrder.Trim(" response.completed") == COMPLETED
  {
    assert " response.completed"[1..] == COMPLETED;
  }

  /** The mixture occurs: these two events are accepted in one order only. */
  lemma PaddedCompletionDependsOnOrder()
    ensures var d := Decoders(SampleJson, SampleUtf8);
            && StreamAccepted(d, [SampleEvent(66), SampleEvent(65)])
            && !StreamAccepted(d, [SampleEvent(65), SampleEvent(66)])
  {
    var d := Decoders(SampleJson, SampleUtf8);
    var a, b := Effect(false, None, Noticed, false), Effect(false, None, Recorded(INCOMPLETE), false);
    SampleEffects();
    hide EventEffect;
    StreamIsEffects(d, [SampleEvent(66), SampleEvent(65)]);
    StreamIsEffects(d, [SampleEvent(65), SampleEvent(66)]);
    assert Effects(d, [SampleEvent(66), SampleEvent(65)]) == [b, a];
    assert Effects(d, [SampleEvent(65), SampleEvent(66)]) == [a, b];
    hide Effects, Consume, Stream;
    assert [b, a][..1] == [b] && [a, b][..1] == [a];
    assert ApplyAll(OPEN, [b]) == Apply(OPEN, b) && ApplyAll(OPEN, [a]) == Apply(OPEN, a);
  }
}
