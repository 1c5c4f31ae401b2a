/** Acceptance of a Responses stream in terms of what its events say: the lines of an event
    amount to a name and a payload, and the payloads alone decide. */
module SsePayloads {
  import opened Base
  import opened SseLexer
  import opened SseEvents
  import opened SseTheorems
  import TextOrder

  predicate IsAscii(s: string) { forall i :: 0 <= i < |s| ==> s[i] < '\U{80}' }

  /** Text as bytes. */
  function Ascii(s: string): seq<byte>
    requires IsAscii(s)
  {
    seq(|s|, i requires 0 <= i < |s| => s[i] as int as byte)
  }

  // ---------------------------------------------------------------- lines

  /** The value of a `field:` line. */
  function FieldValue(l: seq<byte>, field: string): Option<seq<byte>>
    requires IsAscii(field)
  {
    if Ascii(field) <= l then Some(l[|field|..]) else None
  }

  function WithoutBlank(s: seq<byte>): seq<byte> { if |s| > 0 && s[0] == 32 then s[1..] else s }

  /** The data lines of an event, each without one leading blank, each followed by a newline. */
  function DataOf(b: seq<Line>): seq<byte> {
    if |b| == 0 then []
    else
      match FieldValue(b[|b| - 1].bytes, "data:")
      case None => DataOf(b[..|b| - 1])
      case Some(v) => DataOf(b[..|b| - 1]) + WithoutBlank(v) + [10]
  }

  /** The last event name, trimmed. */
  function NameIn(d: Decoders, b: seq<Line>): Option<string> {
    if |b| == 0 then None
    else
      match FieldValue(b[|b| - 1].bytes, "event:")
      case None => NameIn(d, b[..|b| - 1])
      case Some(v) => if d.utf8(v).Some? then Some(TextOrder.Trim(d.utf8(v).value)) else NameIn(d, b[..|b| - 1])
  }

  predicate Decodes(d: Decoders, l: seq<byte>) {
    FieldValue(l, "event:").Some? ==> d.utf8(FieldValue(l, "event:").value).Some?
  }

  /** No line was cut off, every event name decodes and the data is at most one mebibyte. */
  predicate Readable(d: Decoders, b: seq<Line>) {
    && (forall i :: 0 <= i < |b| ==> !b[i].truncated && Decodes(d, b[i].bytes))
    && |DataOf(b)| <= 1_048_576
  }

  lemma FieldNames()
    ensures EVENT_FIELD == Ascii("event:") && DATA_FIELD == Ascii("data:") && DONE == Ascii("[DONE]")
  {
  }

  lemma PrefixIsField(l: seq<byte>)
    ensures HasPrefix(l, EVENT_FIELD) <==> FieldValue(l, "event:").Some?
    ensures HasPrefix(l, DATA_FIELD) <==> FieldValue(l, "data:").Some?
    ensures !(HasPrefix(l, EVENT_FIELD) && HasPrefix(l, DATA_FIELD))
    ensures HasPrefix(l, EVENT_FIELD) ==> FieldValue(l, "event:").value == l[6..]
    ensures HasPrefix(l, DATA_FIELD) ==> FieldValue(l, "data:").value == l[5..]
  {
    FieldNames();
    if HasPrefix(l, EVENT_FIELD) {
      assert l[0] == l[..6][0] == 101;
    }
    if HasPrefix(l, DATA_FIELD) {
      assert l[0] == l[..5][0] == 100;
    }
  }

  /** What an event's lines amount to: the last name and the joined data, unless a line cannot
      be read, which breaks the protocol. */
  lemma {:induction false} LinesAmountTo(d: Decoders, b: seq<Line>)
    ensures !GatherAll(d, b).1 <==> Readable(d, b)
    ensures Readable(d, b) ==> GatherAll(d, b).0 == Pending(NameIn(d, b), DataOf(b))
    decreases |b|
  {
    if |b| > 0 {
      var n := |b| - 1;
      LinesAmountTo(d, b[..n]);
      PrefixIsField(b[n].bytes);
      assert b[..n] + [b[n]] == b;
      hide HasPrefix, FieldValue, TextOrder.Trim;
      assert Readable(d, b) <==>
             Readable(d, b[..n]) && !b[n].truncated && Decodes(d, b[n].bytes) && |DataOf(b)| <= 1_048_576;
    }
  }

  // ---------------------------------------------------------------- payloads

  function PayloadOf(b: seq<Line>): seq<byte> { TrimBack(TrimFront(DataOf(b))) }

  /** Says nothing: nothing at all, or the closing `[DONE]`. */
  predicate Skipped(d: Decoders, b: seq<Line>) {
    (PayloadOf(b) == [] && NameIn(d, b).None?) || PayloadOf(b) == Ascii("[DONE]")
  }

  /** The payload carries no error, is of no failing type, is incomplete only at the expected cap
      and is not completed with another status. */
  predicate Unfailing(p: Parsed) {
    && p.Typed? && !p.hasError
    && TextOrder.Trim(p.kind) != "response.failed"
    && TextOrder.Trim(p.kind) != "response.cancelled"
    && TextOrder.Trim(p.kind) != "response.canceled"
    && TextOrder.Trim(p.kind) != "error"
    && (TextOrder.Trim(p.kind) == "response.incomplete" ==> p.kind == "response.incomplete" && p.limitReached)
    && (p.kind == "response.completed" ==> !p.statusConflict)
  }

  /** An event that does not speak against the stream. */
  predicate Agreeable(d: Decoders, b: seq<Line>) {
    && Readable(d, b)
    && (Skipped(d, b) ||
        (&& Unfailing(d.json(PayloadOf(b)))
         && (NameIn(d, b) in {None, Some("")} || NameIn(d, b) == Some(d.json(PayloadOf(b)).kind))))
  }

  /** The terminal success an event reports. */
  function Terminal(d: Decoders, b: seq<Line>): Option<string> {
    if Skipped(d, b) || !d.json(PayloadOf(b)).Typed? then None
    else
      var p := d.json(PayloadOf(b));
      if TextOrder.Trim(p.kind) == "response.completed" then Some("response.completed")
      else if p.kind == "response.incomplete" && p.limitReached then Some("response.incomplete")
      else None
  }

  /** A completion whose type is written with blanks around it. */
  predicate Padded(d: Decoders, b: seq<Line>) {
    && Terminal(d, b) == Some("response.completed")
    && d.json(PayloadOf(b)).Typed? && d.json(PayloadOf(b)).kind != "response.completed"
  }

  function FirstTerminal(d: Decoders, bs: seq<seq<Line>>): Option<string> {
    if |bs| == 0 then None
    else if FirstTerminal(d, bs[..|bs| - 1]).Some? then FirstTerminal(d, bs[..|bs| - 1])
    else Terminal(d, bs[|bs| - 1])
  }

  /** No event speaks against the stream, one reports success, and every success with a plain
      type agrees with the first one. */
  predicate Convincing(d: Decoders, bs: seq<seq<Line>>) {
    && (forall b :: b in bs ==> Agreeable(d, b))
    && FirstTerminal(d, bs).Some?
    && (forall b :: b in bs && Terminal(d, b).Some? && !Padded(d, b) ==> Terminal(d, b) == FirstTerminal(d, bs))
  }

  lemma PlainNames()
    ensures TextOrder.Trim("response.completed") == "response.completed"
    ensures TextOrder.Trim("response.incomplete") == "response.incomplete"
  {
    assert TextOrder.TrimStart("response.completed") == "response.completed";
    assert TextOrder.TrimStart("response.incomplete") == "response.incomplete";
  }

  /** One event: clean exactly when it is agreeable, and then its success is what it reports. */
  lemma EventMeaning(d: Decoders, b: seq<Line>)
    ensures var e := EventEffect(d, b);
            && (!e.error && e.failure.None? <==> Agreeable(d, b))
            && (Agreeable(d, b) ==> NameOf(e.success) == Terminal(d, b))
            && (Agreeable(d, b) ==> (e.success.Recorded? <==> Terminal(d, b).Some? && !Padded(d, b)))
  {
    LinesAmountTo(d, b);
    FieldNames();
    PlainNames();
    hide GatherAll, DataOf, NameIn, Readable, TrimFront, TrimBack, TextOrder.Trim, Ascii;
  }

  lemma {:induction false} FirstIsTerminal(d: Decoders, bs: seq<seq<Line>>)
    requires forall b :: b in bs ==> Agreeable(d, b)
    ensures FirstSuccess(Effects(d, bs)) == FirstTerminal(d, bs)
    decreases |bs|
  {
    hide EventEffect, Agreeable, Terminal;
    if |bs| > 0 {
      var n := |bs| - 1;
      assert Effects(d, bs)[..n] == Effects(d, bs[..n]);
      FirstIsTerminal(d, bs[..n]);
      EventMeaning(d, bs[n]);
    }
  }

  /** Acceptance by payloads, for all complete events whatsoever. */
  lemma PayloadsDecide(d: Decoders, bs: seq<seq<Line>>)
    requires AreEvents(bs)
    ensures StreamAccepted(d, bs) <==> Convincing(d, bs)
  {
    var es := Effects(d, bs);
    hide EventEffect, Agreeable, Terminal, Padded, ApplyAll, FirstSuccess, Consume, Stream, FirstTerminal;
    StreamIsEffects(d, bs);
    AcceptedIff(es);
    forall i | 0 <= i < |bs|
      ensures && (!es[i].error && es[i].failure.None? <==> Agreeable(d, bs[i]))
              && (Agreeable(d, bs[i]) ==> NameOf(es[i].success) == Terminal(d, bs[i]))
              && (Agreeable(d, bs[i]) ==> (es[i].success.Recorded? <==> Terminal(d, bs[i]).Some? && !Padded(d, bs[i])))
    {
      EventMeaning(d, bs[i]);
    }
    assert Clean(es) <==> forall b :: b in bs ==> Agreeable(d, b);
    if Clean(es) {
      FirstIsTerminal(d, bs);
      assert forall i :: 0 <= i < |bs| ==> bs[i] in bs && es[i] in es;
    }
  }

  // ---------------------------------------------------------------- outside the mixture

  /** Capped responses beside padded completions, with no plain completion to settle it. */
  ghost predicate Mixed(d: Decoders, bs: seq<seq<Line>>) {
    && (forall b :: b in bs ==> Agreeable(d, b))
    && (exists b :: b in bs && Terminal(d, b) == Some("response.incomplete"))
    && (exists b :: b in bs && Padded(d, b))
    && (forall b :: b in bs && Terminal(d, b) == Some("response.completed") ==> Padded(d, b))
  }

  lemma {:induction false} FirstTerminalMeans(d: Decoders, bs: seq<seq<Line>>)
    ensures FirstTerminal(d, bs).None? <==> forall b :: b in bs ==> Terminal(d, b).None?
    ensures FirstTerminal(d, bs).Some? ==> exists b :: b in bs && Terminal(d, b) == FirstTerminal(d, bs)
    decreases |bs|
  {
    hide Terminal;
    if |bs| > 0 {
      var n := |bs| - 1;
      FirstTerminalMeans(d, bs[..n]);
      assert bs == bs[..n] + [bs[n]];
    }
  }

  /** Outside the mixture the order is irrelevant: a stream is accepted exactly when every event
      can be read, decodes to a payload with a type that its name agrees with, and reports no
      failure; some event reports success; and all that do report the same one. */
  lemma AcceptedOutsideMixture(d: Decoders, bs: seq<seq<Line>>)
    requires AreEvents(bs) && !Mixed(d, bs)
    ensures StreamAccepted(d, bs) <==>
              && (forall b :: b in bs ==> Agreeable(d, b))
              && (exists b :: b in bs && Terminal(d, b).Some?)
              && (forall b, c :: b in bs && c in bs && Terminal(d, b).Some? && Terminal(d, c).Some? ==>
                    Terminal(d, b) == Terminal(d, c))
  {
    PayloadsDecide(d, bs);
    FirstTerminalMeans(d, bs);
    assert forall b :: Terminal(d, b) in {None, Some("response.completed"), Some("response.incomplete")};
    assert forall b :: Padded(d, b) ==> Terminal(d, b) == Some("response.completed");
    hide FirstTerminal, StreamAccepted, Agreeable, Terminal, Padded;
  }

  /** From bytes to the verdict: however complete events are ended and cut into chunks, they are
      accepted exactly when their payloads are convincing. */
  lemma BytesDecide(d: Decoders, es: seq<seq<seq<byte>>>, ends: seq<Ending>, chunks: seq<seq<byte>>)
    requires AreWritten(es) && |ends| == |Written(es)| && Unambiguous(Written(es), ends)
    requires Join(chunks) == Render(Written(es), ends)
    ensures Accepted(Final(d, FeedChunks(START, chunks))) <==> Convincing(d, ClipEvents(es))
  {
    JudgedIsStream(d, es, ends);
    ChunksAreJoined(START, chunks);
    ClippedAreEvents(es);
    hide Final, StreamAccepted, Convincing, AreWritten, Unambiguous, FeedChunks, Render;
    PayloadsDecide(d, ClipEvents(es));
  }
}
