/** Judging a Responses stream: from finished lines to events, and from events to a verdict.
    JSON and UTF-8 decoding are given as functions. */
module SseEvents {
  import opened Base
  import opened SseLexer
  import TextOrder

  const PARSE_CAP: nat := 1_048_576

  /** What the checks look at in an event's JSON payload. */
  datatype Parsed =
    | NotJson
    | NoType
    | Typed(kind: string, hasError: bool, statusConflict: bool, limitReached: bool)

  datatype Decoders = Decoders(json: seq<byte> -> Parsed, utf8: seq<byte> -> Option<string>)

  datatype Pending = Pending(event: Option<string>, data: seq<byte>)

  datatype Verdict = Verdict(error: bool, failure: Option<string>, success: Option<string>, done: bool)

  const NOTHING: Pending := Pending(None, [])
  const OPEN: Verdict := Verdict(false, None, None, false)

  const COMPLETED: string := "response.completed"
  const INCOMPLETE: string := "response.incomplete"

  // ---------------------------------------------------------------- events

  /** How an event can speak for success: checked against earlier ones, or, for a completion
      whose type is padded with blanks, merely noticed. */
  datatype Success = Silent | Recorded(kind: string) | Noticed

  datatype Effect = Effect(error: bool, failure: Option<string>, success: Success, done: bool)

  const NEUTRAL: Effect := Effect(false, None, Silent, false)

  predicate IsFailure(name: string) {
    name == "response.failed" || name == INCOMPLETE || name == "response.cancelled" || name == "response.canceled"
        || name == "error"
  }

  function KindEffect(kind: string, limitReached: bool): Effect {
    if kind == COMPLETED || (kind == INCOMPLETE && limitReached) then NEUTRAL.(success := Recorded(kind))
    else
      var name := TextOrder.Trim(kind);
      NEUTRAL.(failure := if IsFailure(name) then Some(name) else None, success := if name == COMPLETED then Noticed
          else Silent)
  }

  predicate IsSpace(b: byte) { b == 9 || b == 10 || b == 12 || b == 13 || b == 32 }

  function TrimFront(s: seq<byte>): seq<byte> { if |s| > 0 && IsSpace(s[0]) then TrimFront(s[1..]) else s }

  function TrimBack(s: seq<byte>): seq<byte> { if |s| > 0 && IsSpace(s[|s| - 1]) then TrimBack(s[..|s| - 1]) else s }

  predicate AllSpace(s: seq<byte>) { forall i :: 0 <= i < |s| ==> IsSpace(s[i]) }

  /** `r` is what is left of `s` without the blanks at both ends, and nothing else is lost. */
  predicate IsTrimmed(s: seq<byte>, r: seq<byte>) {
    && (exists i, k :: 0 <= i <= k <= |s| && r == s[i..k] && AllSpace(s[..i]) && AllSpace(s[k..]))
    && (|r| > 0 ==> !IsSpace(r[0]) && !IsSpace(r[|r| - 1]))
  }

  lemma {:induction false} TrimFrontMeans(s: seq<byte>) returns (i: nat)
    ensures i <= |s| && TrimFront(s) == s[i..] && AllSpace(s[..i]) && (i < |s| ==> !IsSpace(s[i]))
    decreases |s|
  {
    if |s| > 0 && IsSpace(s[0]) {
      var k := TrimFrontMeans(s[1..]);
      i := k + 1;
      assert s[1..][k..] == s[i..] && s[..i] == [s[0]] + s[1..][..k];
    } else {
      i := 0;
      assert s[0..] == s;
    }
  }

  lemma {:induction false} TrimBackMeans(s: seq<byte>) returns (k: nat)
    ensures k <= |s| && TrimBack(s) == s[..k] && AllSpace(s[k..]) && (0 < k ==> !IsSpace(s[k - 1]))
    decreases |s|
  {
    if |s| > 0 && IsSpace(s[|s| - 1]) {
      var t := s[..|s| - 1];
      k := TrimBackMeans(t);
      assert t[..k] == s[..k] && s[k..] == t[k..] + [s[|s| - 1]];
    } else {
      k := |s|;
      assert s[..k] == s;
    }
  }

  lemma TrimMeans(s: seq<byte>)
    ensures IsTrimmed(s, TrimBack(TrimFront(s)))
  {
    var i := TrimFrontMeans(s);
    var t := TrimFront(s);
    var k := TrimBackMeans(t);
    hide TrimFront, TrimBack;
    assert t[..k] == s[i..i + k] && t[k..] == s[i + k..];
    assert k > 0 ==> t[..k][0] == s[i] && t[..k][k - 1] == t[k - 1];
  }

  /** `trim_ascii` */
  method TrimAscii(value: seq<byte>) returns (r: seq<byte>)
    ensures r == TrimBack(TrimFront(value))
    ensures IsTrimmed(value, r)
  {
    TrimMeans(value);
    hide IsTrimmed;
    r := value;
    while |r| > 0 && IsSpace(r[0])
      invariant TrimFront(r) == TrimFront(value)
      decreases |r|
    {
      r := r[1..];
    }
    while |r| > 0 && IsSpace(r[|r| - 1])
      invariant TrimBack(r) == TrimBack(TrimFront(value))
      decreases |r|
    {
      r := r[..|r| - 1];
    }
  }

  /** `[DONE]` */
  const DONE: seq<byte> := [91, 68, 79, 78, 69, 93]

  function TypedEffect(parsed: Parsed, event: Option<string>): Effect
    requires parsed.Typed?
  {
    var e := KindEffect(parsed.kind, parsed.limitReached);
    var disagrees := event.Some? && event.value != "" && event.value != parsed.kind;
    e.(error := disagrees || (parsed.kind == COMPLETED && parsed.statusConflict),
       failure := if parsed.hasError then Some("error") else e.failure)
  }

  /** What one complete event contributes, whatever came before it. */
  function Dispatched(d: Decoders, p: Pending): Effect {
    var data := TrimBack(TrimFront(p.data));
    if data == [] && p.event.None? then NEUTRAL
    else if data == DONE then NEUTRAL.(done := true)
    else
      match d.json(data)
      case NotJson => NEUTRAL.(error := true)
      case NoType => NEUTRAL.(error := true)
      case Typed(_, _, _, _) => TypedEffect(d.json(data), p.event)
  }

  function NameOf(s: Success): Option<string> {
    match s
    case Silent => None
    case Recorded(k) => Some(k)
    case Noticed => Some(COMPLETED)
  }

  function Apply(v: Verdict, e: Effect): Verdict {
    Verdict(v.error || e.error || (e.success.Recorded? && v.success.Some? && v.success.value != e.success.kind),
            if v.failure.Some? then v.failure else e.failure,
            if v.success.Some? then v.success else NameOf(e.success),
            v.done || e.done)
  }

  /** Two contributions in a row are one, if the first says nothing of success. */
  lemma ApplyTwice(v: Verdict, a: Effect, b: Effect)
    requires a.success.Silent?
    ensures Apply(Apply(v, a), b) ==
            Apply(v, Effect(a.error || b.error, if a.failure.Some? then a.failure else b.failure, b.success, a.done
                || b.done))
  {
  }

  // ---------------------------------------------------------------- lines

  const EVENT_FIELD: seq<byte> := [101, 118, 101, 110, 116, 58]
  const DATA_FIELD: seq<byte> := [100, 97, 116, 97, 58]

  predicate HasPrefix(s: seq<byte>, p: seq<byte>) { |p| <= |s| && s[..|p|] == p }

  /** One non-blank line: the event so far, and whether the protocol is broken. */
  function Gather(d: Decoders, p: Pending, l: seq<byte>): (Pending, bool) {
    if HasPrefix(l, EVENT_FIELD) then
      var name := d.utf8(l[|EVENT_FIELD|..]);
      if name.Some? then (p.(event := Some(TextOrder.Trim(name.value))), false) else (p, true)
    else if HasPrefix(l, DATA_FIELD) then
      var rest := l[|DATA_FIELD|..];
      var data := if |rest| > 0 && rest[0] == 32 then rest[1..] else rest;
      if |p.data| + |data| + 1 > PARSE_CAP then (p, true) else (p.(data := p.data + data + [NEWLINE]), false)
    else (p, false)
  }

  function TakeLine(d: Decoders, p: Pending, v: Verdict, l: Line): (Pending, Verdict) {
    var v1 := v.(error := v.error || l.truncated);
    if |l.bytes| == 0 then (NOTHING, Apply(v1, Dispatched(d, p)))
    else
      var g := Gather(d, p, l.bytes);
      (g.0, v1.(error := v1.error || g.1))
  }

  function Consume(d: Decoders, p: Pending, v: Verdict, ls: seq<Line>): (Pending, Verdict)
    decreases |ls|
  {
    if |ls| == 0 then (p, v)
    else
      var r := Consume(d, p, v, ls[..|ls| - 1]);
      TakeLine(d, r.0, r.1, ls[|ls| - 1])
  }

  /** The stream is accepted. */
  predicate Accepted(v: Verdict) { !v.error && v.failure.None? && v.success.Some? }

  // ---------------------------------------------------------------- the tracker

  class ProbeSseTracker {
    const decoders: Decoders
    var line: seq<byte>
    var lineTruncated: bool
    var skipLf: bool
    var pending: Pending
    var verdict: Verdict
    ghost var finished: seq<Line>

    /** The event under construction and the verdict are what the finished lines amount to. */
    ghost predicate Valid()
      reads this
    {
      (pending, verdict) == Consume(decoders, NOTHING, OPEN, finished)
    }

    ghost function Lexed(): Lexer
      reads this
    {
      Lexer(line, lineTruncated, skipLf, finished)
    }

    constructor (d: Decoders)
      ensures Valid() && Lexed() == START && decoders == d
    {
      decoders := d;
      line, lineTruncated, skipLf := [], false, false;
      pending, verdict, finished := NOTHING, OPEN, [];
    }

    method RecordSuccess(kind: string)
      modifies `verdict
      ensures verdict == Apply(old(verdict), NEUTRAL.(success := Recorded(kind)))
    {
      if verdict.success.Some? && verdict.success.value != kind {
        verdict := verdict.(error := true);
      }
      if verdict.success.None? {
        verdict := verdict.(success := Some(kind));
      }
    }

    method ObserveEvent(event: string)
      modifies `verdict
      ensures var name := TextOrder.Trim(event);
              verdict == Apply(old(verdict), NEUTRAL.(failure := if IsFailure(name) then Some(name) else None,
                                                      success := if name == COMPLETED then Noticed else Silent))
    {
      var name := TextOrder.Trim(event);
      hide TextOrder.Trim;
      if IsFailure(name) && verdict.failure.None? {
        verdict := verdict.(failure := Some(name));
      } else if name == COMPLETED && verdict.success.None? {
        verdict := verdict.(success := Some(name));
      }
    }

    /** The last part of `finish_response_event`, by the event's own type. */
    method NoteKind(kind: string, statusConflict: bool, limitReached: bool)
      modifies `verdict
      ensures verdict == Apply(old(verdict), KindEffect(kind, limitReached).(error := kind == COMPLETED
          && statusConflict))
    {
      TrimPlain();
      hide TextOrder.Trim;
      if kind == INCOMPLETE {
        if limitReached {
          RecordSuccess(kind);
        } else {
          ObserveEvent(kind);
        }
      } else if kind == COMPLETED {
        if statusConflict {
          verdict := verdict.(error := true);
        }
        RecordSuccess(kind);
      } else {
        ObserveEvent(kind);
      }
    }

    method NoteEvent(parsed: Parsed, event: Option<string>)
      requires parsed.Typed?
      modifies `verdict
      ensures verdict == Apply(old(verdict), TypedEffect(parsed, event))
    {
      ghost var v := verdict;
      var disagrees := event.Some? && event.value != "" && event.value != parsed.kind;
      TrimPlain();
      hide TextOrder.Trim, KindEffect;
      if disagrees {
        verdict := verdict.(error := true);
      }
      if parsed.hasError {
        ObserveEvent("error");
      }
      ghost var first := NEUTRAL.(error := disagrees, failure := if parsed.hasError then Some("error") else None);
      assert verdict == Apply(v, first);
      hide Apply, IsFailure;
      NoteKind(parsed.kind, parsed.statusConflict, parsed.limitReached);
      ApplyTwice(v, first, KindEffect(parsed.kind, parsed.limitReached).(error := parsed.kind == COMPLETED
          && parsed.statusConflict));
    }

    /** `finish_response_event` */
    method FinishResponseEvent()
      modifies `pending, `verdict
      ensures pending == NOTHING && verdict == Apply(old(verdict), Dispatched(decoders, old(pending)))
    {
      var event := pending.event;
      var data := TrimAscii(pending.data);
      hide TrimBack, TrimFront, TypedEffect;
      pending := NOTHING;
      if data == [] && event.None? { return; }
      if data == DONE {
        verdict := verdict.(done := true);
        return;
      }
      var parsed := decoders.json(data);
      if !parsed.Typed? {
        verdict := verdict.(error := true);
        return;
      }
      NoteEvent(parsed, event);
    }

    /** `response_line` */
    method ResponseLine(l: seq<byte>, truncated: bool)
      modifies `pending, `verdict
      ensures (pending, verdict) == TakeLine(decoders, old(pending), old(verdict), Line(l, truncated))
    {
      hide Dispatched, Apply;
      if truncated {
        verdict := verdict.(error := true);
      }
      if |l| == 0 {
        FinishResponseEvent();
      } else if HasPrefix(l, EVENT_FIELD) {
        var name := decoders.utf8(l[|EVENT_FIELD|..]);
        if name.Some? {
          pending := pending.(event := Some(TextOrder.Trim(name.value)));
        } else {
          verdict := verdict.(error := true);
        }
      } else if HasPrefix(l, DATA_FIELD) {
        var data := l[|DATA_FIELD|..];
        if |data| > 0 && data[0] == 32 { data := data[1..]; }
        if |pending.data| + |data| + 1 > PARSE_CAP {
          verdict := verdict.(error := true);
        } else {
          pending := pending.(data := pending.data + data + [NEWLINE]);
        }
      }
    }

    method FinishLine()
      requires Valid()
      modifies this
      ensures Valid() && line == [] && !lineTruncated && skipLf == old(skipLf)
      ensures finished == old(finished) + [Line(old(line), old(lineTruncated))]
    {
      var l, truncated := line, lineTruncated;
      line, lineTruncated := [], false;
      ghost var all := finished + [Line(l, truncated)];
      assert all[..|all| - 1] == finished;
      hide TakeLine;
      ResponseLine(l, truncated);
      finished := all;
    }

    /** `push`: the lexer state moves by the bytes of the chunk. */
    method Push(bytes: seq<byte>)
      requires Valid()
      modifies this
      ensures Valid() && Lexed() == Feed(old(Lexed()), bytes, PARSE_CAP)
    {
      hide Consume;
      for i := 0 to |bytes|
        invariant Valid() && Lexed() == Feed(old(Lexed()), bytes[..i], PARSE_CAP)
      {
        var b := bytes[i];
        assert bytes[..i + 1][..i] == bytes[..i] && bytes[..i + 1][i] == b;
        if b == NEWLINE && skipLf {
          skipLf := false;
          continue;
        }
        skipLf := b == RETURN;
        if IsBreak(b) {
          FinishLine();
        } else if |line| < PARSE_CAP {
          line := line + [b];
        } else {
          lineTruncated := true;
        }
      }
      assert bytes[..|bytes|] == bytes;
    }

    /** `finish`: an unterminated line and an unterminated event are judged too. */
    method Finish() returns (accepted: bool)
      requires Valid()
      modifies this
      ensures accepted == Accepted(Final(decoders, old(Lexed())))
    {
      hide Apply, Dispatched, TakeLine;
      ghost var x := Lexed();
      if |line| > 0 || lineTruncated {
        FinishLine();
      }
      assert finished == Closed(x);
      FinishResponseEvent();
      accepted := !verdict.error && verdict.failure.None? && verdict.success.Some?;
    }
  }

  lemma TrimPlain()
    ensures TextOrder.Trim("error") == "error" && TextOrder.Trim(INCOMPLETE) == INCOMPLETE
  {
  }

  function Closed(x: Lexer): seq<Line> {
    if |x.line| > 0 || x.truncated then x.out + [Line(x.line, x.truncated)] else x.out
  }

  function Final(d: Decoders, x: Lexer): Verdict {
    var r := Consume(d, NOTHING, OPEN, Closed(x));
    Apply(r.1, Dispatched(d, r.0))
  }

  function Judged(d: Decoders, s: seq<byte>): Verdict { Final(d, Feed(START, s, PARSE_CAP)) }
}
