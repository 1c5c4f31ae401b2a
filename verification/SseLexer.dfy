/** Splitting a server-sent event stream into lines, byte by byte, with CR, LF and CRLF line
    ends (section 9.2.5 of the WHATWG HTML Standard) and a bound on the kept line length. */
module SseLexer {
  import opened Base

  /** A line handed on: the kept bytes, and whether more had to be dropped. */
  datatype Line = Line(bytes: seq<byte>, truncated: bool)

  /** The tracker's line state, with every line finished so far. */
  datatype Lexer = Lexer(line: seq<byte>, truncated: bool, skipLf: bool, out: seq<Line>)

  const START: Lexer := Lexer([], false, false, [])

  predicate IsBreak(b: byte) { b == NEWLINE || b == RETURN }

  predicate Plain(s: seq<byte>) { forall i :: 0 <= i < |s| ==> !IsBreak(s[i]) }

  function Step(x: Lexer, b: byte, cap: nat): Lexer {
    if b == NEWLINE && x.skipLf then x.(skipLf := false)
    else if IsBreak(b) then Lexer([], false, b == RETURN, x.out + [Line(x.line, x.truncated)])
    else if |x.line| < cap then x.(line := x.line + [b], skipLf := false)
    else x.(truncated := true, skipLf := false)
  }

  function Feed(x: Lexer, s: seq<byte>, cap: nat): Lexer
    decreases |s|
  {
    if |s| == 0 then x else Step(Feed(x, s[..|s| - 1], cap), s[|s| - 1], cap)
  }

  /** How the stream is cut into chunks does not matter. */
  lemma {:induction false} ChunksDoNotMatter(x: Lexer, a: seq<byte>, b: seq<byte>, cap: nat)
    ensures Feed(x, a + b, cap) == Feed(Feed(x, a, cap), b, cap)
    decreases |b|
  {
    if |b| == 0 {
      assert a + b == a;
    } else {
      assert (a + b)[..|a + b| - 1] == a + b[..|b| - 1];
      ChunksDoNotMatter(x, a, b[..|b| - 1], cap);
    }
  }

  // ---------------------------------------------------------------- rendering

  datatype Ending = Lf | Cr | CrLf

  function Mark(e: Ending): seq<byte> {
    match e
    case Lf => [NEWLINE]
    case Cr => [RETURN]
    case CrLf => [RETURN, NEWLINE]
  }

  /** Lines written out, each with its own line end. */
  function Render(ls: seq<seq<byte>>, es: seq<Ending>): seq<byte>
    requires |ls| == |es|
  {
    if |ls| == 0 then []
    else Render(ls[..|ls| - 1], es[..|es| - 1]) + ls[|ls| - 1] + Mark(es[|es| - 1])
  }

  /** A line kept up to the bound. */
  function Clip(l: seq<byte>, cap: nat): Line {
    if |l| <= cap then Line(l, false) else Line(l[..cap], true)
  }

  /** An empty LF line after a CR line reads as the second half of a CRLF. */
  predicate Swallowed(ls: seq<seq<byte>>, es: seq<Ending>, i: nat)
    requires |ls| == |es| && i < |ls|
  {
    i > 0 && es[i - 1] == Cr && ls[i] == [] && es[i] == Lf
  }

  predicate Unambiguous(ls: seq<seq<byte>>, es: seq<Ending>)
    requires |ls| == |es|
  {
    forall i: nat :: i < |ls| ==> !Swallowed(ls, es, i)
  }

  function Surviving(ls: seq<seq<byte>>, es: seq<Ending>, cap: nat): seq<Line>
    requires |ls| == |es|
  {
    if |ls| == 0 then []
    else
      var before := Surviving(ls[..|ls| - 1], es[..|es| - 1], cap);
      if Swallowed(ls, es, |ls| - 1) then before else before + [Clip(ls[|ls| - 1], cap)]
  }

  function ClipAll(ls: seq<seq<byte>>, cap: nat): seq<Line> {
    if |ls| == 0 then [] else ClipAll(ls[..|ls| - 1], cap) + [Clip(ls[|ls| - 1], cap)]
  }

  lemma {:induction false} FeedPlain(x: Lexer, s: seq<byte>, cap: nat)
    requires Plain(s) && x.line == [] && !x.truncated
    ensures var c := Clip(s, cap);
            Feed(x, s, cap) == Lexer(c.bytes, c.truncated, x.skipLf && s == [], x.out)
    decreases |s|
  {
    if |s| > 0 {
      FeedPlain(x, s[..|s| - 1], cap);
      assert s == s[..|s| - 1] + [s[|s| - 1]];
    }
  }

  lemma FeedMark(x: Lexer, e: Ending, cap: nat)
    ensures Feed(x, Mark(e), cap) ==
            if e == Lf && x.skipLf then x.(skipLf := false)
            else Lexer([], false, e == Cr, x.out + [Line(x.line, x.truncated)])
  {
    match e
    case Lf => FeedOne(x, NEWLINE, cap);
    case Cr => FeedOne(x, RETURN, cap);
    case CrLf =>
      assert Mark(e) == [RETURN] + [NEWLINE];
      ChunksDoNotMatter(x, [RETURN], [NEWLINE], cap);
      FeedOne(x, RETURN, cap);
      FeedOne(Step(x, RETURN, cap), NEWLINE, cap);
  }

  lemma FeedOne(x: Lexer, b: byte, cap: nat)
    ensures Feed(x, [b], cap) == Step(x, b, cap)
  {
    assert [b][..0] == [];
    assert Feed(x, [], cap) == x;
  }

  predicate AllPlain(ls: seq<seq<byte>>) { forall i :: 0 <= i < |ls| ==> Plain(ls[i]) }

  /** Whatever the line ends, the lexer hands on the rendered lines, clipped to the bound,
      less the empty ones a CR swallows. */
  lemma {:induction false} LexRendered(ls: seq<seq<byte>>, es: seq<Ending>, cap: nat)
    requires |ls| == |es| && AllPlain(ls)
    ensures Feed(START, Render(ls, es), cap) ==
            Lexer([], false, |es| > 0 && es[|es| - 1] == Cr, Surviving(ls, es, cap))
    decreases |ls|
  {
    var n := |ls| - 1;
    if |ls| > 0 {
      LexRendered(ls[..n], es[..n], cap);
      var x := Feed(START, Render(ls[..n], es[..n]), cap);
      ChunksDoNotMatter(START, Render(ls[..n], es[..n]) + ls[n], Mark(es[n]), cap);
      ChunksDoNotMatter(START, Render(ls[..n], es[..n]), ls[n], cap);
      FeedPlain(x, ls[n], cap);
      FeedMark(Feed(x, ls[n], cap), es[n], cap);
    }
  }

  lemma {:induction false} SurvivingLength(ls: seq<seq<byte>>, es: seq<Ending>, cap: nat)
    requires |ls| == |es|
    ensures |Surviving(ls, es, cap)| <= |ls|
    ensures Unambiguous(ls, es) ==> Surviving(ls, es, cap) == ClipAll(ls, cap)
    ensures !Unambiguous(ls, es) ==> |Surviving(ls, es, cap)| < |ls|
    decreases |ls|
  {
    if |ls| > 0 {
      var n := |ls| - 1;
      var ks, fs := ls[..n], es[..n];
      SurvivingLength(ks, fs, cap);
      assert forall i: nat :: i < n ==> Swallowed(ls, es, i) == Swallowed(ks, fs, i);
      hide Swallowed;
    }
  }

  lemma {:induction false} ClipAllLength(ls: seq<seq<byte>>, cap: nat)
    ensures |ClipAll(ls, cap)| == |ls|
    decreases |ls|
  {
    if |ls| > 0 { ClipAllLength(ls[..|ls| - 1], cap); }
  }

  /** LF, CR and CRLF can be mixed freely: the lines come out as written exactly when no
      empty LF line directly follows a CR line. */
  lemma LineEndsDoNotMatterIff(ls: seq<seq<byte>>, es: seq<Ending>, cap: nat)
    requires |ls| == |es| && AllPlain(ls)
    ensures Feed(START, Render(ls, es), cap).out == ClipAll(ls, cap) <==> Unambiguous(ls, es)
  {
    LexRendered(ls, es, cap);
    SurvivingLength(ls, es, cap);
    ClipAllLength(ls, cap);
  }

  /** Two empty lines, the first ended by CR and the second by LF, are read as one. */
  lemma CrThenLfIsOneEnd(cap: nat)
    ensures Feed(START, Render([[], []], [Cr, Lf]), cap).out == [Line([], false)]
  {
    var ls: seq<seq<byte>> := [[], []];
    var es := [Cr, Lf];
    LexRendered(ls, es, cap);
    assert ls[..1] == [[]] && es[..1] == [Cr] && ls[..1][..0] == [] && es[..1][..0] == [];
    assert Surviving([], [], cap) == [];
    assert Surviving(ls[..1], es[..1], cap) == [Clip([], cap)];
    assert Swallowed(ls, es, 1);
  }

  /** Every stream is some lines with some line ends, read back without ambiguity, and an
      unterminated rest. */
  lemma {:induction false} EveryStreamIsRendered(s: seq<byte>)
    returns (ls: seq<seq<byte>>, es: seq<Ending>, tail: seq<byte>)
    ensures |ls| == |es| && AllPlain(ls) && Plain(tail) && Unambiguous(ls, es)
    ensures s == Render(ls, es) + tail
    decreases |s|
  {
    if |s| == 0 {
      ls, es, tail := [], [], [];
    } else {
      var n := |s| - 1;
      var b := s[n];
      ls, es, tail := EveryStreamIsRendered(s[..n]);
      assert s == s[..n] + [b];
      if !IsBreak(b) {
        tail := tail + [b];
      } else if b == NEWLINE && tail == [] && |es| > 0 && es[|es| - 1] == Cr {
        var k := |es| - 1;
        ExtendEnding(ls, es);
        es := es[..k] + [CrLf];
      } else {
        var e := if b == NEWLINE then Lf else Cr;
        AddLine(ls, es, tail, e);
        ls, es, tail := ls + [tail], es + [e], [];
      }
    }
  }

  lemma ExtendEnding(ls: seq<seq<byte>>, es: seq<Ending>)
    requires |ls| == |es| > 0 && es[|es| - 1] == Cr && Unambiguous(ls, es)
    ensures var fs := es[..|es| - 1] + [CrLf];
            Render(ls, fs) == Render(ls, es) + [NEWLINE] && Unambiguous(ls, fs)
  {
    var k := |es| - 1;
    var fs := es[..k] + [CrLf];
    assert fs[..k] == es[..k];
    forall i: nat | i < |ls| ensures !Swallowed(ls, fs, i) {
      assert !Swallowed(ls, es, i);
    }
  }

  lemma AddLine(ls: seq<seq<byte>>, es: seq<Ending>, l: seq<byte>, e: Ending)
    requires |ls| == |es| && Unambiguous(ls, es)
    requires !(e == Lf && l == [] && |es| > 0 && es[|es| - 1] == Cr)
    ensures Render(ls + [l], es + [e]) == Render(ls, es) + l + Mark(e)
    ensures Unambiguous(ls + [l], es + [e])
  {
    assert (ls + [l])[..|ls|] == ls && (es + [e])[..|es|] == es;
    forall i: nat | i < |ls + [l]| ensures !Swallowed(ls + [l], es + [e], i) {
      if i < |ls| { assert !Swallowed(ls, es, i); }
    }
  }
}
