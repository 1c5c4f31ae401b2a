/** Reading the last lines of a log file backwards, chunk by chunk. */
module LogTail {
  import opened Base

  const CHUNK_SIZE: nat := 8_192

  // ---------------------------------------------------------------- whole-file meaning

  /** A terminated line loses its newline and one carriage return before it. */
  function Strip(line: seq<byte>): seq<byte> {
    if |line| > 0 && line[|line| - 1] == RETURN then line[..|line| - 1] else line
  }

  /** The lines of a text; an unterminated last line counts and keeps every byte. */
  function LinesFrom(current: seq<byte>, s: seq<byte>): seq<seq<byte>>
    decreases |s|
  {
    if |s| == 0 then (if |current| == 0 then [] else [current])
    else if s[0] == NEWLINE then [Strip(current)] + LinesFrom([], s[1..])
    else LinesFrom(current + [s[0]], s[1..])
  }

  function Lines(s: seq<byte>): seq<seq<byte>> { LinesFrom([], s) }

  function LastOf<T>(ls: seq<T>, n: nat): seq<T> { if |ls| > n then ls[|ls| - n..] else ls }

  function Newlines(s: seq<byte>): nat {
    if |s| == 0 then 0 else (if s[0] == NEWLINE then 1 else 0) + Newlines(s[1..])
  }

  /** Lines as written: each ended by a newline, alone or after a carriage return, and then an
      unterminated rest. */
  function WriteLines(ls: seq<(seq<byte>, bool)>, rest: seq<byte>): seq<byte> {
    if |ls| == 0 then rest
    else ls[0].0 + (if ls[0].1 then [RETURN, NEWLINE] else [NEWLINE]) + WriteLines(ls[1..], rest)
  }

  function Texts(ls: seq<(seq<byte>, bool)>): seq<seq<byte>> {
    if |ls| == 0 then [] else [ls[0].0] + Texts(ls[1..])
  }

  predicate Writable(l: (seq<byte>, bool)) {
    NEWLINE !in l.0 && (!l.1 && |l.0| > 0 ==> l.0[|l.0| - 1] != RETURN)
  }

  lemma {:induction false} LineIsTaken(current: seq<byte>, l: seq<byte>, s: seq<byte>)
    requires NEWLINE !in l
    ensures LinesFrom(current, l + s) == LinesFrom(current + l, s)
    decreases |l|
  {
    if |l| == 0 {
      assert l + s == s && current + l == current;
    } else {
      assert (l + s)[1..] == l[1..] + s && l[0] in l;
      LineIsTaken(current + [l[0]], l[1..], s);
      assert current + [l[0]] + l[1..] == current + l;
    }
  }

  lemma LineIsRead(l: (seq<byte>, bool), after: seq<byte>)
    requires Writable(l)
    ensures Lines(l.0 + (if l.1 then [RETURN, NEWLINE] else [NEWLINE]) + after) == [l.0] + Lines(after)
  {
    var line := if l.1 then l.0 + [RETURN] else l.0;
    var rest := [NEWLINE] + after;
    assert l.0 + (if l.1 then [RETURN, NEWLINE] else [NEWLINE]) + after == line + rest;
    LineIsTaken([], line, rest);
    assert [] + line == line && rest[1..] == after && rest[0] == NEWLINE;
    assert Strip(line) == l.0;
  }

  lemma RestIsRead(rest: seq<byte>)
    requires NEWLINE !in rest
    ensures Lines(rest) == if rest == [] then [] else [rest]
  {
    LineIsTaken([], rest, []);
    assert rest + [] == rest && [] + rest == rest;
  }

  /** Reading back what was written: whichever line ends were used, the lines of a text are the
      lines it was written from, and the unterminated rest counts if it is not empty. */
  lemma {:induction false} LinesOfWritten(ls: seq<(seq<byte>, bool)>, rest: seq<byte>)
    requires (forall i :: 0 <= i < |ls| ==> Writable(ls[i])) && NEWLINE !in rest
    ensures Lines(WriteLines(ls, rest)) == Texts(ls) + (if rest == [] then [] else [rest])
    decreases |ls|
  {
    hide Lines, Writable;
    if |ls| == 0 {
      RestIsRead(rest);
    } else {
      LinesOfWritten(ls[1..], rest);
      LineIsRead(ls[0], WriteLines(ls[1..], rest));
      assert [ls[0].0] + (Texts(ls[1..]) + (if rest == [] then [] else [rest]))
          == Texts(ls) + (if rest == [] then [] else [rest]);
    }
  }

  // ---------------------------------------------------------------- lemmas

  lemma {:induction false} NewlinesConcat(a: seq<byte>, b: seq<byte>)
    ensures Newlines(a + b) == Newlines(a) + Newlines(b)
    decreases |a|
  {
    if |a| == 0 {
      assert a + b == b;
    } else {
      NewlinesConcat(a[1..], b);
      assert (a + b)[1..] == a[1..] + b;
    }
  }

  lemma {:induction false} LinesAtLeastNewlines(current: seq<byte>, s: seq<byte>)
    ensures |LinesFrom(current, s)| >= Newlines(s)
    decreases |s|
  {
    if |s| > 0 {
      LinesAtLeastNewlines(if s[0] == NEWLINE then [] else current + [s[0]], s[1..]);
    }
  }

  /** Whatever precedes a text, the lines after its first newline are its last lines. */
  lemma {:induction false} TailLinesShared(b: seq<byte>, ca: seq<byte>, cb: seq<byte>, n: nat)
    requires Newlines(b) > n
    ensures LastOf(LinesFrom(ca, b), n) == LastOf(LinesFrom(cb, b), n)
    decreases |b|
  {
    if b[0] == NEWLINE {
      var rest := LinesFrom([], b[1..]);
      LinesAtLeastNewlines([], b[1..]);
      assert LastOf([Strip(ca)] + rest, n) == LastOf(rest, n) == LastOf([Strip(cb)] + rest, n);
    } else {
      TailLinesShared(b[1..], ca + [b[0]], cb + [b[0]], n);
    }
  }

  /** Enough newlines in a suffix make the rest of the text irrelevant. */
  lemma {:induction false} SuffixSuffices(current: seq<byte>, a: seq<byte>, b: seq<byte>, n: nat)
    requires Newlines(b) > n
    ensures LastOf(LinesFrom(current, a + b), n) == LastOf(Lines(b), n)
    decreases |a|
  {
    if |a| == 0 {
      assert a + b == b;
      TailLinesShared(b, current, [], n);
    } else {
      assert (a + b)[1..] == a[1..] + b;
      if a[0] == NEWLINE {
        SuffixSuffices([], a[1..], b, n);
        var rest := LinesFrom([], a[1..] + b);
        LinesAtLeastNewlines([], a[1..] + b);
        NewlinesConcat(a[1..], b);
        assert LastOf([Strip(current)] + rest, n) == LastOf(rest, n);
      } else {
        SuffixSuffices(current + [a[0]], a[1..], b, n);
      }
    }
  }

  /** The reader is right to want one newline more than lines: with exactly as many, the
      oldest line may be cut. */
  lemma OneFewerIsNotEnough()
    ensures var a: seq<byte> := [97];
            var b: seq<byte> := [98, NEWLINE];
            Newlines(b) == 1 && LastOf(Lines(a + b), 1) != LastOf(Lines(b), 1)
  {
    var a: seq<byte> := [97];
    var b: seq<byte> := [98, NEWLINE];
    assert (a + b)[1..] == b && b[1..] == [NEWLINE] && [NEWLINE][1..] == [];
    assert forall c: seq<byte> :: LinesFrom(c, [NEWLINE]) == [Strip(c)];
    assert LinesFrom([97], b) == LinesFrom([97] + [98], [NEWLINE]);
    assert LinesFrom([], b) == LinesFrom([] + [98], [NEWLINE]);
    assert Newlines([NEWLINE]) == 1 && Newlines(b) == 1;
    assert Lines(a + b) == LinesFrom([] + [97], b);
    assert Strip([97] + [98])[0] == 97 && Strip([] + [98])[0] == 98;
    assert Lines(a + b)[0] != Lines(b)[0];
  }

  // ---------------------------------------------------------------- the reader

  function Reverse<T>(s: seq<T>): seq<T> { if |s| == 0 then [] else Reverse(s[1..]) + [s[0]] }

  function Concat(cs: seq<seq<byte>>): seq<byte> { if |cs| == 0 then [] else cs[0] + Concat(cs[1..]) }

  lemma {:induction false} ReverseSnoc<T>(s: seq<T>, x: T)
    ensures Reverse(s + [x]) == [x] + Reverse(s)
    decreases |s|
  {
    if |s| == 0 {
      assert s + [x] == [x];
    } else {
      ReverseSnoc(s[1..], x);
      assert (s + [x])[1..] == s[1..] + [x];
    }
  }

  method CountNewlines(chunk: seq<byte>) returns (n: nat)
    ensures n == Newlines(chunk)
  {
    n := 0;
    var i := |chunk|;
    while i > 0
      invariant 0 <= i <= |chunk| && n == Newlines(chunk[i..])
    {
      i := i - 1;
      assert chunk[i..][1..] == chunk[i + 1..];
      if chunk[i] == NEWLINE { n := n + 1; }
    }
  }

  /** `read_last_log_lines`: for every file and every limit, the last lines of the whole file. */
  method ReadLastLines(file: seq<byte>, maxLines: nat) returns (lines: seq<seq<byte>>, len: nat)
    ensures lines == LastOf(Lines(file), maxLines)
    ensures len == |file|
  {
    len := |file|;
    if len == 0 || maxLines == 0 {
      assert LastOf(Lines(file), maxLines) == [];
      return [], len;
    }
    var pos := len;
    var chunks: seq<seq<byte>> := [];
    var newlines := 0;
    while pos > 0 && newlines <= maxLines
      invariant 0 <= pos <= len
      invariant Concat(Reverse(chunks)) == file[pos..]
      invariant newlines == Newlines(file[pos..])
      decreases pos
    {
      var readLen := if CHUNK_SIZE < pos then CHUNK_SIZE else pos;
      var start := pos - readLen;
      var chunk := file[start..pos];
      var found := CountNewlines(chunk);
      ReverseSnoc(chunks, chunk);
      NewlinesConcat(chunk, file[pos..]);
      assert file[start..] == chunk + file[pos..];
      pos := start;
      newlines := newlines + found;
      chunks := chunks + [chunk];
    }
    var bytes := Concat(Reverse(chunks));
    lines := LinesFrom([], bytes);
    if |lines| > maxLines {
      lines := lines[|lines| - maxLines..];
    }
    if pos > 0 {
      SuffixSuffices([], file[..pos], file[pos..], maxLines);
      assert file == file[..pos] + file[pos..];
    }
  }
}
