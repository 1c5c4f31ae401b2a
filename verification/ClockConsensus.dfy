/** Clock quorum: the largest group of time sources that agree, and the median it reports. */
module ClockConsensus {
  import opened Base

  const AGREEMENT: int := 2_500
  const U64_MAX: int := 0xFFFF_FFFF_FFFF_FFFF

  datatype Sample = Sample(offset: int, rtt: nat)

  datatype SourceResult = SourceResult(offset: Option<int>, rtt: Option<nat>)

  /** Sources that answered with both an offset and a round-trip time. */
  function ValidSamples(rs: seq<SourceResult>): seq<Sample> {
    if |rs| == 0 then []
    else
      var tail := ValidSamples(rs[1..]);
      if rs[0].offset.Some? && rs[0].rtt.Some? then [Sample(rs[0].offset.value, rs[0].rtt.value)] + tail else tail
  }

  predicate Sorted(s: seq<Sample>) { forall i, k :: 0 <= i < k < |s| ==> s[i].offset <= s[k].offset }

  function Insert(x: Sample, s: seq<Sample>): seq<Sample> {
    if |s| == 0 || x.offset <= s[0].offset then [x] + s else [s[0]] + Insert(x, s[1..])
  }

  /** The stable sort by offset of the standard library. */
  function SortByOffset(s: seq<Sample>): seq<Sample> {
    if |s| == 0 then [] else Insert(s[0], SortByOffset(s[1..]))
  }

  lemma {:induction false} InsertAdds(x: Sample, s: seq<Sample>)
    ensures multiset(Insert(x, s)) == multiset(s) + multiset{x}
    decreases |s|
  {
    if |s| == 0 || x.offset <= s[0].offset {
    } else {
      InsertAdds(x, s[1..]);
      assert s == [s[0]] + s[1..];
    }
  }

  lemma {:induction false} InsertSorted(x: Sample, s: seq<Sample>)
    requires Sorted(s)
    ensures Sorted(Insert(x, s))
    decreases |s|
  {
    if |s| == 0 || x.offset <= s[0].offset {
    } else {
      InsertSorted(x, s[1..]);
      InsertAdds(x, s[1..]);
      var tail := Insert(x, s[1..]);
      forall y | y in tail ensures s[0].offset <= y.offset {
        assert y in multiset(tail);
        assert y == x || y in s[1..];
      }
    }
  }

  /** The samples are only reordered, and come out by offset. */
  lemma {:induction false} SortIsSorted(s: seq<Sample>)
    ensures Sorted(SortByOffset(s)) && multiset(SortByOffset(s)) == multiset(s)
    decreases |s|
  {
    if |s| > 0 {
      SortIsSorted(s[1..]);
      InsertSorted(s[0], SortByOffset(s[1..]));
      InsertAdds(s[0], SortByOffset(s[1..]));
      assert s == [s[0]] + s[1..];
    }
  }

  /** The spread test as compiled: an i64 subtraction that wraps. */
  predicate Agrees(v: seq<Sample>, a: nat, b: nat)
    requires a < b <= |v|
  {
    WrapI64(v[b - 1].offset - v[a].offset) <= AGREEMENT
  }

  /** The spread test as meant. */
  predicate Close(v: seq<Sample>, a: nat, b: nat)
    requires a < b <= |v|
  {
    v[b - 1].offset - v[a].offset <= 2_500
  }

  /** `[lo, hi)` is the first longest agreeing window. */
  predicate BestWindow(v: seq<Sample>, lo: nat, hi: nat) {
    && lo <= hi <= |v|
    && (lo < hi ==> Agrees(v, lo, hi))
    && (forall a, b :: 0 <= a < b <= |v| && Agrees(v, a, b) ==> b - a < hi - lo || (b - a == hi - lo && lo <= a))
  }

  /** The nested window search of `consensus`. */
  method FindWindow(v: seq<Sample>) returns (lo: nat, hi: nat)
    ensures BestWindow(v, lo, hi)
  {
    lo, hi := 0, 0;
    for start := 0 to |v|
      invariant lo <= hi <= |v| && lo <= start
      invariant lo < hi ==> Agrees(v, lo, hi)
      invariant forall a, b :: 0 <= a < start && a < b <= |v| && Agrees(v, a, b) ==>
                  b - a < hi - lo || (b - a == hi - lo && lo <= a)
    {
      for end := start + 1 to |v| + 1
        invariant lo <= hi <= |v| && lo <= start
        invariant lo < hi ==> Agrees(v, lo, hi)
        invariant forall a, b :: 0 <= a < b <= |v| && (a < start || (a == start && b < end)) && Agrees(v, a, b) ==>
                    b - a < hi - lo || (b - a == hi - lo && lo <= a)
      {
        if Agrees(v, start, end) && end - start > hi - lo {
          lo, hi := start, end;
        }
      }
    }
  }

  lemma WindowBounds(v: seq<Sample>, lo: nat, hi: nat)
    requires BestWindow(v, lo, hi)
    ensures lo <= hi <= |v|
  {
  }

  function TruncHalf(x: int): int { if x >= 0 then x / 2 else -((-x) / 2) }

  /** Middle sample, or the truncated mean of the two middle ones. */
  function Median(v: seq<Sample>, lo: nat, hi: nat): int
    requires lo < hi <= |v|
  {
    var n := hi - lo;
    if n % 2 == 1 then v[lo + n / 2].offset
    else TruncHalf(SaturateI64(v[lo + n / 2 - 1].offset + v[lo + n / 2].offset))
  }

  function MaxRtt(v: seq<Sample>): (m: nat)
    ensures forall s :: s in v ==> s.rtt <= m
    ensures |v| > 0 ==> exists s :: s in v && s.rtt == m
  {
    if |v| == 0 then 0
    else
      var m := MaxRtt(v[1..]);
      assert v == [v[0]] + v[1..];
      if v[0].rtt >= m then v[0].rtt else m
  }

  datatype Quorum = Quorum(offset: Option<int>, uncertainty: Option<int>, count: nat)

  /** What the search must report for sorted samples `v` whose best window is `[lo, hi)`. */
  function Report(v: seq<Sample>, lo: nat, hi: nat): Quorum
    requires lo <= hi <= |v|
  {
    if hi - lo < 2 then Quorum(None, None, |v|)
    else
      var spread := v[hi - 1].offset - v[lo].offset;
      Quorum(Some(Median(v, lo, hi)),
             Some(Min(1_000 + MaxRtt(v[lo..hi]) / 2 + Abs(WrapI64(spread)) / 2, U64_MAX)),
             hi - lo)
  }

  function Abs(x: int): nat { if x < 0 then -x else x }

  /** `q` is what the first longest agreeing window of `v` yields. */
  predicate IsConsensus(v: seq<Sample>, q: Quorum) {
    exists lo, hi :: 0 <= lo <= hi <= |v| && BestWindow(v, lo, hi) && q == Report(v, lo, hi)
  }

  /** `consensus`. */
  method Consensus(results: seq<SourceResult>) returns (q: Quorum)
    ensures IsConsensus(SortByOffset(ValidSamples(results)), q)
  {
    hide WrapI64, Median, BestWindow;
    var v := SortByOffset(ValidSamples(results));
    var lo, hi := FindWindow(v);
    assert lo <= hi <= |v| by { WindowBounds(v, lo, hi); }
    if hi - lo < 2 {
      q := Quorum(None, None, |v|);
    } else {
      var spread := Abs(WrapI64(v[hi - 1].offset - v[lo].offset));
      var rtt := MaxRtt(v[lo..hi]);
      var uncertainty := Min(Min(1_000 + rtt / 2, U64_MAX) + spread / 2, U64_MAX);
      q := Quorum(Some(Median(v, lo, hi)), Some(uncertainty), hi - lo);
    }
    assert BestWindow(v, lo, hi) && q == Report(v, lo, hi);
  }

  // ---------------------------------------------------------------- optimality

  /** The whole range of offsets is representable, so no spread wraps. */
  predicate NoWrap(v: seq<Sample>) { |v| > 0 ==> v[|v| - 1].offset - v[0].offset <= I64_MAX }

  /** The chosen window really agrees if and only if the offsets span at most an i64: a
      wider span makes the wrapped test accept everything. */
  lemma WindowAgreesIffNoWrap(v: seq<Sample>, lo: nat, hi: nat)
    requires Sorted(v) && BestWindow(v, lo, hi) && |v| > 0
    requires forall s :: s in v ==> I64_MIN <= s.offset <= I64_MAX
    ensures lo < hi
    ensures Close(v, lo, hi) <==> NoWrap(v)
  {
    assert Agrees(v, 0, 1);
    assert v[0] in v && v[|v| - 1] in v;
    if NoWrap(v) {
      assert v[0].offset <= v[lo].offset <= v[hi - 1].offset <= v[|v| - 1].offset;
    } else {
      assert Agrees(v, 0, |v|);
    }
  }

  /** A group of samples that mutually agree. */
  ghost predicate MutuallyClose(m: multiset<Sample>) {
    forall x, y :: x in m && y in m ==> x.offset - y.offset <= 2_500
  }

  lemma FirstIn(v: seq<Sample>, m: multiset<Sample>) returns (a: nat)
    requires m != multiset{} && m <= multiset(v)
    ensures a < |v| && v[a] in m && forall i :: 0 <= i < a ==> v[i] !in m
  {
    var x :| x in m;
    assert x in multiset(v);
    var k :| 0 <= k < |v| && v[k] == x;
    a := 0;
    while v[a] !in m
      invariant a <= k
      invariant forall i :: 0 <= i < a ==> v[i] !in m
      decreases k - a
    {
      a := a + 1;
    }
  }

  lemma LastIn(v: seq<Sample>, m: multiset<Sample>) returns (b: nat)
    requires m != multiset{} && m <= multiset(v)
    ensures 0 < b <= |v| && v[b - 1] in m && forall i :: b <= i < |v| ==> v[i] !in m
  {
    var x :| x in m;
    assert x in multiset(v);
    var k :| 0 <= k < |v| && v[k] == x;
    b := |v|;
    while v[b - 1] !in m
      invariant k < b <= |v|
      invariant forall i :: b <= i < |v| ==> v[i] !in m
      decreases b - k
    {
      b := b - 1;
    }
  }

  lemma SubmultisetSize<T>(a: multiset<T>, b: multiset<T>)
    requires a <= b
    ensures |a| <= |b|
  {
    assert b == a + (b - a);
  }

  /** Everything of `m` lies in the index range between its first and last occurrence. */
  lemma RangeContains(v: seq<Sample>, m: multiset<Sample>, a: nat, b: nat)
    requires m <= multiset(v) && a <= b <= |v|
    requires forall i :: 0 <= i < a || b <= i < |v| ==> v[i] !in m
    ensures m <= multiset(v[a..b])
  {
    assert v == v[..a] + v[a..b] + v[b..];
    assert multiset(v) == multiset(v[..a]) + multiset(v[a..b]) + multiset(v[b..]);
    forall x ensures m[x] <= multiset(v[a..b])[x] {
      if x in m {
        assert x !in v[..a] && x !in v[b..];
        assert multiset(v[..a])[x] == 0 && multiset(v[b..])[x] == 0;
      }
    }
  }

  lemma GroupFitsRange(v: seq<Sample>, m: multiset<Sample>, a: nat, b: nat)
    requires m <= multiset(v) && a <= b <= |v|
    requires forall i :: 0 <= i < a || b <= i < |v| ==> v[i] !in m
    ensures |m| <= b - a
  {
    RangeContains(v, m, a, b);
    SubmultisetSize(m, multiset(v[a..b]));
    assert |multiset(v[a..b])| == b - a;
  }

  /** Optimality: no group of mutually agreeing samples, contiguous or not, is larger than
      the chosen window. */
  lemma WindowIsOptimal(v: seq<Sample>, lo: nat, hi: nat, m: multiset<Sample>)
    requires Sorted(v) && BestWindow(v, lo, hi) && NoWrap(v)
    requires m <= multiset(v)
    requires MutuallyClose(m)
    ensures |m| <= hi - lo
  {
    if m == multiset{} {
      WindowBounds(v, lo, hi);
    } else {
      var a := FirstIn(v, m);
      var b := LastIn(v, m);
      GroupFitsRange(v, m, a, b);
      assert v[b - 1].offset - v[a].offset <= AGREEMENT;
      hide MutuallyClose;
      assert 0 <= v[b - 1].offset - v[a].offset <= I64_MAX by {
        assert v[0].offset <= v[a].offset <= v[b - 1].offset <= v[|v| - 1].offset;
      }
      assert Agrees(v, a, b);
    }
  }

  /** The saturating sum of the two middle offsets does not pull the mean out of the window. */
  predicate MedianFits(v: seq<Sample>, lo: nat, hi: nat)
    requires lo < hi <= |v|
  {
    (hi - lo) % 2 == 1 ||
    var sum := v[lo + (hi - lo) / 2 - 1].offset + v[lo + (hi - lo) / 2].offset;
    (sum > I64_MAX ==> v[lo].offset <= I64_MAX / 2) && (sum < I64_MIN ==> v[hi - 1].offset >= I64_MIN / 2)
  }

  /** The reported offset lies inside the window it was taken from exactly when the
      saturating mean fits. */
  lemma MedianInside(v: seq<Sample>, lo: nat, hi: nat)
    requires Sorted(v) && lo < hi <= |v|
    ensures v[lo].offset <= Median(v, lo, hi) <= v[hi - 1].offset <==> MedianFits(v, lo, hi)
  {
    var n := hi - lo;
    if n % 2 == 1 {
      assert v[lo].offset <= v[lo + n / 2].offset <= v[hi - 1].offset;
    } else {
      var x, y := v[lo + n / 2 - 1].offset, v[lo + n / 2].offset;
      assert v[lo].offset <= x <= y <= v[hi - 1].offset;
    }
  }

  lemma MajoritiesMeet(v: multiset<Sample>, a: multiset<Sample>, b: multiset<Sample>) returns (x: Sample)
    requires a <= v && b <= v && |a| + |b| > |v|
    ensures x in a && x in b
  {
    if a !! b {
      assert a + b <= v;
      SubmultisetSize(a + b, v);
    }
    x :| x in a && x in b;
  }

  lemma SliceWithin(v: seq<Sample>, lo: nat, hi: nat)
    requires lo <= hi <= |v|
    ensures multiset(v[lo..hi]) <= multiset(v)
    ensures |multiset(v[lo..hi])| == hi - lo && |multiset(v)| == |v|
  {
    assert v == v[..lo] + v[lo..hi] + v[hi..];
  }

  /** The best window holds more than half of the samples if some agreeing group does, so
      it shares a sample with that group. */
  lemma MajorityMeetsWindow(v: seq<Sample>, lo: nat, hi: nat, m: multiset<Sample>) returns (k: nat)
    requires Sorted(v) && BestWindow(v, lo, hi) && NoWrap(v)
    requires m <= multiset(v) && 2 * |m| > |v|
    requires MutuallyClose(m)
    ensures |m| <= hi - lo && lo <= k < hi && v[k] in m
  {
    WindowIsOptimal(v, lo, hi, m);
    hide BestWindow, WrapI64, Sorted, NoWrap, MutuallyClose;
    WindowBounds(v, lo, hi);
    SliceWithin(v, lo, hi);
    var x := MajoritiesMeet(multiset(v), m, multiset(v[lo..hi]));
    assert x in v[lo..hi];
    var i :| 0 <= i < hi - lo && v[lo..hi][i] == x;
    k := lo + i;
  }

  /** Robustness: if more than half of the valid sources agree with each other, the search
      reports an offset, and it is within the agreement bound of one of them. */
  lemma MajorityIsHeard(v: seq<Sample>, lo: nat, hi: nat, m: multiset<Sample>) returns (x: Sample)
    requires Sorted(v) && BestWindow(v, lo, hi) && NoWrap(v)
    requires m <= multiset(v) && 2 <= |m| && 2 * |m| > |v|
    requires MutuallyClose(m)
    requires lo < hi ==> MedianFits(v, lo, hi)
    ensures x in m
    ensures lo <= hi <= |v|
    ensures Report(v, lo, hi).offset.Some? && -2_500 <= Report(v, lo, hi).offset.value - x.offset <= 2_500
  {
    hide Median, MaxRtt, MutuallyClose, MedianFits;
    var k := MajorityMeetsWindow(v, lo, hi, m);
    x := v[k];
    MedianInside(v, lo, hi);
    assert v[0].offset <= v[lo].offset <= v[k].offset <= v[hi - 1].offset <= v[|v| - 1].offset;
  }

  // ---------------------------------------------------------------- in terms of the argument

  /** Offsets whose pairwise sums and differences fit an i64. */
  predicate InRange(v: seq<Sample>) { forall s :: s in v ==> I64_MIN / 2 <= s.offset <= I64_MAX / 2 }

  lemma RangeSuffices(v: seq<Sample>)
    requires InRange(v)
    ensures NoWrap(v)
    ensures forall lo: nat, hi: nat :: lo < hi <= |v| ==> MedianFits(v, lo, hi)
  {
    if |v| > 0 {
      assert v[0] in v && v[|v| - 1] in v;
    }
    forall lo: nat, hi: nat | lo < hi <= |v| ensures MedianFits(v, lo, hi) {
      if (hi - lo) % 2 == 0 {
        assert v[lo + (hi - lo) / 2 - 1] in v && v[lo + (hi - lo) / 2] in v;
      }
    }
  }

  lemma SortedInRange(s: seq<Sample>)
    requires InRange(s)
    ensures InRange(SortByOffset(s)) && |SortByOffset(s)| == |s|
  {
    SortIsSorted(s);
    var v := SortByOffset(s);
    assert |multiset(v)| == |multiset(s)|;
    forall x | x in v ensures x in s {
      assert x in multiset(v);
    }
  }

  /** Robustness of the whole search: whatever the sources answer within the range, if two or
      more of the valid answers agree and are more than half of them, an offset is reported,
      within 2500 ms of one of them. */
  lemma MajorityDecides(results: seq<SourceResult>, q: Quorum, m: multiset<Sample>) returns (x: Sample)
    requires InRange(ValidSamples(results)) && IsConsensus(SortByOffset(ValidSamples(results)), q)
    requires m <= multiset(ValidSamples(results)) && 2 <= |m| && 2 * |m| > |ValidSamples(results)|
    requires MutuallyClose(m)
    ensures x in m && q.offset.Some? && -2_500 <= q.offset.value - x.offset <= 2_500
  {
    var s := ValidSamples(results);
    var v := SortByOffset(s);
    SortIsSorted(s);
    SortedInRange(s);
    RangeSuffices(v);
    var lo, hi :| 0 <= lo <= hi <= |v| && BestWindow(v, lo, hi) && q == Report(v, lo, hi);
    hide SortByOffset, ValidSamples, BestWindow, Sorted, NoWrap, MedianFits, InRange, MutuallyClose;
    x := MajorityIsHeard(v, lo, hi, m);
  }

  predicate AllI64(v: seq<Sample>) { forall s :: s in v ==> I64_MIN <= s.offset <= I64_MAX }

  /** A spread that wraps makes the window the whole list, so the bound holds there too. */
  lemma NoGroupIsLarger(v: seq<Sample>, lo: nat, hi: nat, m: multiset<Sample>)
    requires Sorted(v) && AllI64(v) && BestWindow(v, lo, hi)
    requires m <= multiset(v) && MutuallyClose(m)
    ensures |m| <= hi - lo
  {
    if NoWrap(v) {
      WindowIsOptimal(v, lo, hi, m);
    } else {
      assert v[0] in v && v[|v| - 1] in v;
      assert Agrees(v, 0, |v|);
      SubmultisetSize(m, multiset(v));
      assert |multiset(v)| == |v|;
    }
  }

  lemma SortedI64(s: seq<Sample>)
    requires AllI64(s)
    ensures AllI64(SortByOffset(s))
  {
    SortIsSorted(s);
    forall x | x in SortByOffset(s) ensures x in s {
      assert x in multiset(SortByOffset(s));
    }
  }

  /** Upper bound of the whole search: whatever the sources answer, no agreeing group of valid
      answers is larger than the quorum reported, and without a report no two of them agree. */
  lemma QuorumIsLargest(results: seq<SourceResult>, q: Quorum, m: multiset<Sample>)
    requires AllI64(ValidSamples(results)) && IsConsensus(SortByOffset(ValidSamples(results)), q)
    requires m <= multiset(ValidSamples(results)) && MutuallyClose(m)
    ensures if q.offset.Some? then |m| <= q.count else |m| <= 1
  {
    var s := ValidSamples(results);
    var v := SortByOffset(s);
    SortIsSorted(s);
    SortedI64(s);
    var lo, hi :| 0 <= lo <= hi <= |v| && BestWindow(v, lo, hi) && q == Report(v, lo, hi);
    hide SortByOffset, ValidSamples, BestWindow, Sorted, AllI64, MutuallyClose, Median, MaxRtt, WrapI64;
    NoGroupIsLarger(v, lo, hi, m);
  }

  lemma WindowIsClose(v: seq<Sample>, lo: nat, hi: nat)
    requires Sorted(v) && lo < hi <= |v| && Close(v, lo, hi)
    ensures MutuallyClose(multiset(v[lo..hi]))
  {
    forall x, y | x in multiset(v[lo..hi]) && y in multiset(v[lo..hi]) ensures x.offset - y.offset <= AGREEMENT {
      var i :| lo <= i < hi && v[i] == x;
      var k :| lo <= k < hi && v[k] == y;
      assert v[lo].offset <= v[k].offset && v[i].offset <= v[hi - 1].offset;
    }
  }

  /** The bound is attained: within the range a report stands for an agreeing group of exactly
      the reported size, and its offset lies between two members of that group. */
  lemma QuorumIsAttained(results: seq<SourceResult>, q: Quorum) returns (m: multiset<Sample>, x: Sample, y: Sample)
    requires InRange(ValidSamples(results)) && IsConsensus(SortByOffset(ValidSamples(results)), q) && q.offset.Some?
    ensures m <= multiset(ValidSamples(results)) && MutuallyClose(m) && |m| == q.count
    ensures x in m && y in m && x.offset <= q.offset.value <= y.offset
  {
    var s := ValidSamples(results);
    var v := SortByOffset(s);
    SortIsSorted(s);
    SortedInRange(s);
    RangeSuffices(v);
    var lo, hi :| 0 <= lo <= hi <= |v| && BestWindow(v, lo, hi) && q == Report(v, lo, hi);
    assert forall w :: w in v ==> I64_MIN <= w.offset <= I64_MAX;
    hide SortByOffset, ValidSamples, BestWindow, Sorted, NoWrap, MedianFits, MutuallyClose, Median, MaxRtt, WrapI64;
    WindowAgreesIffNoWrap(v, lo, hi);
    WindowIsClose(v, lo, hi);
    MedianInside(v, lo, hi);
    SliceWithin(v, lo, hi);
    m, x, y := multiset(v[lo..hi]), v[lo], v[hi - 1];
    assert x == v[lo..hi][0] && y == v[lo..hi][hi - lo - 1];
  }

  /** Half of the window lies at or below the middle and half at or above it. */
  lemma MedianSplits(v: seq<Sample>, lo: nat, hi: nat)
    requires Sorted(v) && InRange(v) && lo < hi <= |v|
    ensures forall i :: lo <= i <= lo + (hi - lo - 1) / 2 ==> v[i].offset <= Median(v, lo, hi)
    ensures forall i :: lo + (hi - lo) / 2 <= i < hi ==> Median(v, lo, hi) <= v[i].offset
  {
    var n := hi - lo;
    var x, y := v[lo + (n - 1) / 2], v[lo + n / 2];
    assert x in v && y in v && x.offset <= y.offset;
    assert n % 2 == 0 ==> (n - 1) / 2 == n / 2 - 1;
    assert x.offset <= Median(v, lo, hi) <= y.offset;
    hide Median;
  }

  /** `q` is a centre of the group `g`, listed in order: at least half of it lies at or below the
      offset and at least half at or above; the uncertainty is one second, half the slowest round
      trip and half the distance between the extremes. */
  predicate Centres(g: seq<Sample>, q: Quorum, slow: nat) {
    && Sorted(g) && slow < |g| && q.offset.Some? && q.count == |g|
    && (forall i :: 0 <= i <= (|g| - 1) / 2 ==> g[i].offset <= q.offset.value)
    && (forall i :: |g| / 2 <= i < |g| ==> q.offset.value <= g[i].offset)
    && (forall i :: 0 <= i < |g| ==> g[i].rtt <= g[slow].rtt)
    && q.uncertainty == Some(Min(1_000 + g[slow].rtt / 2 + (g[|g| - 1].offset - g[0].offset) / 2, U64_MAX))
  }

  lemma {:induction false} SlowestOf(g: seq<Sample>) returns (slow: nat)
    requires |g| > 0
    ensures slow < |g| && g[slow].rtt == MaxRtt(g) && forall i :: 0 <= i < |g| ==> g[i].rtt <= g[slow].rtt
    decreases |g|
  {
    slow := 0;
    if |g| > 1 {
      var k := SlowestOf(g[1..]);
      assert g[1..][k] == g[k + 1] && forall i :: 1 <= i < |g| ==> g[i] == g[1..][i - 1];
      slow := if g[0].rtt >= g[k + 1].rtt then 0 else k + 1;
    }
  }

  lemma SliceInOrder(v: seq<Sample>, lo: nat, hi: nat)
    requires Sorted(v) && lo <= hi <= |v|
    ensures Sorted(v[lo..hi])
  {
  }

  lemma SliceSplits(v: seq<Sample>, lo: nat, hi: nat)
    requires Sorted(v) && InRange(v) && lo < hi <= |v|
    ensures var g := v[lo..hi];
            && (forall i :: 0 <= i <= (|g| - 1) / 2 ==> g[i].offset <= Median(v, lo, hi))
            && (forall i :: |g| / 2 <= i < |g| ==> Median(v, lo, hi) <= g[i].offset)
  {
    MedianSplits(v, lo, hi);
    hide Median, InRange, Sorted;
    var g := v[lo..hi];
    forall i | 0 <= i < |g|
      ensures i <= (|g| - 1) / 2 ==> g[i].offset <= Median(v, lo, hi)
      ensures |g| / 2 <= i ==> Median(v, lo, hi) <= g[i].offset
    {
      assert g[i] == v[lo + i];
    }
  }

  lemma SliceUncertainty(v: seq<Sample>, lo: nat, hi: nat)
    requires Sorted(v) && InRange(v) && lo + 2 <= hi <= |v|
    ensures Report(v, lo, hi).uncertainty ==
            Some(Min(1_000 + MaxRtt(v[lo..hi]) / 2 + (v[hi - 1].offset - v[lo].offset) / 2, U64_MAX))
    ensures Report(v, lo, hi).offset == Some(Median(v, lo, hi)) && Report(v, lo, hi).count == hi - lo
  {
    hide WrapI64, Median, MaxRtt;
    assert v[lo] in v && v[hi - 1] in v && v[lo].offset <= v[hi - 1].offset;
    var spread := v[hi - 1].offset - v[lo].offset;
    assert 0 <= spread <= I64_MAX;
    hide Sorted, InRange;
    assert WrapI64(spread) == spread;
  }

  lemma WindowCentres(v: seq<Sample>, lo: nat, hi: nat, q: Quorum) returns (slow: nat)
    requires Sorted(v) && InRange(v) && lo + 2 <= hi <= |v| && q == Report(v, lo, hi)
    ensures Centres(v[lo..hi], q, slow)
  {
    hide Median, WrapI64, MaxRtt, InRange, Sorted, Report;
    SliceInOrder(v, lo, hi);
    SliceSplits(v, lo, hi);
    SliceUncertainty(v, lo, hi);
    var g := v[lo..hi];
    slow := SlowestOf(g);
    assert g[0] == v[lo] && g[|g| - 1] == v[hi - 1];
  }

  lemma WindowGroup(v: seq<Sample>, lo: nat, hi: nat)
    requires Sorted(v) && InRange(v) && BestWindow(v, lo, hi) && lo < hi <= |v|
    ensures multiset(v[lo..hi]) <= multiset(v) && MutuallyClose(multiset(v[lo..hi]))
  {
    assert forall w :: w in v ==> I64_MIN <= w.offset <= I64_MAX;
    RangeSuffices(v);
    hide Sorted, InRange, BestWindow, NoWrap, MedianFits, MutuallyClose;
    WindowAgreesIffNoWrap(v, lo, hi);
    WindowIsClose(v, lo, hi);
    SliceWithin(v, lo, hi);
  }

  lemma ReportWindow(v: seq<Sample>, q: Quorum) returns (lo: nat, hi: nat)
    requires IsConsensus(v, q) && q.offset.Some?
    ensures lo + 2 <= hi <= |v| && BestWindow(v, lo, hi) && q == Report(v, lo, hi)
  {
    hide BestWindow, Median, MaxRtt, WrapI64;
    var a, b :| 0 <= a <= b <= |v| && BestWindow(v, a, b) && q == Report(v, a, b);
    lo, hi := a, b;
  }

  /** What a report means: within the range it is a centre, in that sense, of an agreeing group
      of exactly the reported size. */
  lemma ReportIsCentre(results: seq<SourceResult>, q: Quorum) returns (g: seq<Sample>, slow: nat)
    requires InRange(ValidSamples(results)) && IsConsensus(SortByOffset(ValidSamples(results)), q) && q.offset.Some?
    ensures multiset(g) <= multiset(ValidSamples(results)) && MutuallyClose(multiset(g))
    ensures Centres(g, q, slow)
  {
    hide SortByOffset, ValidSamples, BestWindow, Sorted, MutuallyClose, Centres, InRange, Report, IsConsensus;
    var s := ValidSamples(results);
    var v := SortByOffset(s);
    SortIsSorted(s);
    SortedInRange(s);
    var lo, hi := ReportWindow(v, q);
    WindowGroup(v, lo, hi);
    g := v[lo..hi];
    slow := WindowCentres(v, lo, hi, q);
  }

  /** Exactly the answers with both an offset and a round-trip time are heard, in order. */
  lemma {:induction false} ValidSamplesMeans(rs: seq<SourceResult>, r: SourceResult)
    ensures ValidSamples(rs + [r]) == ValidSamples(rs) +
              (match r case SourceResult(Some(o), Some(t)) => [Sample(o, t)] case _ => [])
    decreases |rs|
  {
    if |rs| == 0 {
      assert rs + [r] == [r] && [r][1..] == [];
      assert ValidSamples([r][1..]) == [];
    } else {
      ValidSamplesMeans(rs[1..], r);
      assert (rs + [r])[1..] == rs[1..] + [r];
    }
  }

  function Answer(offset: int, rtt: nat): SourceResult { SourceResult(Some(offset), Some(rtt)) }

  lemma PairWindow(v: seq<Sample>, lo: nat, hi: nat)
    requires |v| == 2 && BestWindow(v, lo, hi) && Agrees(v, 0, 2)
    ensures lo == 0 && hi == 2
  {
  }

  lemma PairSorted(x: int, y: int, a: nat, b: nat)
    requires x < y
    ensures SortByOffset(ValidSamples([Answer(x, a), Answer(y, b)])) == [Sample(x, a), Sample(y, b)]
    ensures SortByOffset(ValidSamples([Answer(x, a), Answer(x, b)])) == [Sample(x, a), Sample(x, b)]
  {
    forall z | z == x || z == y
      ensures SortByOffset(ValidSamples([Answer(x, a), Answer(z, b)])) == [Sample(x, a), Sample(z, b)]
    {
      var rs := [Answer(x, a), Answer(z, b)];
      assert rs[1..] == [Answer(z, b)] && rs[1..][1..] == [];
      assert ValidSamples(rs[1..]) == [Sample(z, b)];
      var s := ValidSamples(rs);
      assert s == [Sample(x, a), Sample(z, b)] && s[1..] == [Sample(z, b)] && s[1..][1..] == [];
      assert SortByOffset(s[1..]) == [Sample(z, b)];
    }
  }

  lemma PairReport(v: seq<Sample>, q: Quorum)
    requires |v| == 2 && Agrees(v, 0, 2) && IsConsensus(v, q)
    ensures q.offset == Some(TruncHalf(SaturateI64(v[0].offset + v[1].offset))) && q.count == 2
  {
    var lo, hi :| 0 <= lo <= hi <= |v| && BestWindow(v, lo, hi) && q == Report(v, lo, hi);
    PairWindow(v, lo, hi);
    hide BestWindow, WrapI64, MaxRtt, TruncHalf, SaturateI64;
  }

  /** The range is exact: two sources that read the same offset are reported as that offset if
      and only if it lies in the range. */
  lemma UnanimousPairIff(x: int, a: nat, b: nat, q: Quorum)
    requires I64_MIN <= x <= I64_MAX
    requires IsConsensus(SortByOffset(ValidSamples([Answer(x, a), Answer(x, b)])), q)
    ensures q.offset == Some(x) <==> I64_MIN / 2 <= x <= I64_MAX / 2
  {
    PairSorted(x, x + 1, a, b);
    var v := [Sample(x, a), Sample(x, b)];
    assert Agrees(v, 0, 2);
    hide IsConsensus, SortByOffset, ValidSamples;
    PairReport(v, q);
  }

  /** Two sources at opposite ends count as agreeing, because their difference wraps to minus
      one: the search reports a quorum at zero. */
  lemma OppositeEndsPassForQuorum(a: nat, b: nat, q: Quorum)
    requires IsConsensus(SortByOffset(ValidSamples([Answer(I64_MIN, a), Answer(I64_MAX, b)])), q)
    ensures q.offset == Some(0) && q.count == 2
  {
    PairSorted(I64_MIN, I64_MAX, a, b);
    var v := [Sample(I64_MIN, a), Sample(I64_MAX, b)];
    assert WrapI64(I64_MAX - I64_MIN) == -1;
    assert Agrees(v, 0, 2);
    hide IsConsensus, SortByOffset, ValidSamples, WrapI64;
    PairReport(v, q);
  }
}
