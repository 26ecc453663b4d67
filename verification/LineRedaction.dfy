/**
  Redaction of OCR lines: matches found in the joined lines are projected onto each line, so the
  lines lose exactly what the joined text loses.
 */
module LineRedaction {
  import opened Common
  import opened Schema

  const NEWLINE: byte := 10

  /** Bytes start, start + 1, ... up to but not including end. */
  datatype Range = Range(start: nat, end: nat)

  function Max(a: nat, b: nat): nat {
    if a < b then b else a
  }

  /** A position that some range covers. */
  predicate Covered(ranges: seq<Range>, x: nat) {
    ranges != [] && (ranges[|ranges| - 1].start <= x < ranges[|ranges| - 1].end || Covered(ranges[..|ranges| - 1], x))
  }

  lemma {:induction false} CoveredMeans(ranges: seq<Range>, x: nat)
    ensures Covered(ranges, x) <==> exists k :: 0 <= k < |ranges| && ranges[k].start <= x < ranges[k].end
  {
    if ranges != [] {
      CoveredMeans(ranges[..|ranges| - 1], x);
    }
  }

  function EndOf(ranges: seq<Range>): nat {
    if ranges == [] then 0 else ranges[|ranges| - 1].end
  }

  /** Ranges in order, none reaching into the next, all within n bytes. Ranges may be empty. */
  predicate InOrder(ranges: seq<Range>, n: nat) {
    ranges == [] || (
      var prior, r := ranges[..|ranges| - 1], ranges[|ranges| - 1];
      InOrder(prior, n) && EndOf(prior) <= r.start <= r.end <= n)
  }

  /** No range is empty. */
  predicate Proper(ranges: seq<Range>) {
    ranges == [] || (Proper(ranges[..|ranges| - 1]) && ranges[|ranges| - 1].start < ranges[|ranges| - 1].end)
  }

  /** What a rule finds in a text: ordered, disjoint and non-empty. */
  predicate Matches(ranges: seq<Range>, n: nat) {
    InOrder(ranges, n) && Proper(ranges)
  }

  /** The same, range by range. */
  lemma {:induction false} MatchesMeans(ranges: seq<Range>, n: nat)
    requires Matches(ranges, n)
    ensures forall k :: 0 <= k < |ranges| ==> ranges[k].start < ranges[k].end <= n
    ensures forall j, k :: 0 <= j < k < |ranges| ==> ranges[j].end <= ranges[k].start
  {
    if ranges != [] {
      var prior, r := ranges[..|ranges| - 1], ranges[|ranges| - 1];
      MatchesMeans(prior, n);
      forall j | 0 <= j < |prior| ensures ranges[j].end <= r.start {
        assert prior[j].end <= EndOf(prior);
      }
    }
  }

  lemma InOrderStep(ranges: seq<Range>, r: Range, n: nat)
    requires InOrder(ranges, n) && EndOf(ranges) <= r.start <= r.end <= n
    ensures InOrder(ranges + [r], n)
  {
    assert (ranges + [r])[..|ranges|] == ranges;
  }

  lemma ProperStep(ranges: seq<Range>, r: Range)
    requires Proper(ranges) && r.start < r.end
    ensures Proper(ranges + [r])
  {
    assert (ranges + [r])[..|ranges|] == ranges;
  }

  lemma {:induction false} InOrderPrefix(ranges: seq<Range>, i: nat, n: nat)
    requires i <= |ranges| && InOrder(ranges, n)
    ensures InOrder(ranges[..i], n) && EndOf(ranges[..i]) <= EndOf(ranges)
  {
    if i < |ranges| {
      InOrderPrefix(ranges[..|ranges| - 1], i, n);
      assert ranges[..|ranges| - 1][..i] == ranges[..i];
    } else {
      assert ranges[..i] == ranges;
    }
  }

  // ---------------------------------------------------------------- merging candidate ranges

  /** Ranges sorted by start, with those that overlap or touch made one. */
  function Merged(ranges: seq<Range>): (r: seq<Range>)
    ensures ranges == [] <==> r == []
  {
    if ranges == [] then []
    else
      var m, next := Merged(ranges[..|ranges| - 1]), ranges[|ranges| - 1];
      if m != [] && next.start <= EndOf(m)
      then m[..|m| - 1] + [Range(m[|m| - 1].start, Max(EndOf(m), next.end))]
      else m + [next]
  }

  lemma CoveredStep(ranges: seq<Range>, r: Range, x: nat)
    ensures Covered(ranges + [r], x) <==> Covered(ranges, x) || r.start <= x < r.end
  {
    assert (ranges + [r])[..|ranges|] == ranges;
  }

  predicate SortedByStart(ranges: seq<Range>) {
    forall j, k :: 0 <= j < k < |ranges| ==> ranges[j].start <= ranges[k].start
  }

  /** No range is empty, and every range ends before the next starts, with a gap between. */
  predicate Separated(ranges: seq<Range>) {
    ranges == [] || (
      var prior, r := ranges[..|ranges| - 1], ranges[|ranges| - 1];
      Separated(prior) && r.start < r.end && (prior == [] || EndOf(prior) < r.start))
  }

  lemma SeparatedStep(ranges: seq<Range>, r: Range)
    requires Separated(ranges) && r.start < r.end && (ranges == [] || EndOf(ranges) < r.start)
    ensures Separated(ranges + [r])
  {
    assert (ranges + [r])[..|ranges|] == ranges;
  }

  lemma {:induction false} SeparatedMeans(ranges: seq<Range>)
    requires Separated(ranges)
    ensures forall k :: 0 <= k < |ranges| ==> ranges[k].start < ranges[k].end
    ensures forall j, k :: 0 <= j < k < |ranges| ==> ranges[j].end < ranges[k].start
  {
    if ranges != [] {
      var prior, r := ranges[..|ranges| - 1], ranges[|ranges| - 1];
      SeparatedMeans(prior);
      forall j | 0 <= j < |prior| ensures ranges[j].end < r.start {
        assert prior[j].end <= EndOf(prior);
      }
    }
  }

  lemma MergedStep(ranges: seq<Range>)
    requires ranges != []
    ensures
      var m, next := Merged(ranges[..|ranges| - 1]), ranges[|ranges| - 1];
      Merged(ranges) ==
      if m != [] && next.start <= EndOf(m)
      then m[..|m| - 1] + [Range(m[|m| - 1].start, Max(EndOf(m), next.end))]
      else m + [next]
  {
  }

  lemma OneMoreMerged(m: seq<Range>, next: Range)
    requires Separated(m) && next.start < next.end && (m != [] ==> m[|m| - 1].start <= next.start)
    ensures
      var r := if m != [] && next.start <= EndOf(m)
               then m[..|m| - 1] + [Range(m[|m| - 1].start, Max(EndOf(m), next.end))]
               else m + [next];
      Separated(r) && r[|r| - 1].start <= next.start
  {
    if m != [] && next.start <= EndOf(m) {
      SeparatedStep(m[..|m| - 1], Range(m[|m| - 1].start, Max(EndOf(m), next.end)));
    } else {
      SeparatedStep(m, next);
    }
  }

  /** Merging gives separated ranges, the last of which starts no later than the last one merged. */
  lemma {:induction false} MergedIsSeparated(ranges: seq<Range>)
    requires SortedByStart(ranges) && Proper(ranges)
    ensures Separated(Merged(ranges))
    ensures ranges != [] ==> Merged(ranges)[|Merged(ranges)| - 1].start <= ranges[|ranges| - 1].start
  {
    if ranges != [] {
      var prior, next := ranges[..|ranges| - 1], ranges[|ranges| - 1];
      MergedIsSeparated(prior);
      assert prior != [] ==> prior[|prior| - 1].start <= next.start;
      MergedStep(ranges);
      OneMoreMerged(Merged(prior), next);
    }
  }

  /** Merging neither covers nor uncovers a position. */
  lemma {:induction false} MergedCovers(ranges: seq<Range>, x: nat)
    requires SortedByStart(ranges) && Proper(ranges)
    ensures Covered(Merged(ranges), x) <==> Covered(ranges, x)
  {
    if ranges != [] {
      var prior, next := ranges[..|ranges| - 1], ranges[|ranges| - 1];
      MergedCovers(prior, x);
      MergedIsSeparated(prior);
      var m := Merged(prior);
      if m != [] && next.start <= EndOf(m) {
        var front, last := m[..|m| - 1], m[|m| - 1];
        assert prior != [] && last.start <= next.start;
        CoveredStep(front, Range(last.start, Max(EndOf(m), next.end)), x);
      } else {
        CoveredStep(m, next, x);
      }
    }
  }

  lemma {:induction false} SeparatedMatches(ranges: seq<Range>, n: nat)
    requires Separated(ranges) && EndOf(ranges) <= n
    ensures Matches(ranges, n)
  {
    if ranges != [] {
      var prior, r := ranges[..|ranges| - 1], ranges[|ranges| - 1];
      SeparatedMatches(prior, n);
    }
  }

  lemma {:induction false} MergedEnds(ranges: seq<Range>, n: nat)
    requires forall k :: 0 <= k < |ranges| ==> ranges[k].end <= n
    ensures EndOf(Merged(ranges)) <= n
  {
    if ranges != [] {
      MergedEnds(ranges[..|ranges| - 1], n);
      MergedStep(ranges);
    }
  }

  /** Candidates sorted by their start, none empty, all in the text, merge into what redaction asks for. */
  lemma MergedMatches(ranges: seq<Range>, n: nat)
    requires SortedByStart(ranges) && Proper(ranges) && forall k :: 0 <= k < |ranges| ==> ranges[k].end <= n
    ensures Matches(Merged(ranges), n)
  {
    MergedIsSeparated(ranges);
    MergedEnds(ranges, n);
    SeparatedMatches(Merged(ranges), n);
  }

  // ---------------------------------------------------------------- replacing ranges

  /** The bytes from a position up to another that no range covers. */
  function Kept(value: Str, ranges: seq<Range>, from: nat, until: nat): Str
    requires from <= until <= |value|
    decreases until
  {
    if from == until then []
    else
      var before := Kept(value, ranges, from, until - 1);
      if Covered(ranges, until - 1) then before else before + [value[until - 1]]
  }

  /** The text with each range replaced by the marker. */
  function Replaced(value: Str, ranges: seq<Range>, marker: Str): Str
    requires InOrder(ranges, |value|)
  {
    Through(value, ranges, marker) + value[EndOf(ranges)..]
  }

  /** The same, up to and including the last range. */
  function Through(value: Str, ranges: seq<Range>, marker: Str): Str
    requires InOrder(ranges, |value|)
    decreases |ranges|
  {
    if ranges == [] then []
    else
      var prior := ranges[..|ranges| - 1];
      Through(value, prior, marker) + value[EndOf(prior)..ranges[|ranges| - 1].start] + marker
  }

  method ReplaceRanges(value: Str, ranges: seq<Range>, marker: Str) returns (redacted: Str)
    requires InOrder(ranges, |value|)
    ensures redacted == Replaced(value, ranges, marker)
  {
    if ranges == [] {
      return value;
    }
    redacted := [];
    var cursor := 0;
    assert ranges[..0] == [];
    for i := 0 to |ranges|
      invariant InOrder(ranges[..i], |value|) && cursor == EndOf(ranges[..i]) <= |value|
      invariant redacted == Through(value, ranges[..i], marker)
    {
      InOrderPrefix(ranges, i + 1, |value|);
      assert ranges[..i + 1][..i] == ranges[..i];
      redacted := redacted + value[cursor..ranges[i].start];
      redacted := redacted + marker;
      cursor := ranges[i].end;
    }
    assert ranges[..|ranges|] == ranges;
    redacted := redacted + value[cursor..];
  }

  /** Positions past the last range are not covered. */
  lemma {:induction false} PastTheEnd(ranges: seq<Range>, n: nat, x: nat)
    requires InOrder(ranges, n) && EndOf(ranges) <= x
    ensures !Covered(ranges, x)
  {
    if ranges != [] {
      PastTheEnd(ranges[..|ranges| - 1], n, x);
    }
  }

  /** A stretch no range touches is kept whole. */
  lemma {:induction false} KeptWhole(value: Str, ranges: seq<Range>, from: nat, mid: nat, until: nat)
    requires from <= mid <= until <= |value| && forall x :: mid <= x < until ==> !Covered(ranges, x)
    ensures Kept(value, ranges, from, until) == Kept(value, ranges, from, mid) + value[mid..until]
  {
    if mid < until {
      KeptWhole(value, ranges, from, mid, until - 1);
      assert value[mid..until] == value[mid..until - 1] + [value[until - 1]];
    }
  }

  /** A stretch one range covers is dropped whole. */
  lemma {:induction false} DroppedWhole(value: Str, ranges: seq<Range>, from: nat, mid: nat, until: nat)
    requires from <= mid <= until <= |value| && forall x :: mid <= x < until ==> Covered(ranges, x)
    ensures Kept(value, ranges, from, until) == Kept(value, ranges, from, mid)
  {
    if mid < until {
      DroppedWhole(value, ranges, from, mid, until - 1);
    }
  }

  /** Only what is covered matters to what is kept. */
  lemma {:induction false} KeptAgrees(value: Str, a: seq<Range>, b: seq<Range>, from: nat, until: nat)
    requires from <= until <= |value| && forall x :: from <= x < until ==> (Covered(a, x) <==> Covered(b, x))
    ensures Kept(value, a, from, until) == Kept(value, b, from, until)
    decreases until
  {
    if from < until {
      KeptAgrees(value, a, b, from, until - 1);
    }
  }

  lemma {:induction false} ThroughKeeps(value: Str, ranges: seq<Range>)
    requires InOrder(ranges, |value|)
    ensures Through(value, ranges, []) == Kept(value, ranges, 0, EndOf(ranges))
    decreases |ranges|
  {
    if ranges != [] {
      var prior, r := ranges[..|ranges| - 1], ranges[|ranges| - 1];
      var seam := EndOf(prior);
      assert InOrder(prior, |value|);
      ThroughKeeps(value, prior);
      forall x | 0 <= x < r.end ensures Covered(ranges, x) <==> (x < seam && Covered(prior, x)) || r.start <= x {
        if seam <= x {
          PastTheEnd(prior, |value|, x);
        }
      }
      KeptAgrees(value, prior, ranges, 0, seam);
      KeptWhole(value, ranges, 0, seam, r.start);
      DroppedWhole(value, ranges, 0, r.start, r.end);
    }
  }

  /** Without markers, replacing ranges leaves exactly the bytes no range covers, in order. */
  lemma ReplacedKeepsTheRest(value: Str, ranges: seq<Range>)
    requires InOrder(ranges, |value|)
    ensures Replaced(value, ranges, []) == Kept(value, ranges, 0, |value|)
  {
    ThroughKeeps(value, ranges);
    forall x | EndOf(ranges) <= x < |value| ensures !Covered(ranges, x) {
      PastTheEnd(ranges, |value|, x);
    }
    KeptWhole(value, ranges, 0, EndOf(ranges), |value|);
  }

  function Removed(ranges: seq<Range>): int {
    if ranges == [] then 0
    else Removed(ranges[..|ranges| - 1]) + (ranges[|ranges| - 1].end - ranges[|ranges| - 1].start)
  }

  /** The result is as long as the capacity reserved for it: no byte more is removed than there is. */
  lemma {:induction false} ReplacedLength(value: Str, ranges: seq<Range>, marker: Str)
    requires InOrder(ranges, |value|)
    ensures 0 <= Removed(ranges) <= EndOf(ranges) <= |value|
    ensures |Through(value, ranges, marker)| == EndOf(ranges) - Removed(ranges) + |marker| * |ranges|
    ensures |Replaced(value, ranges, marker)| == |value| - Removed(ranges) + |marker| * |ranges|
    decreases |ranges|
  {
    if ranges != [] {
      var prior := ranges[..|ranges| - 1];
      assert InOrder(prior, |value|);
      ReplacedLength(value, prior, marker);
      assert |marker| * |ranges| == |marker| * |prior| + |marker|;
    }
  }

  // ---------------------------------------------------------------- where the markers stand

  /** Where the k-th uncovered stretch stands in the result: after k markers and without k ranges. */
  function Offset(ranges: seq<Range>, marker: Str, k: nat): int
    requires k <= |ranges|
  {
    EndOf(ranges[..k]) - Removed(ranges[..k]) + |marker| * k
  }

  /** Where the k-th stretch that no range covers ends: the next range, or the end of the text. */
  function StretchEnd(n: nat, ranges: seq<Range>, k: nat): nat
    requires k <= |ranges|
  {
    if k < |ranges| then ranges[k].start else n
  }

  /** A stretch of the text stands at a place of the result, followed by these bytes, or by nothing at all. */
  predicate PieceAt(out: Str, at: int, value: Str, start: nat, end: nat, after: Str, last: bool) {
    && 0 <= at && start <= end <= |value| && at + (end - start) + |after| <= |out|
    && out[at..at + (end - start)] == value[start..end]
    && out[at + (end - start)..at + (end - start) + |after|] == after
    && (last ==> at + (end - start) + |after| == |out|)
  }

  /** The k-th uncovered stretch stands in its place, followed by one marker, or by the end after the last range. */
  predicate PieceStands(out: Str, value: Str, ranges: seq<Range>, marker: Str, k: nat)
    requires k <= |ranges|
  {
    PieceAt(out, Offset(ranges, marker, k), value, EndOf(ranges[..k]), StretchEnd(|value|, ranges, k),
            if k < |ranges| then marker else [], k == |ranges|)
  }

  lemma PrefixGrows(ranges: seq<Range>, k: nat)
    requires k < |ranges|
    ensures ranges[..k + 1] == ranges[..k] + [ranges[k]]
  {
  }

  lemma OneMoreRange(value: Str, done: seq<Range>, r: Range, marker: Str)
    requires InOrder(done + [r], |value|)
    ensures InOrder(done, |value|) && EndOf(done) <= r.start <= r.end == EndOf(done + [r]) <= |value|
    ensures Through(value, done + [r], marker) == Through(value, done, marker) + value[EndOf(done)..r.start] + marker
    ensures Removed(done + [r]) == Removed(done) + (r.end - r.start)
  {
    assert (done + [r])[..|done|] == done;
  }

  /** The pieces meet end to end: each stretch starts where the marker before it ends. */
  lemma OneMoreMarker(ranges: seq<Range>, marker: Str, k: nat)
    requires k < |ranges|
    ensures Offset(ranges, marker, k + 1) == Offset(ranges, marker, k) + (ranges[k].start - EndOf(ranges[..k])) + |marker|
  {
    PrefixGrows(ranges, k);
    var done, r := ranges[..k], ranges[k];
    assert (done + [r])[..|done|] == done;
    assert |marker| * (k + 1) == |marker| * k + |marker|;
  }

  lemma ThroughStep(value: Str, ranges: seq<Range>, marker: Str, k: nat)
    requires InOrder(ranges, |value|) && k < |ranges|
    ensures InOrder(ranges[..k], |value|) && InOrder(ranges[..k + 1], |value|)
    ensures EndOf(ranges[..k]) <= ranges[k].start <= ranges[k].end == EndOf(ranges[..k + 1]) <= |value|
    ensures Through(value, ranges[..k + 1], marker) == Through(value, ranges[..k], marker) + value[EndOf(ranges[..k])..ranges[k].start] + marker
  {
    PrefixGrows(ranges, k);
    InOrderPrefix(ranges, k + 1, |value|);
    OneMoreRange(value, ranges[..k], ranges[k], marker);
  }

  /** The text up to the k-th range is in the result as far as the k-th stretch's place. */
  lemma ThroughLength(value: Str, ranges: seq<Range>, marker: Str, k: nat)
    requires InOrder(ranges, |value|) && k <= |ranges|
    ensures InOrder(ranges[..k], |value|) && |Through(value, ranges[..k], marker)| == Offset(ranges, marker, k)
  {
    InOrderPrefix(ranges, k, |value|);
    ReplacedLength(value, ranges[..k], marker);
  }

  lemma {:induction false} ThroughBegins(value: Str, ranges: seq<Range>, marker: Str, k: nat)
    requires InOrder(ranges, |value|) && k <= |ranges|
    ensures InOrder(ranges[..k], |value|) && Through(value, ranges[..k], marker) <= Replaced(value, ranges, marker)
    decreases |ranges| - k
  {
    InOrderPrefix(ranges, k, |value|);
    if k == |ranges| {
      assert ranges[..k] == ranges;
    } else {
      ThroughBegins(value, ranges, marker, k + 1);
      ThroughStep(value, ranges, marker, k);
    }
  }

  lemma CutOut(out: Str, a: Str, b: Str, c: Str)
    requires a + b + c <= out
    ensures out[|a|..|a| + |b|] == b && out[|a| + |b|..|a| + |b| + |c|] == c
  {
    assert out[..|a| + |b| + |c|] == a + b + c;
    assert out[|a|..|a| + |b|] == out[..|a| + |b| + |c|][|a|..|a| + |b|];
    assert out[|a| + |b|..|a| + |b| + |c|] == out[..|a| + |b| + |c|][|a| + |b|..];
  }

  lemma InnerPieceIsThere(value: Str, ranges: seq<Range>, marker: Str, k: nat)
    requires InOrder(ranges, |value|) && k < |ranges|
    ensures PieceStands(Replaced(value, ranges, marker), value, ranges, marker, k)
  {
    ThroughStep(value, ranges, marker, k);
    ThroughLength(value, ranges, marker, k);
    ThroughBegins(value, ranges, marker, k + 1);
    FoundAt(Replaced(value, ranges, marker), Through(value, ranges[..k], marker), value, EndOf(ranges[..k]), ranges[k].start, marker);
  }

  lemma FoundAt(out: Str, done: Str, value: Str, start: nat, end: nat, marker: Str)
    requires start <= end <= |value| && done + value[start..end] + marker <= out
    ensures PieceAt(out, |done|, value, start, end, marker, false)
  {
    CutOut(out, done, value[start..end], marker);
  }

  lemma FoundAtTheEnd(out: Str, done: Str, value: Str, start: nat)
    requires start <= |value| && out == done + value[start..]
    ensures PieceAt(out, |done|, value, start, |value|, [], true)
  {
    assert out[|done|..] == value[start..];
  }

  lemma LastPieceIsThere(value: Str, ranges: seq<Range>, marker: Str)
    requires InOrder(ranges, |value|)
    ensures PieceStands(Replaced(value, ranges, marker), value, ranges, marker, |ranges|)
  {
    ThroughLength(value, ranges, marker, |ranges|);
    assert ranges[..|ranges|] == ranges;
    FoundAtTheEnd(Replaced(value, ranges, marker), Through(value, ranges, marker), value, EndOf(ranges));
  }

  lemma Lengthened(out: Str, done: Str, piece: Str, marker: Str)
    requires |done| + |piece| + |marker| <= |out| && out[..|done|] == done
    requires out[|done|..|done| + |piece|] == piece && out[|done| + |piece|..|done| + |piece| + |marker|] == marker
    ensures out[..|done| + |piece| + |marker|] == done + piece + marker
  {
  }

  ghost predicate AllPiecesStand(out: Str, value: Str, ranges: seq<Range>, marker: Str) {
    forall k :: 0 <= k <= |ranges| ==> PieceStands(out, value, ranges, marker, k)
  }

  lemma Lengthens(out: Str, at: int, done: Str, value: Str, start: nat, end: nat, marker: Str)
    requires PieceAt(out, at, value, start, end, marker, false) && |done| == at && out[..at] == done
    ensures at + (end - start) + |marker| <= |out| && out[..at + (end - start) + |marker|] == done + value[start..end] + marker
  {
    Lengthened(out, done, value[start..end], marker);
  }

  lemma {:induction false} PiecesDetermine(out: Str, value: Str, ranges: seq<Range>, marker: Str, k: nat)
    requires InOrder(ranges, |value|) && k <= |ranges| && AllPiecesStand(out, value, ranges, marker)
    ensures InOrder(ranges[..k], |value|)
    ensures 0 <= Offset(ranges, marker, k) <= |out| && out[..Offset(ranges, marker, k)] == Through(value, ranges[..k], marker)
  {
    if k == 0 {
      assert ranges[..0] == [];
    } else {
      var j := k - 1;
      PiecesDetermine(out, value, ranges, marker, j);
      ThroughStep(value, ranges, marker, j);
      OneMoreMarker(ranges, marker, j);
      assert PieceStands(out, value, ranges, marker, j);
      Lengthens(out, Offset(ranges, marker, j), Through(value, ranges[..j], marker), value, EndOf(ranges[..j]), ranges[j].start, marker);
    }
  }

  lemma LastPieceIs(out: Str, at: int, value: Str, start: nat)
    requires PieceAt(out, at, value, start, |value|, [], true)
    ensures 0 <= at <= |out| && out[at..] == value[start..]
  {
  }

  lemma AllButTheLast(out: Str, value: Str, ranges: seq<Range>, marker: Str)
    requires InOrder(ranges, |value|) && AllPiecesStand(out, value, ranges, marker)
    ensures 0 <= Offset(ranges, marker, |ranges|) <= |out|
    ensures out[..Offset(ranges, marker, |ranges|)] == Through(value, ranges, marker)
  {
    PiecesDetermine(out, value, ranges, marker, |ranges|);
    assert ranges[..|ranges|] == ranges;
  }

  lemma CutAt(out: Str, at: int, front: Str, back: Str)
    requires 0 <= at <= |out| && out[..at] == front && out[at..] == back
    ensures out == front + back
  {
  }

  lemma PiecesMakeTheResult(out: Str, value: Str, ranges: seq<Range>, marker: Str)
    requires InOrder(ranges, |value|) && AllPiecesStand(out, value, ranges, marker)
    ensures out == Replaced(value, ranges, marker)
  {
    var at := Offset(ranges, marker, |ranges|);
    AllButTheLast(out, value, ranges, marker);
    assert PieceStands(out, value, ranges, marker, |ranges|);
    assert ranges[..|ranges|] == ranges;
    LastPieceIs(out, at, value, EndOf(ranges));
    CutAt(out, at, Through(value, ranges, marker), value[EndOf(ranges)..]);
  }

  /**
    Where everything stands. The result is the only text in which the stretches that no range
    covers follow one another from the start to the end, with exactly one marker per range
    between each and the next.
   */
  lemma MarkersStandBetween(out: Str, value: Str, ranges: seq<Range>, marker: Str)
    requires InOrder(ranges, |value|)
    ensures out == Replaced(value, ranges, marker) <==> AllPiecesStand(out, value, ranges, marker)
  {
    if out == Replaced(value, ranges, marker) {
      forall k | 0 <= k <= |ranges| ensures PieceStands(out, value, ranges, marker, k) {
        if k < |ranges| {
          InnerPieceIsThere(value, ranges, marker, k);
        } else {
          LastPieceIsThere(value, ranges, marker);
        }
      }
    }
    if AllPiecesStand(out, value, ranges, marker) {
      PiecesMakeTheResult(out, value, ranges, marker);
    }
  }

  /** The stretches are uncovered. */
  lemma {:induction false} StretchIsUncovered(ranges: seq<Range>, n: nat, k: nat, x: nat)
    requires InOrder(ranges, n) && k <= |ranges| && EndOf(ranges[..k]) <= x < StretchEnd(n, ranges, k)
    ensures !Covered(ranges, x)
  {
    if k == |ranges| {
      assert ranges[..k] == ranges;
      PastTheEnd(ranges, n, x);
    } else {
      var prior := ranges[..|ranges| - 1];
      if k == |prior| {
        PastTheEnd(prior, n, x);
      } else {
        assert prior[..k] == ranges[..k] && prior[..k + 1] == ranges[..k + 1];
        StretchIsUncovered(prior, n, k, x);
        InOrderPrefix(prior, k + 1, n);
        assert ranges[..k + 1][..k] == ranges[..k];
      }
    }
  }

  // ---------------------------------------------------------------- lines and the joined text

  /** One recognized line of a snapshot. */
  datatype Line = Line(text: Str)

  function Joined(lines: seq<Line>): Str {
    if lines == [] then []
    else if |lines| == 1 then lines[0].text
    else Joined(lines[..|lines| - 1]) + [NEWLINE] + lines[|lines| - 1].text
  }

  /** Where a line starts in the joined text. */
  function LineStart(lines: seq<Line>, i: nat): nat
    requires i <= |lines|
  {
    if i == 0 then 0 else LineStart(lines, i - 1) + |lines[i - 1].text| + 1
  }

  lemma {:induction false} LineStartOfPrefix(lines: seq<Line>, i: nat, n: nat)
    requires i <= n <= |lines|
    ensures LineStart(lines[..n], i) == LineStart(lines, i)
  {
    if i > 0 {
      LineStartOfPrefix(lines, i - 1, n);
    }
  }

  lemma {:induction false} JoinedLength(lines: seq<Line>)
    requires lines != []
    ensures |Joined(lines)| + 1 == LineStart(lines, |lines|)
  {
    if |lines| > 1 {
      JoinedLength(lines[..|lines| - 1]);
      LineStartOfPrefix(lines, |lines| - 1, |lines| - 1);
    }
  }

  lemma JoinedFromPrior(lines: seq<Line>)
    requires |lines| > 1
    ensures
      var prior, last := lines[..|lines| - 1], lines[|lines| - 1].text;
      && Joined(lines) == Joined(prior) + ([NEWLINE] + last)
      && LineStart(lines, |lines| - 1) == |Joined(prior)| + 1
  {
    JoinedLength(lines[..|lines| - 1]);
    LineStartOfPrefix(lines, |lines| - 1, |lines| - 1);
  }

  /** Each line stands in the joined text where it should. */
  lemma {:induction false} LinesInJoined(lines: seq<Line>, i: nat)
    requires i < |lines|
    ensures LineStart(lines, i) + |lines[i].text| <= |Joined(lines)|
    ensures Joined(lines)[LineStart(lines, i)..LineStart(lines, i) + |lines[i].text|] == lines[i].text
    decreases |lines|
  {
    if |lines| > 1 {
      var prior := lines[..|lines| - 1];
      JoinedFromPrior(lines);
      if i < |lines| - 1 {
        LinesInJoined(prior, i);
        LineStartOfPrefix(lines, i, |lines| - 1);
      }
    }
  }

  /** A newline follows every line but the last. */
  lemma {:induction false} NewlineAfterLine(lines: seq<Line>, i: nat)
    requires i + 1 < |lines|
    ensures LineStart(lines, i) + |lines[i].text| < |Joined(lines)|
    ensures Joined(lines)[LineStart(lines, i) + |lines[i].text|] == NEWLINE
    decreases |lines|
  {
    var prior := lines[..|lines| - 1];
    JoinedFromPrior(lines);
    LineStartOfPrefix(lines, i, |lines| - 1);
    if i + 1 < |prior| {
      NewlineAfterLine(prior, i);
    } else {
      JoinedLength(prior);
    }
  }

  /** Every byte of the joined text lies in one line, or is the newline after one. */
  lemma {:induction false} LineOrNewline(lines: seq<Line>, x: nat) returns (i: nat)
    requires x < |Joined(lines)|
    ensures i < |lines| && LineStart(lines, i) <= x <= LineStart(lines, i) + |lines[i].text|
    ensures x == LineStart(lines, i) + |lines[i].text| ==> i + 1 < |lines| && Joined(lines)[x] == NEWLINE
    decreases |lines|
  {
    i := 0;
    if |lines| > 1 {
      var prior := lines[..|lines| - 1];
      JoinedFromPrior(lines);
      if x < |Joined(prior)| {
        i := LineOrNewline(prior, x);
        LineStartOfPrefix(lines, i, |lines| - 1);
      } else if x == |Joined(prior)| {
        i := |prior| - 1;
        JoinedLength(prior);
        LineStartOfPrefix(lines, i, |lines| - 1);
      } else {
        i := |prior|;
      }
    }
  }

  // ---------------------------------------------------------------- projecting matches onto a line

  predicate Overlaps(r: Range, start: nat, end: nat) {
    r.start < end && r.end > start
  }

  function Clipped(r: Range, start: nat, end: nat): Range
    requires start <= end && Overlaps(r, start, end)
  {
    Range(Max(r.start, start) - start, Min(r.end, end) - start)
  }

  /** The part of every overlapping match that lies in the line, counted from the line's start. */
  function Local(matches: seq<Range>, start: nat, end: nat): seq<Range>
    requires start <= end
  {
    if matches == [] then []
    else
      var before, r := Local(matches[..|matches| - 1], start, end), matches[|matches| - 1];
      if Overlaps(r, start, end) then before + [Clipped(r, start, end)] else before
  }

  lemma LocalStep(matches: seq<Range>, start: nat, end: nat)
    requires matches != [] && start <= end
    ensures
      var prior, r := matches[..|matches| - 1], matches[|matches| - 1];
      Local(matches, start, end) ==
      if Overlaps(r, start, end) then Local(prior, start, end) + [Clipped(r, start, end)] else Local(prior, start, end)
  {
  }

  /** Where the part of a match that follows others lies in the line. */
  lemma ClippedFits(r: Range, start: nat, end: nat, prior: nat)
    requires start <= end && Overlaps(r, start, end) && r.start < r.end && prior <= r.start
    ensures
      var c := Clipped(r, start, end);
      && c.start <= c.end <= end - start && start + c.end <= Max(start, r.end)
      && (prior <= start || prior - start <= c.start) && (start < end ==> c.start < c.end)
  {
  }

  lemma {:induction false} LocalKeepsOrder(matches: seq<Range>, n: nat, start: nat, end: nat)
    requires start <= end && InOrder(matches, n) && Proper(matches)
    ensures InOrder(Local(matches, start, end), end - start)
    ensures EndOf(Local(matches, start, end)) <= Max(start, EndOf(matches)) - start
    ensures Local(matches, start, end) != [] ==> start < EndOf(matches)
    decreases |matches|
  {
    if matches != [] {
      var prior, r := matches[..|matches| - 1], matches[|matches| - 1];
      var before := Local(prior, start, end);
      LocalKeepsOrder(prior, n, start, end);
      LocalStep(matches, start, end);
      if Overlaps(r, start, end) {
        ClippedFits(r, start, end, EndOf(prior));
        InOrderStep(before, Clipped(r, start, end), end - start);
      }
    }
  }

  lemma {:induction false} LocalIsProper(matches: seq<Range>, start: nat, end: nat)
    requires start < end && Proper(matches)
    ensures Proper(Local(matches, start, end))
    decreases |matches|
  {
    if matches != [] {
      var prior, r := matches[..|matches| - 1], matches[|matches| - 1];
      var before := Local(prior, start, end);
      LocalIsProper(prior, start, end);
      LocalStep(matches, start, end);
      if Overlaps(r, start, end) {
        ProperStep(before, Clipped(r, start, end));
      }
    }
  }

  /** The local ranges are in bounds, ordered and disjoint; in a non-empty line none is empty. */
  lemma LocalIsInOrder(matches: seq<Range>, n: nat, start: nat, end: nat)
    requires start <= end && Matches(matches, n)
    ensures
      var local := Local(matches, start, end);
      && InOrder(local, end - start) && (start < end ==> Proper(local))
      && (local != [] ==> start + EndOf(local) <= EndOf(matches))
  {
    LocalKeepsOrder(matches, n, start, end);
    if start < end {
      LocalIsProper(matches, start, end);
    }
  }

  /** A byte of the line is covered locally exactly when the match covers it in the joined text. */
  lemma {:induction false} LocalIsProjection(matches: seq<Range>, start: nat, end: nat, x: nat)
    requires start <= end && x < end - start
    ensures Covered(Local(matches, start, end), x) <==> Covered(matches, start + x)
    decreases |matches|
  {
    if matches != [] {
      var prior, r := matches[..|matches| - 1], matches[|matches| - 1];
      LocalIsProjection(prior, start, end, x);
      if Overlaps(r, start, end) {
        CoveredStep(Local(prior, start, end), Clipped(r, start, end), x);
      }
    }
  }

  function LineRanges(lines: seq<Line>, matches: seq<Range>, i: nat): seq<Range>
    requires i < |lines|
  {
    Local(matches, LineStart(lines, i), LineStart(lines, i) + |lines[i].text|)
  }

  /** A line that starts at a position of the joined text, with its part of each match replaced. */
  function Projected(line: Str, matches: seq<Range>, start: nat, marker: Str, n: nat): Str
    requires Matches(matches, n)
  {
    LocalIsInOrder(matches, n, start, start + |line|);
    Replaced(line, Local(matches, start, start + |line|), marker)
  }

  function RedactedLine(lines: seq<Line>, matches: seq<Range>, marker: Str, i: nat): Line
    requires i < |lines| && Matches(matches, |Joined(lines)|)
  {
    Line(Projected(lines[i].text, matches, LineStart(lines, i), marker, |Joined(lines)|))
  }

  lemma {:induction false} KeptShifted(whole: Str, part: Str, all: seq<Range>, local: seq<Range>, start: nat, n: nat)
    requires n <= |part| && start + |part| <= |whole| && whole[start..start + |part|] == part
    requires forall x :: 0 <= x < |part| ==> (Covered(local, x) <==> Covered(all, start + x))
    ensures Kept(part, local, 0, n) == Kept(whole, all, start, start + n)
    decreases n
  {
    if n > 0 {
      KeptShifted(whole, part, all, local, start, n - 1);
      assert part[n - 1] == whole[start + (n - 1)];
    }
  }

  lemma ProjectedKeepsLocal(line: Str, matches: seq<Range>, start: nat, n: nat)
    requires Matches(matches, n)
    ensures Projected(line, matches, start, [], n) == Kept(line, Local(matches, start, start + |line|), 0, |line|)
  {
    LocalIsInOrder(matches, n, start, start + |line|);
    ReplacedKeepsTheRest(line, Local(matches, start, start + |line|));
  }

  lemma ProjectedKeeps(whole: Str, line: Str, matches: seq<Range>, start: nat)
    requires Matches(matches, |whole|) && start + |line| <= |whole| && whole[start..start + |line|] == line
    ensures Projected(line, matches, start, [], |whole|) == Kept(whole, matches, start, start + |line|)
  {
    var local := Local(matches, start, start + |line|);
    ProjectedKeepsLocal(line, matches, start, |whole|);
    forall x | 0 <= x < |line| ensures Covered(local, x) <==> Covered(matches, start + x) {
      LocalIsProjection(matches, start, start + |line|, x);
    }
    KeptShifted(whole, line, matches, local, start, |line|);
  }

  /** How many matches overlap a stretch of the joined text. */
  function Overlapping(matches: seq<Range>, start: nat, end: nat): nat {
    if matches == [] then 0
    else Overlapping(matches[..|matches| - 1], start, end) + (if Overlaps(matches[|matches| - 1], start, end) then 1 else 0)
  }

  lemma {:induction false} OneLocalEach(matches: seq<Range>, start: nat, end: nat)
    requires start <= end
    ensures |Local(matches, start, end)| == Overlapping(matches, start, end)
  {
    if matches != [] {
      OneLocalEach(matches[..|matches| - 1], start, end);
    }
  }

  /**
    The lines lose what the text loses: with markers left out, a redacted line is exactly those
    of its bytes that the redacted joined text keeps; and it holds one marker for each match that
    overlaps it, standing between the stretches it keeps.
   */
  lemma LinesLoseWhatTheTextLoses(lines: seq<Line>, matches: seq<Range>, marker: Str, i: nat)
    requires i < |lines| && Matches(matches, |Joined(lines)|)
    ensures LineStart(lines, i) + |lines[i].text| <= |Joined(lines)|
    ensures RedactedLine(lines, matches, [], i).text
         == Kept(Joined(lines), matches, LineStart(lines, i), LineStart(lines, i) + |lines[i].text|)
    ensures
      var local := LineRanges(lines, matches, i);
      && |local| == Overlapping(matches, LineStart(lines, i), LineStart(lines, i) + |lines[i].text|)
      && AllPiecesStand(RedactedLine(lines, matches, marker, i).text, lines[i].text, local, marker)
  {
    var start, line := LineStart(lines, i), lines[i].text;
    LinesInJoined(lines, i);
    ProjectedKeeps(Joined(lines), line, matches, start);
    OneLocalEach(matches, start, start + |line|);
    LocalIsInOrder(matches, |Joined(lines)|, start, start + |line|);
    MarkersStandBetween(RedactedLine(lines, matches, marker, i).text, line, LineRanges(lines, matches, i), marker);
  }

  /** Some match reaches from before a position to after it. */
  predicate StrictlyInside(matches: seq<Range>, at: nat) {
    matches != [] && (Overlaps(matches[|matches| - 1], at, at) || StrictlyInside(matches[..|matches| - 1], at))
  }

  lemma {:induction false} NotInsidePastTheEnd(matches: seq<Range>, n: nat, at: nat)
    requires InOrder(matches, n) && EndOf(matches) <= at
    ensures !StrictlyInside(matches, at)
  {
    if matches != [] {
      NotInsidePastTheEnd(matches[..|matches| - 1], n, at);
    }
  }

  /** An empty line strictly inside a match becomes one marker; any other empty line stays empty. */
  lemma {:induction false} EmptyLineInsideAMatch(matches: seq<Range>, n: nat, at: nat)
    requires Matches(matches, n)
    ensures Local(matches, at, at) == if StrictlyInside(matches, at) then [Range(0, 0)] else []
    decreases |matches|
  {
    if matches != [] {
      var prior, r := matches[..|matches| - 1], matches[|matches| - 1];
      EmptyLineInsideAMatch(prior, n, at);
      if Overlaps(r, at, at) {
        NotInsidePastTheEnd(prior, n, at);
      }
    }
  }

  /** A line that no match overlaps is left as it was, even when others change. */
  lemma UntouchedLine(lines: seq<Line>, matches: seq<Range>, marker: Str, i: nat)
    requires i < |lines| && Matches(matches, |Joined(lines)|)
    ensures LineRanges(lines, matches, i) == [] ==> RedactedLine(lines, matches, marker, i) == lines[i]
  {
  }

  /** Whether a match overlaps any of the first n lines. */
  predicate AnyTouched(lines: seq<Line>, matches: seq<Range>, n: nat)
    requires n <= |lines|
  {
    n > 0 && (LineRanges(lines, matches, n - 1) != [] || AnyTouched(lines, matches, n - 1))
  }

  method RedactLine(line: Str, matches: seq<Range>, start: nat, marker: Str, ghost n: nat) returns (text: Str, changed: bool)
    requires Matches(matches, n)
    ensures text == Projected(line, matches, start, marker, n)
    ensures changed == (Local(matches, start, start + |line|) != [])
  {
    var local := Local(matches, start, start + |line|);
    LocalIsInOrder(matches, n, start, start + |line|);
    if local == [] {
      return line, false;
    }
    text := ReplaceRanges(line, local, marker);
    return text, true;
  }

  /** One turn of the loop: line i, which starts at this position, is rewritten; no other is. */
  method RedactAt(lines: array<Line>, i: nat, matches: seq<Range>, start: nat, changed: bool, marker: Str, ghost was: seq<Line>)
    returns (next: nat, changedYet: bool)
    requires i < lines.Length == |was| && lines[i] == was[i]
    requires start == LineStart(was, i) && changed == AnyTouched(was, matches, i)
    requires Matches(matches, |Joined(was)|)
    modifies lines
    ensures lines[i] == RedactedLine(was, matches, marker, i)
    ensures forall k :: 0 <= k < lines.Length && k != i ==> lines[k] == old(lines[k])
    ensures next == LineStart(was, i + 1) && changedYet == AnyTouched(was, matches, i + 1)
  {
    next := start + |lines[i].text| + 1;
    var text, touched := RedactLine(lines[i].text, matches, start, marker, |Joined(was)|);
    if touched {
      lines[i] := lines[i].(text := text);
    }
    changedYet := changed || touched;
  }

  method RedactWith(lines: array<Line>, matches: seq<Range>, marker: Str, ghost was: seq<Line>) returns (changed: bool)
    requires was == lines[..] && Matches(matches, |Joined(was)|)
    modifies lines
    ensures forall i :: 0 <= i < lines.Length ==> lines[i] == RedactedLine(was, matches, marker, i)
    ensures changed == AnyTouched(was, matches, lines.Length)
  {
    changed := false;
    var start := 0;
    for i := 0 to lines.Length
      invariant start == LineStart(was, i) && changed == AnyTouched(was, matches, i)
      invariant forall k :: 0 <= k < i ==> lines[k] == RedactedLine(was, matches, marker, k)
      invariant forall k :: i <= k < lines.Length ==> lines[k] == was[k]
    {
      start, changed := RedactAt(lines, i, matches, start, changed, marker, was);
    }
  }

  /** Redacts the lines in place with what a rule finds in their joined text. */
  method RedactLines(lines: array<Line>, find: Str -> seq<Range>, marker: Str) returns (changed: bool)
    requires Matches(find(Joined(lines[..])), |Joined(lines[..])|)
    modifies lines
    ensures
      var was, matches := old(lines[..]), find(Joined(old(lines[..])));
      && (forall i :: 0 <= i < lines.Length ==> lines[i] == RedactedLine(was, matches, marker, i))
      && changed == AnyTouched(was, matches, lines.Length)
  {
    changed := RedactWith(lines, find(Joined(lines[..])), marker, lines[..]);
  }

  /**
    From candidates to redacted lines: whatever candidates a rule has for a text, in order of
    their start, merging them and redacting the lines with the result rewrites every line.
   */
  method RedactCandidates(lines: array<Line>, candidates: Str -> seq<Range>, marker: Str) returns (changed: bool)
    requires
      var joined := Joined(lines[..]);
      var found := candidates(joined);
      SortedByStart(found) && Proper(found) && forall k :: 0 <= k < |found| ==> found[k].end <= |joined|
    modifies lines
    ensures
      var was := old(lines[..]);
      var matches := Merged(candidates(Joined(was)));
      && Matches(matches, |Joined(was)|)
      && (forall i :: 0 <= i < lines.Length ==> lines[i] == RedactedLine(was, matches, marker, i))
      && changed == AnyTouched(was, matches, lines.Length)
  {
    MergedMatches(candidates(Joined(lines[..])), |Joined(lines[..])|);
    changed := RedactLines(lines, text => Merged(candidates(text)), marker);
  }
}
