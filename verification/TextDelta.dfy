/** Text deltas: the part of a new value that grew, cut on grapheme-cluster boundaries. */
module TextDeltas {
  import opened Common

  const ZERO_WIDTH_JOINER: char := '\U{200d}'

  predicate IsClusterExtension(c: char) {
    var n := c as int;
    || 0x0300 <= n <= 0x036f
    || 0x1ab0 <= n <= 0x1aff
    || 0x1dc0 <= n <= 0x1dff
    || 0x20d0 <= n <= 0x20ff
    || 0xfe00 <= n <= 0xfe0f
    || 0xfe20 <= n <= 0xfe2f
    || 0x1f3fb <= n <= 0x1f3ff
    || 0xe0100 <= n <= 0xe01ef
  }

  /** A new cluster starts between these two neighbours. */
  predicate Breaks(a: char, b: char) {
    !IsClusterExtension(b) && b != ZERO_WIDTH_JOINER && a != ZERO_WIDTH_JOINER
  }

  function Last(s: string): char
    requires s != ""
  {
    s[|s| - 1]
  }

  function Concat(parts: seq<string>): string {
    if parts == [] then "" else Concat(parts[..|parts| - 1]) + parts[|parts| - 1]
  }

  /** The last cluster takes one more character. */
  function Extended(parts: seq<string>, c: char): seq<string>
    requires parts != []
  {
    parts[..|parts| - 1] + [parts[|parts| - 1] + [c]]
  }

  /** The clusters of a value, grown one character at a time. */
  function Clusters(s: string): (r: seq<string>)
    ensures s == "" <==> r == []
  {
    if |s| == 0 then []
    else if |s| == 1 then [s]
    else
      var before := Clusters(s[..|s| - 1]);
      if Breaks(s[|s| - 2], s[|s| - 1]) then before + [[s[|s| - 1]]] else Extended(before, s[|s| - 1])
  }

  lemma ClustersStep(s: string, c: char)
    requires s != ""
    ensures Clusters(s + [c]) == if Breaks(Last(s), c) then Clusters(s) + [[c]] else Extended(Clusters(s), c)
  {
    assert (s + [c])[..|s|] == s;
  }

  // ---------------------------------------------------------------- what a clustering is

  /** One cluster: at least one character, and nowhere to break it. */
  predicate Atomic(w: string) {
    |w| == 1 || (|w| > 1 && Atomic(w[..|w| - 1]) && !Breaks(w[|w| - 2], w[|w| - 1]))
  }

  /** Clusters side by side, with a break between each and the next. */
  predicate Clustering(parts: seq<string>) {
    parts == [] || (
      var prior, w := parts[..|parts| - 1], parts[|parts| - 1];
      Clustering(prior) && Atomic(w) && (prior == [] || (prior[|prior| - 1] != "" && Breaks(Last(prior[|prior| - 1]), w[0]))))
  }

  /** The same, position by position. */
  lemma {:induction false} AtomicMeans(w: string)
    ensures Atomic(w) <==> |w| > 0 && forall i, j :: 0 <= i < j < |w| && j == i + 1 ==> !Breaks(w[i], w[j])
  {
    if |w| > 1 {
      AtomicMeans(w[..|w| - 1]);
      assert Atomic(w) ==> forall i, j :: 0 <= i < j < |w| && j == i + 1 ==> !Breaks(w[i], w[j]) by {
        assert forall i, j :: 0 <= i < j < |w| && j == i + 1 ==> w[i] == w[..|w| - 1][i] && (j < |w| - 1 ==> w[j] == w[..|w| - 1][j]);
      }
    }
  }

  lemma AtomicStep(w: string, c: char)
    requires w != ""
    ensures Atomic(w + [c]) <==> Atomic(w) && !Breaks(Last(w), c)
  {
    assert (w + [c])[..|w|] == w;
  }

  lemma ClusteringStep(parts: seq<string>, w: string)
    requires Clustering(parts) && Atomic(w)
    requires parts == [] || (parts[|parts| - 1] != "" && Breaks(Last(parts[|parts| - 1]), w[0]))
    ensures Clustering(parts + [w])
  {
    assert (parts + [w])[..|parts|] == parts;
  }

  lemma ClusteringExtended(parts: seq<string>, c: char)
    requires parts != [] && Clustering(parts) && parts[|parts| - 1] != "" && !Breaks(Last(parts[|parts| - 1]), c)
    ensures Clustering(Extended(parts, c))
  {
    var prior, w := parts[..|parts| - 1], parts[|parts| - 1];
    AtomicStep(w, c);
    ClusteringStep(prior, w + [c]);
  }

  lemma ConcatAppend(parts: seq<string>, w: string)
    ensures Concat(parts + [w]) == Concat(parts) + w
  {
    assert (parts + [w])[..|parts|] == parts;
  }

  lemma ConcatExtended(parts: seq<string>, c: char)
    requires parts != []
    ensures Concat(Extended(parts, c)) == Concat(parts) + [c]
  {
    ConcatAppend(parts[..|parts| - 1], parts[|parts| - 1] + [c]);
  }

  lemma {:induction false} ConcatJoin(a: seq<string>, b: seq<string>)
    ensures Concat(a + b) == Concat(a) + Concat(b)
  {
    if b == [] {
      assert a + b == a;
    } else {
      var prior, last := b[..|b| - 1], b[|b| - 1];
      ConcatJoin(a, prior);
      assert a + b == (a + prior) + [last];
      ConcatAppend(a + prior, last);
      assert Concat(a) + Concat(prior) + last == Concat(a) + (Concat(prior) + last);
    }
  }

  lemma ClusteringEnds(parts: seq<string>)
    requires parts != [] && Clustering(parts)
    ensures parts[|parts| - 1] != "" && Concat(parts) != "" && Last(Concat(parts)) == Last(parts[|parts| - 1])
  {
  }

  /** One more character keeps a cutting one that breaks exactly where it should. */
  lemma OneMoreCharacter(t: string, c: char, parts: seq<string>)
    requires t != "" && Clustering(parts) && Concat(parts) == t
    ensures parts != []
    ensures
      var longer := if Breaks(Last(t), c) then parts + [[c]] else Extended(parts, c);
      Clustering(longer) && Concat(longer) == t + [c]
  {
    ClusteringEnds(parts);
    if Breaks(Last(t), c) {
      ConcatAppend(parts, [c]);
      ClusteringStep(parts, [c]);
    } else {
      ConcatExtended(parts, c);
      ClusteringExtended(parts, c);
    }
  }

  lemma OneCharacter(s: string)
    requires |s| == 1
    ensures Clustering([s]) && Concat([s]) == s
  {
    assert [s][..0] == [] && Concat([]) + s == s;
  }

  lemma {:induction false} ClustersCluster(s: string)
    ensures Clustering(Clusters(s)) && Concat(Clusters(s)) == s
  {
    if |s| > 1 {
      var t, c := s[..|s| - 1], s[|s| - 1];
      assert s == t + [c];
      ClustersCluster(t);
      ClustersStep(t, c);
      OneMoreCharacter(t, c, Clusters(t));
    } else if |s| == 1 {
      OneCharacter(s);
    }
  }

  /** A cutting whose last piece is a single character was one before that character came. */
  lemma SingleAtTheEnd(rest: seq<string>, w: string)
    requires Clustering(rest + [w]) && |w| == 1 && rest != [] && Clusters(Concat(rest)) == rest
    ensures Clusters(Concat(rest + [w])) == rest + [w]
  {
    var parts := rest + [w];
    assert parts[..|parts| - 1] == rest && w == [w[0]];
    ClusteringEnds(rest);
    ConcatAppend(rest, w);
    ClustersStep(Concat(rest), w[0]);
  }

  lemma LongerAtTheEnd(rest: seq<string>, u: string, c: char)
    requires u != "" && Clustering(rest + [u]) && !Breaks(Last(u), c) && Clusters(Concat(rest + [u])) == rest + [u]
    ensures Clusters(Concat(rest + [u + [c]])) == rest + [u + [c]]
  {
    var shorter := rest + [u];
    assert shorter[..|shorter| - 1] == rest;
    assert Extended(shorter, c) == rest + [u + [c]];
    ConcatExtended(shorter, c);
    ClusteringEnds(shorter);
    ClustersStep(Concat(shorter), c);
  }

  lemma {:induction false} ClusteringIsUnique(parts: seq<string>)
    requires Clustering(parts)
    ensures Clusters(Concat(parts)) == parts
    decreases |Concat(parts)|
  {
    if parts != [] {
      var rest, w := parts[..|parts| - 1], parts[|parts| - 1];
      assert parts == rest + [w];
      ClusteringEnds(parts);
      ConcatAppend(rest, w);
      if |w| == 1 {
        if rest == [] {
          OneCharacter(w);
          assert parts == [w];
        } else {
          ClusteringIsUnique(rest);
          SingleAtTheEnd(rest, w);
        }
      } else {
        var u, c := w[..|w| - 1], w[|w| - 1];
        assert w == u + [c];
        ShorterClustering(parts);
        ConcatAppend(rest, u);
        ClusteringIsUnique(rest + [u]);
        LongerAtTheEnd(rest, u, c);
      }
    }
  }

  lemma ShorterClustering(parts: seq<string>)
    requires parts != [] && Clustering(parts) && |parts[|parts| - 1]| > 1
    ensures
      var w := parts[|parts| - 1];
      Clustering(parts[..|parts| - 1] + [w[..|w| - 1]]) && !Breaks(Last(w[..|w| - 1]), Last(w))
  {
    var rest, w := parts[..|parts| - 1], parts[|parts| - 1];
    ClusteringStep(rest, w[..|w| - 1]);
  }

  /**
    The clusters of a value are exactly the one way to cut it into pieces that break between
    neighbours and nowhere inside.
   */
  lemma ClustersAreTheClustering(s: string, parts: seq<string>)
    ensures parts == Clusters(s) <==> Clustering(parts) && Concat(parts) == s
  {
    ClustersCluster(s);
    if Clustering(parts) && Concat(parts) == s {
      ClusteringIsUnique(parts);
    }
  }

  lemma ScanStep(value: string, start: nat, i: nat, clusters: seq<string>)
    requires start < i < |value| && Clusters(value[..i]) == clusters + [value[start..i]]
    ensures Clusters(value[..i + 1]) ==
      if Breaks(value[i - 1], value[i]) then clusters + [value[start..i]] + [value[i..i + 1]] else clusters + [value[start..i + 1]]
  {
    var c, current := value[i], value[start..i];
    ClustersStep(value[..i], c);
    assert value[..i + 1] == value[..i] + [c];
    assert current + [c] == value[start..i + 1] && [c] == value[i..i + 1];
    assert (clusters + [current])[..|clusters|] == clusters;
  }

  /** Scans the value once, cutting before each character that starts a cluster. */
  method GraphemeClusters(value: string) returns (clusters: seq<string>)
    ensures clusters == Clusters(value)
  {
    if value == "" {
      return [];
    }
    clusters := [];
    var start := 0;
    var previousWasJoiner := value[0] == ZERO_WIDTH_JOINER;
    assert value[..1] == value[0..1] == [value[0]];
    for i := 1 to |value|
      invariant 0 <= start < i
      invariant previousWasJoiner == (value[i - 1] == ZERO_WIDTH_JOINER)
      invariant Clusters(value[..i]) == clusters + [value[start..i]]
    {
      ScanStep(value, start, i, clusters);
      if !IsClusterExtension(value[i]) && value[i] != ZERO_WIDTH_JOINER && !previousWasJoiner {
        clusters := clusters + [value[start..i]];
        start := i;
      }
      previousWasJoiner := value[i] == ZERO_WIDTH_JOINER;
    }
    assert value[..|value|] == value;
    clusters := clusters + [value[start..]];
  }

  // ---------------------------------------------------------------- the delta

  function CommonPrefix(a: seq<string>, b: seq<string>): nat {
    if a == [] || b == [] || a[0] != b[0] then 0 else 1 + CommonPrefix(a[1..], b[1..])
  }

  function CommonSuffix(a: seq<string>, b: seq<string>, limit: nat): nat {
    if limit == 0 || a == [] || b == [] || a[|a| - 1] != b[|b| - 1] then 0
    else 1 + CommonSuffix(a[..|a| - 1], b[..|b| - 1], limit - 1)
  }

  /** The longest common prefix: equal up to there, different right after. */
  lemma {:induction false} CommonPrefixIsLongest(a: seq<string>, b: seq<string>)
    ensures
      var p := CommonPrefix(a, b);
      && p <= |a| && p <= |b| && (forall i :: 0 <= i < p ==> a[i] == b[i])
      && (p < |a| && p < |b| ==> a[p] != b[p])
  {
    if a != [] && b != [] && a[0] == b[0] {
      CommonPrefixIsLongest(a[1..], b[1..]);
      var q := CommonPrefix(a[1..], b[1..]);
      assert forall i :: 0 < i < q + 1 ==> a[i] == a[1..][i - 1] && b[i] == b[1..][i - 1];
    }
  }

  /** The longest common suffix within a limit. */
  lemma {:induction false} CommonSuffixIsLongest(a: seq<string>, b: seq<string>, limit: nat)
    requires limit <= |a| && limit <= |b|
    ensures
      var q := CommonSuffix(a, b, limit);
      && q <= limit && (forall i :: |a| - q <= i < |a| ==> a[i] == b[i - |a| + |b|])
      && (q < limit ==> a[|a| - q - 1] != b[|b| - q - 1])
  {
    if limit > 0 && a[|a| - 1] == b[|b| - 1] {
      CommonSuffixIsLongest(a[..|a| - 1], b[..|b| - 1], limit - 1);
    }
  }

  function PrefixLength(b: seq<string>, c: seq<string>): (p: nat)
    ensures p <= |b| && p <= |c|
  {
    CommonPrefixIsLongest(b, c);
    CommonPrefix(b, c)
  }

  /** The common suffix may not reach into the common prefix of either value. */
  function SuffixLength(b: seq<string>, c: seq<string>): (q: nat)
    ensures PrefixLength(b, c) + q <= |b| && PrefixLength(b, c) + q <= |c|
  {
    var limit := Min(|b|, |c|) - PrefixLength(b, c);
    CommonSuffixIsLongest(b, c, limit);
    CommonSuffix(b, c, limit)
  }

  function Middle(x: seq<string>, p: nat, q: nat): (m: seq<string>)
    requires p + q <= |x|
    ensures |m| == |x| - p - q
  {
    x[p..|x| - q]
  }

  function Front(x: seq<string>, p: nat): (r: seq<string>)
    requires p <= |x|
    ensures |r| == p
  {
    x[..p]
  }

  function End(x: seq<string>, q: nat): (r: seq<string>)
    requires q <= |x|
    ensures |r| == q
  {
    x[|x| - q..]
  }

  /** The general path, for a baseline that may be empty. */
  function Growth(baseline: string, current: string): Option<string> {
    var b, c := Clusters(baseline), Clusters(current);
    var p, q := PrefixLength(b, c), SuffixLength(b, c);
    if |Middle(c, p, q)| <= |Middle(b, p, q)| then None else Some(Concat(Middle(c, p, q)))
  }

  function Delta(baseline: string, current: string): Option<string> {
    if baseline == "" then if current == "" then None else Some(current) else Growth(baseline, current)
  }

  method TextDelta(baseline: string, current: string) returns (delta: Option<string>)
    ensures delta == Delta(baseline, current)
  {
    if baseline == "" {
      return if current == "" then None else Some(current);
    }
    var b := GraphemeClusters(baseline);
    var c := GraphemeClusters(current);
    var prefix := PrefixLength(b, c);
    var suffix := SuffixLength(b, c);
    if |c| - prefix - suffix <= |b| - prefix - suffix {
      return None;
    }
    return Some(Concat(c[prefix..|c| - suffix]));
  }

  // ---------------------------------------------------------------- what the delta means

  lemma InThree(x: seq<string>, p: nat, q: nat)
    requires p + q <= |x|
    ensures x == Front(x, p) + Middle(x, p, q) + End(x, q)
  {
  }

  /** The prefix is shared, and could not be longer. */
  lemma SharedPrefix(b: seq<string>, c: seq<string>)
    ensures
      var p := PrefixLength(b, c);
      Front(b, p) == Front(c, p) && (p < |b| && p < |c| ==> b[p] != c[p])
  {
    CommonPrefixIsLongest(b, c);
  }

  lemma SameEnd(b: seq<string>, c: seq<string>, q: nat)
    requires q <= |b| && q <= |c| && forall i :: |b| - q <= i < |b| ==> b[i] == c[i - |b| + |c|]
    ensures End(b, q) == End(c, q)
  {
    var x, y := End(b, q), End(c, q);
    forall i | 0 <= i < |x| ensures x[i] == y[i] {
      assert b[|b| - q + i] == c[|c| - q + i];
    }
  }

  /** The suffix is shared, and could not be longer without reaching into the prefix. */
  lemma SharedSuffix(b: seq<string>, c: seq<string>)
    ensures
      var p, q := PrefixLength(b, c), SuffixLength(b, c);
      && End(b, q) == End(c, q)
      && (p + q < |b| && p + q < |c| ==> b[|b| - q - 1] != c[|c| - q - 1])
  {
    var q := SuffixLength(b, c);
    CommonSuffixIsLongest(b, c, Min(|b|, |c|) - PrefixLength(b, c));
    SameEnd(b, c, q);
  }

  lemma Concat3(a: seq<string>, b: seq<string>, c: seq<string>)
    ensures Concat(a + b + c) == Concat(a) + Concat(b) + Concat(c)
  {
    ConcatJoin(a + b, c);
    ConcatJoin(a, b);
  }

  lemma {:induction false} PrefixIsClustering(parts: seq<string>, n: nat)
    requires n <= |parts| && Clustering(parts)
    ensures Clustering(parts[..n])
  {
    if n < |parts| {
      PrefixIsClustering(parts[..|parts| - 1], n);
      assert parts[..|parts| - 1][..n] == parts[..n];
    } else {
      assert parts[..n] == parts;
    }
  }

  lemma {:induction false} SuffixIsClustering(parts: seq<string>, m: nat)
    requires m <= |parts| && Clustering(parts)
    ensures Clustering(parts[m..])
  {
    if m < |parts| {
      var prior, w := parts[..|parts| - 1], parts[|parts| - 1];
      SuffixIsClustering(prior, m);
      assert parts[m..] == prior[m..] + [w];
      ClusteringStep(prior[m..], w);
    }
  }

  /** A run of neighbouring clusters, taken out of its value, keeps its clusters. */
  lemma MiddleClusters(s: string, p: nat, q: nat)
    requires p + q <= |Clusters(s)|
    ensures Clusters(Concat(Middle(Clusters(s), p, q))) == Middle(Clusters(s), p, q)
  {
    var parts := Clusters(s);
    ClustersCluster(s);
    PrefixIsClustering(parts, |parts| - q);
    SuffixIsClustering(parts[..|parts| - q], p);
    assert parts[..|parts| - q][p..] == Middle(parts, p, q);
    ClusteringIsUnique(Middle(parts, p, q));
  }

  /** A value put together again from its first p clusters, its middle ones and its last q. */
  function Rejoined(x: seq<string>, p: nat, q: nat): string
    requires p + q <= |x|
  {
    Concat(Front(x, p)) + Concat(Middle(x, p, q)) + Concat(End(x, q))
  }

  /** A value is its first p clusters, its middle ones and its last q, put side by side. */
  lemma CutInThree(s: string, p: nat, q: nat)
    requires p + q <= |Clusters(s)|
    ensures s == Rejoined(Clusters(s), p, q)
  {
    var x := Clusters(s);
    ClustersCluster(s);
    InThree(x, p, q);
    Concat3(Front(x, p), Middle(x, p, q), End(x, q));
  }

  /** A delta exists exactly when the value has more clusters than before. */
  lemma DeltaIsNetGrowth(baseline: string, current: string)
    ensures Delta(baseline, current).Some? <==> |Clusters(current)| > |Clusters(baseline)|
  {
    ShortcutAgrees(baseline, current);
  }

  /** The delta is the current middle, and it has more clusters than the middle it replaces. */
  lemma DeltaIsTheMiddle(baseline: string, current: string)
    requires Delta(baseline, current).Some?
    ensures
      var b, c := Clusters(baseline), Clusters(current);
      var p, q := PrefixLength(b, c), SuffixLength(b, c);
      Delta(baseline, current).value == Concat(Middle(c, p, q)) && |Middle(c, p, q)| > |Middle(b, p, q)|
  {
    ShortcutAgrees(baseline, current);
  }

  /** The shortcut for an empty baseline is what the general path would have given. */
  lemma ShortcutAgrees(baseline: string, current: string)
    ensures Delta(baseline, current) == Growth(baseline, current)
  {
    if baseline == "" {
      var c := Clusters(current);
      ClustersCluster(current);
      assert PrefixLength([], c) == 0 && SuffixLength([], c) == 0;
      assert Middle(c, 0, 0) == c;
    }
  }

  /** Text appended after a break is the delta, whole. */
  lemma AppendedTextIsTheDelta(baseline: string, added: string)
    requires baseline != "" && added != "" && Breaks(Last(baseline), added[0])
    ensures Delta(baseline, baseline + added) == Some(added)
  {
    var b, a := Clusters(baseline), Clusters(added);
    ClustersCluster(added);
    ClustersSplit(baseline, added);
    PrefixOfItself(b, a);
    assert Middle(b + a, |b|, 0) == a;
  }

  /** Clusters are local: cutting at a break cuts the clusters. */
  lemma {:induction false} ClustersSplit(s: string, t: string)
    requires s != "" && t != "" && Breaks(Last(s), t[0])
    ensures Clusters(s + t) == Clusters(s) + Clusters(t)
  {
    var u, c := t[..|t| - 1], t[|t| - 1];
    assert t == u + [c];
    var x, y := Clusters(s), Clusters(u);
    if u == "" {
      assert t == [c];
      ClustersStep(s, c);
    } else {
      ClustersSplit(s, u);
      assert s + t == (s + u) + [c];
      ClustersStep(s + u, c);
      ClustersStep(u, c);
      assert Last(s + u) == Last(u);
      ExtendedJoin(x, y, c);
      assert (x + y) + [[c]] == x + (y + [[c]]);
    }
  }

  lemma ExtendedJoin(x: seq<string>, y: seq<string>, c: char)
    requires y != []
    ensures Extended(x + y, c) == x + Extended(y, c)
  {
    assert (x + y)[..|x + y| - 1] == x + y[..|y| - 1];
  }

  lemma {:induction false} PrefixOfItself(b: seq<string>, a: seq<string>)
    ensures CommonPrefix(b, b + a) == |b|
  {
    if b != [] {
      PrefixOfItself(b[1..], a);
      assert (b + a)[1..] == b[1..] + a;
    }
  }
}
