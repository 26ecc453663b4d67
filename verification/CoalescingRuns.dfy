/** What every push keeps, and what whole runs of the normalizer conserve. */
module CoalescingRuns {
  import opened Common
  import opened Schema
  import opened EventContract
  import opened Coalescing

  // ---------------------------------------------------------------- what a group stands for

  ghost predicate InHistory(h: seq<Normalized>, parts: seq<nat>) {
    && parts != []
    && (forall i :: 0 <= i < |parts| ==> parts[i] < |h|)
    && (forall i, j :: 0 <= i < j < |parts| ==> parts[i] < parts[j])
  }

  /** The accepted events at the given places, in order of acceptance. */
  function Pick(h: seq<Normalized>, parts: seq<nat>): seq<Normalized>
    requires forall i :: 0 <= i < |parts| ==> parts[i] < |h|
  {
    seq(|parts|, i requires 0 <= i < |parts| => h[parts[i]])
  }

  ghost predicate GapsWithin(h: seq<Normalized>, parts: seq<nat>, window: nat)
    requires InHistory(h, parts)
  {
    forall i, j :: 0 <= i < |parts| && j == i + 1 < |parts| ==>
      h[parts[j]].event.monoNs <= h[parts[i]].event.monoNs + window
  }

  /** Parts of one kind, none later than its predecessor by more than the kind's window. */
  ghost predicate OneBurst(h: seq<Normalized>, parts: seq<nat>, kind: PendingKind) {
    InHistory(h, parts) && SameKind(Pick(h, parts), kind) && GapsWithin(h, parts, WindowNs(kind))
  }

  /** A group whose event can still be serialized: its amount, if it has one, is finite. */
  predicate IsSound(g: Group, codec: Codec) {
    g.kind.Scroll? ==> codec.finite(AmountOf(g.event))
  }

  ghost predicate GroupOk(g: Group, h: seq<Normalized>, codec: Codec) {
    && OneBurst(h, g.parts, g.kind)
    && g.event == Combined(Pick(h, g.parts), codec) && CountSum(Pick(h, g.parts)) <= MAX_U64
    && g.last <= h[g.parts[|g.parts| - 1]].event.monoNs
    && (IsSound(g, codec) ==> g.last == h[g.parts[|g.parts| - 1]].event.monoNs)
  }

  /** An emitted event stands for one accepted event, or for one burst of them. */
  ghost predicate EmissionOk(e: Emission, h: seq<Normalized>, codec: Codec) {
    && InHistory(h, e.parts)
    && e.event == Combined(Pick(h, e.parts), codec)
    && (|e.parts| > 1 ==> exists kind :: OneBurst(h, e.parts, kind))
  }

  ghost predicate HistoryOk(h: seq<Normalized>, lastSeen: Option<nat>, codec: Codec) {
    && (forall i :: 0 <= i < |h| ==> IsPart(h[i]) && Serializable(h[i].event, codec) && lastSeen.Some? && h[i].event.monoNs <= lastSeen.value)
    && (forall i, j :: 0 <= i < j < |h| ==> h[i].event.monoNs <= h[j].event.monoNs)
  }

  ghost predicate DistinctKinds(pending: seq<Group>) {
    forall i, j :: 0 <= i < j < |pending| ==> pending[i].kind != pending[j].kind
  }

  ghost predicate Inv(s: State, codec: Codec) {
    && HistoryOk(s.history, s.lastSeen, codec)
    && DistinctKinds(s.pending)
    && (forall g :: g in s.pending ==> GroupOk(g, s.history, codec))
  }

  /** Every pending event still maps to its key or has been truncated, and no expiry test can underflow. */
  lemma PendingStaysKeyed(s: State, g: Group, codec: Codec)
    requires Inv(s, codec) && g in s.pending
    ensures IsTruncated(g.event.event) || KindOf(g.event) == Some(g.kind)
    ensures s.lastSeen.Some? && g.last <= s.lastSeen.value
    ensures IsTruncated(g.event.event) <==> g.kind.Key? && |JoinedText(Pick(s.history, g.parts))| > TEXT_FIELD_MAX_BYTES
  {
    CombinedKind(Pick(s.history, g.parts), g.kind, codec);
  }

  // ---------------------------------------------------------------- where each accepted event is

  /** How many times the accepted event at place `p` occurs among emitted events. */
  function Emitted(es: seq<Emission>, p: nat): nat {
    if es == [] then 0 else multiset(es[0].parts)[p] + Emitted(es[1..], p)
  }

  function Held(gs: seq<Group>, p: nat): nat {
    if gs == [] then 0 else multiset(gs[0].parts)[p] + Held(gs[1..], p)
  }

  lemma {:induction false} EmittedConcat(a: seq<Emission>, b: seq<Emission>, p: nat)
    ensures Emitted(a + b, p) == Emitted(a, p) + Emitted(b, p)
  {
    if a == [] {
      assert a + b == b;
    } else {
      assert (a + b)[1..] == a[1..] + b;
      EmittedConcat(a[1..], b, p);
    }
  }

  lemma {:induction false} HeldConcat(a: seq<Group>, b: seq<Group>, p: nat)
    ensures Held(a + b, p) == Held(a, p) + Held(b, p)
  {
    if a == [] {
      assert a + b == b;
    } else {
      assert (a + b)[1..] == a[1..] + b;
      HeldConcat(a[1..], b, p);
    }
  }

  ghost predicate SortedByMono(es: seq<Emission>) {
    forall i, j :: 0 <= i < j < |es| ==> MonoOf(es[i]) <= MonoOf(es[j])
  }

  lemma {:induction false} InsertKeeps(e: Emission, s: seq<Emission>)
    requires SortedByMono(s)
    ensures SortedByMono(InsertByMono(e, s))
    ensures forall x :: x in InsertByMono(e, s) <==> x == e || x in s
  {
    if s != [] && MonoOf(s[0]) < MonoOf(e) {
      InsertKeeps(e, s[1..]);
      var tail := InsertByMono(e, s[1..]);
      assert s == [s[0]] + s[1..];
      forall j | 0 <= j < |tail|
        ensures MonoOf(s[0]) <= MonoOf(tail[j])
      {
        assert tail[j] in tail;
        if tail[j] != e {
          var k :| 0 <= k < |s[1..]| && s[1..][k] == tail[j];
          assert s[k + 1] == tail[j];
        }
      }
    }
  }

  /** Sorting loses nothing, invents nothing, and orders by monotonic time. */
  lemma {:induction false} SortKeeps(s: seq<Emission>)
    ensures SortedByMono(SortByMono(s))
    ensures forall x :: x in SortByMono(s) <==> x in s
  {
    if s != [] {
      assert s == [s[0]] + s[1..];
      SortKeeps(s[1..]);
      InsertKeeps(s[0], SortByMono(s[1..]));
    }
  }

  lemma {:induction false} InsertEmitted(e: Emission, s: seq<Emission>, p: nat)
    ensures Emitted(InsertByMono(e, s), p) == multiset(e.parts)[p] + Emitted(s, p)
  {
    if s == [] || MonoOf(e) <= MonoOf(s[0]) {
      assert ([e] + s)[1..] == s;
    } else {
      InsertEmitted(e, s[1..], p);
      assert ([s[0]] + InsertByMono(e, s[1..]))[1..] == InsertByMono(e, s[1..]);
    }
  }

  lemma {:induction false} SortEmitted(s: seq<Emission>, p: nat)
    ensures Emitted(SortByMono(s), p) == Emitted(s, p)
  {
    if s != [] {
      SortEmitted(s[1..], p);
      InsertEmitted(s[0], SortByMono(s[1..]), p);
    }
  }

  lemma {:induction false} EmitAllHeld(gs: seq<Group>, p: nat)
    ensures Emitted(EmitAll(gs), p) == Held(gs, p)
  {
    if gs != [] {
      EmitAllHeld(gs[1..], p);
      assert ([Emit(gs[0])] + EmitAll(gs[1..]))[1..] == EmitAll(gs[1..]);
    }
  }

  lemma {:induction false} EmitKeeps(gs: seq<Group>)
    ensures forall e :: e in EmitAll(gs) <==> exists g :: g in gs && e == Emit(g)
  {
    if gs != [] {
      assert gs == [gs[0]] + gs[1..];
      EmitKeeps(gs[1..]);
      forall e
        ensures e in EmitAll(gs) <==> exists g :: g in gs && e == Emit(g)
      {
        if g :| g in gs && e == Emit(g) {
          assert g == gs[0] || g in gs[1..];
        }
      }
    }
  }

  lemma DrainedHeld(gs: seq<Group>, p: nat)
    ensures Emitted(Drained(gs), p) == Held(gs, p)
  {
    EmitAllHeld(gs, p);
    SortEmitted(EmitAll(gs), p);
  }

  lemma DrainIsOk(gs: seq<Group>, h: seq<Normalized>, codec: Codec)
    requires forall g :: g in gs ==> GroupOk(g, h, codec)
    ensures forall e :: e in Drained(gs) ==> EmissionOk(e, h, codec)
  {
    EmitKeeps(gs);
    SortKeeps(EmitAll(gs));
    forall e | e in Drained(gs)
      ensures EmissionOk(e, h, codec)
    {
      var g :| g in gs && e == Emit(g);
      assert OneBurst(h, e.parts, g.kind);
    }
  }

  /** Expiry splits the pending events in two; the retained ones are still in their windows. */
  lemma {:induction false} ExpirySplits(gs: seq<Group>, now: nat)
    ensures forall g :: g in RetainedOf(gs, now) <==> g in gs && !IsExpired(g, now)
    ensures forall g :: g in ExpiredOf(gs, now) <==> g in gs && IsExpired(g, now)
  {
    if gs != [] {
      assert gs == [gs[0]] + gs[1..];
      ExpirySplits(gs[1..], now);
    }
  }

  lemma {:induction false} ExpiryHeld(gs: seq<Group>, now: nat, p: nat)
    ensures Held(ExpiredOf(gs, now), p) + Held(RetainedOf(gs, now), p) == Held(gs, p)
  {
    if gs != [] {
      ExpiryHeld(gs[1..], now, p);
      assert ([gs[0]] + ExpiredOf(gs[1..], now))[1..] == ExpiredOf(gs[1..], now);
      assert ([gs[0]] + RetainedOf(gs[1..], now))[1..] == RetainedOf(gs[1..], now);
    }
  }

  lemma HeadKindIsNew(gs: seq<Group>)
    requires gs != [] && DistinctKinds(gs)
    ensures forall g :: g in gs[1..] ==> g.kind != gs[0].kind
  {
    forall g | g in gs[1..]
      ensures g.kind != gs[0].kind
    {
      var k :| 0 <= k < |gs[1..]| && gs[1..][k] == g;
      assert gs[k + 1] == g;
    }
  }

  lemma DistinctCons(g: Group, gs: seq<Group>)
    requires DistinctKinds(gs) && forall x :: x in gs ==> x.kind != g.kind
    ensures DistinctKinds([g] + gs)
  {
  }

  lemma {:induction false} RetainedDistinct(gs: seq<Group>, now: nat)
    requires DistinctKinds(gs)
    ensures DistinctKinds(RetainedOf(gs, now))
  {
    if gs != [] {
      assert DistinctKinds(gs[1..]);
      RetainedDistinct(gs[1..], now);
      HeadKindIsNew(gs);
      ExpirySplits(gs[1..], now);
      DistinctCons(gs[0], RetainedOf(gs[1..], now));
    }
  }

  // ---------------------------------------------------------------- a longer history

  lemma BurstStays(h: seq<Normalized>, n: Normalized, parts: seq<nat>, kind: PendingKind)
    requires OneBurst(h, parts, kind)
    ensures OneBurst(h + [n], parts, kind)
    ensures Pick(h + [n], parts) == Pick(h, parts)
  {
    assert Pick(h + [n], parts) == Pick(h, parts);
  }

  lemma GroupsStay(h: seq<Normalized>, n: Normalized, gs: seq<Group>, codec: Codec)
    requires forall g :: g in gs ==> GroupOk(g, h, codec)
    ensures forall g :: g in gs ==> GroupOk(g, h + [n], codec)
  {
    forall g | g in gs
      ensures GroupOk(g, h + [n], codec)
    {
      BurstStays(h, n, g.parts, g.kind);
    }
  }

  lemma EmissionStays(h: seq<Normalized>, n: Normalized, e: Emission, codec: Codec)
    requires EmissionOk(e, h, codec)
    ensures EmissionOk(e, h + [n], codec)
  {
    assert Pick(h + [n], e.parts) == Pick(h, e.parts);
    if |e.parts| > 1 {
      var kind :| OneBurst(h, e.parts, kind);
      BurstStays(h, n, e.parts, kind);
    }
  }

  lemma FieldsOf(n: Normalized, codec: Codec)
    requires Serializable(n.event, codec)
    ensures KeyCount(n) <= MAX_U64 && (n.event.data.InputScroll? ==> codec.finite(AmountOf(n)))
  {
  }

  lemma SingleIsOk(h: seq<Normalized>, n: Normalized, codec: Codec)
    requires IsPart(n) && Serializable(n.event, codec)
    ensures EmissionOk(Emission(n, [|h|]), h + [n], codec)
    ensures KindOf(n).Some? ==>
      var g := Group(n, n.event.monoNs, KindOf(n).value, [|h|]);
      GroupOk(g, h + [n], codec) && IsSound(g, codec)
  {
    assert Pick(h + [n], [|h|]) == [n];
    CombinedOfOne(n, codec);
    FieldsOf(n, codec);
    assert CountSum([n]) == KeyCount(n) by { assert [n][..0] == []; }
  }

  /** Absorbing the next event into a burst that is still open gives a longer burst. */
  lemma BurstGrows(h: seq<Normalized>, n: Normalized, parts: seq<nat>, kind: PendingKind, last: nat)
    requires OneBurst(h, parts, kind) && last <= h[parts[|parts| - 1]].event.monoNs
    requires IsPart(n) && KindOf(n) == Some(kind) && n.event.monoNs <= last + WindowNs(kind)
    ensures Pick(h + [n], parts + [|h|]) == Pick(h, parts) + [n]
    ensures OneBurst(h + [n], parts + [|h|], kind)
  {
    var longer := parts + [|h|];
    assert Pick(h + [n], longer) == Pick(h, parts) + [n];
    forall i, j | 0 <= i < |longer| && j == i + 1 < |longer|
      ensures (h + [n])[longer[j]].event.monoNs <= (h + [n])[longer[i]].event.monoNs + WindowNs(kind)
    {
      if j < |parts| {
        assert h[parts[j]].event.monoNs <= h[parts[i]].event.monoNs + WindowNs(kind);
      }
    }
  }

  /** What merging does to a group: it grows, it is spoiled and keeps its old time, or it has no room. */
  ghost predicate MergedWell(h: seq<Normalized>, n: Normalized, g: Group, merged: Merged, codec: Codec) {
    match merged
    case Into(m) =>
      var longer := Group(m, n.event.monoNs, g.kind, g.parts + [|h|]);
      GroupOk(longer, h + [n], codec) && IsSound(longer, codec)
    case Spoiled(m) =>
      var longer := Group(m, g.last, g.kind, g.parts + [|h|]);
      GroupOk(longer, h + [n], codec) && !IsSound(longer, codec)
    case Refused => HasNoRoom(g, n)
  }

  /** A group of the event's kind that cannot take in its count. */
  predicate HasNoRoom(g: Group, event: Normalized) {
    KindOf(event) == Some(g.kind) && !g.kind.TitleBurst? && KeyCount(g.event) + KeyCount(event) > MAX_U64
  }

  lemma GroupCount(g: Group, h: seq<Normalized>, codec: Codec)
    requires GroupOk(g, h, codec) && !g.kind.TitleBurst?
    ensures KeyCount(g.event) == CountSum(Pick(h, g.parts))
  {
    var parts := Pick(h, g.parts);
    assert parts[0] in parts;
  }

  lemma MergedIsOk(h: seq<Normalized>, n: Normalized, g: Group, codec: Codec)
    requires GroupOk(g, h, codec) && IsPart(n) && KindOf(n) == Some(g.kind)
    requires n.event.monoNs <= g.last + WindowNs(g.kind) && g.last <= n.event.monoNs
    ensures MergedWell(h, n, g, Merge(g.event, n, codec), codec)
  {
    var parts := Pick(h, g.parts);
    BurstGrows(h, n, g.parts, g.kind, g.last);
    MergeExtendsCombined(parts, n, g.kind, codec);
    CountsOf(parts, n, g.kind);
    if !g.kind.TitleBurst? {
      GroupCount(g, h, codec);
    }
  }

  lemma {:induction false} CountsOf(parts: seq<Normalized>, n: Normalized, kind: PendingKind)
    requires SameKind(parts, kind) && KindOf(n) == Some(kind)
    ensures CountSum(parts + [n]) == CountSum(parts) + KeyCount(n)
    ensures kind.TitleBurst? ==> CountSum(parts) == 0 && KeyCount(n) == 0
    decreases |parts|
  {
    OneMorePart(parts, n);
    if kind.TitleBurst? {
      var prior, last := parts[..|parts| - 1], parts[|parts| - 1];
      assert last in parts;
      if prior != [] {
        assert forall x :: x in prior ==> x in parts;
        CountsOf(prior, last, kind);
      }
    }
  }

  /**
    A merge is refused exactly when the summed count does not fit in 64 bits, and spoils the
    pending event exactly when the count fits and the summed amount is not finite.
   */
  lemma MergeFailsExactly(h: seq<Normalized>, g: Group, event: Normalized, codec: Codec)
    requires GroupOk(g, h, codec) && IsPart(event) && KindOf(event) == Some(g.kind)
    ensures Merge(g.event, event, codec).Refused? <==> HasNoRoom(g, event)
    ensures Merge(g.event, event, codec).Spoiled? <==>
      !HasNoRoom(g, event) && g.kind.Scroll? && !codec.finite(codec.plus(AmountOf(g.event), AmountOf(event)))
  {
    var parts := Pick(h, g.parts);
    MergeExtendsCombined(parts, event, g.kind, codec);
    if !g.kind.TitleBurst? {
      GroupCount(g, h, codec);
    }
    if g.kind.Scroll? {
      ScrollAmounts(parts, event, g.kind, codec);
    }
  }

  lemma ScrollAmounts(parts: seq<Normalized>, next: Normalized, kind: PendingKind, codec: Codec)
    requires SameKind(parts, kind) && KindOf(next) == Some(kind) && kind.Scroll?
    ensures AmountOf(Combined(parts + [next], codec)) == codec.plus(AmountOf(Combined(parts, codec)), AmountOf(next))
  {
    assert parts[0] in parts;
    OneMorePart(parts, next);
    OneMoreAmount(parts, next, codec);
  }

  // ---------------------------------------------------------------- accounting

  /** Where the accepted event at place `p` is after a call: returned, still pending, or lost. */
  function Located(o: Outcome, p: nat): nat {
    (if o.result.Ok? then Emitted(o.result.value, p) else 0) + Held(o.state.pending, p) + Emitted(o.lost, p)
  }

  function Only(p: nat, q: nat): nat {
    if p == q then 1 else 0
  }

  lemma HeldAdd(gs: seq<Group>, g: Group, p: nat)
    ensures Held(gs + [g], p) == Held(gs, p) + multiset(g.parts)[p]
  {
    HeldConcat(gs, [g], p);
    assert [g][1..] == [];
  }

  lemma EmittedAdd(es: seq<Emission>, e: Emission, p: nat)
    ensures Emitted(es + [e], p) == Emitted(es, p) + multiset(e.parts)[p]
  {
    EmittedConcat(es, [e], p);
    assert [e][1..] == [];
  }

  lemma {:induction false} HeldReplace(gs: seq<Group>, i: nat, g: Group, extra: nat, p: nat)
    requires i < |gs| && g.parts == gs[i].parts + [extra]
    ensures Held(gs[i := g], p) == Held(gs, p) + Only(p, extra)
  {
    if i == 0 {
      assert gs[0 := g][1..] == gs[1..];
    } else {
      assert gs[i := g][1..] == gs[1..][i - 1 := g];
      HeldReplace(gs[1..], i - 1, g, extra, p);
    }
  }

  /** Sorting what is returned, or keeping what is pending, moves nothing. */
  lemma ReturnedOrKept(s: State, due: seq<Emission>, e: NormalizeError, p: nat)
    ensures Located(Outcome(s, Err(e), due), p) == Emitted(due, p) + Held(s.pending, p)
    ensures Located(Outcome(s, Ok(SortByMono(due)), []), p) == Emitted(due, p) + Held(s.pending, p)
    ensures Located(Outcome(s.(pending := []), Ok(SortByMono(due + Drained(s.pending))), []), p) == Emitted(due, p) + Held(s.pending, p)
  {
    DrainedHeld(s.pending, p);
    EmittedConcat(due, Drained(s.pending), p);
    SortEmitted(due + Drained(s.pending), p);
    SortEmitted(due, p);
  }

  lemma SettleBalances(s: State, due: seq<Emission>, codec: Codec, p: nat)
    ensures Located(Settle(s, due, codec), p) == Emitted(due, p) + Held(s.pending, p)
  {
    ReturnedOrKept(s, due, EventContract, p);
  }

  lemma PassThroughBalances(s: State, due: seq<Emission>, event: Normalized, p: nat)
    requires |s.history| > 0
    ensures Located(PassThrough(s, due, event), p) == Emitted(due, p) + Held(s.pending, p) + Only(p, |s.history| - 1)
  {
    var last := Emission(event, [|s.history| - 1]);
    DrainedHeld(s.pending, p);
    EmittedConcat(due, Drained(s.pending), p);
    EmittedAdd(due + Drained(s.pending), last, p);
    SortEmitted(due + Drained(s.pending) + [last], p);
  }

  lemma NewGroupBalances(s: State, due: seq<Emission>, g: Group, codec: Codec, p: nat)
    ensures Located(Settle(s.(pending := s.pending + [g]), due, codec), p)
         == Emitted(due, p) + Held(s.pending, p) + multiset(g.parts)[p]
  {
    HeldAdd(s.pending, g, p);
    SettleBalances(s.(pending := s.pending + [g]), due, codec, p);
  }

  lemma JoinBalances(s: State, due: seq<Emission>, event: Normalized, now: nat, codec: Codec, i: nat, merged: Merged, p: nat)
    requires |s.history| > 0 && i < |s.pending|
    ensures Located(Join(s, due, event, now, codec, i, merged), p) == Emitted(due, p) + Held(s.pending, p) + Only(p, |s.history| - 1)
  {
    var part := |s.history| - 1;
    match merged {
      case Into(m) =>
        HeldReplace(s.pending, i, Grown(s, i, m, now).pending[i], part, p);
        SettleBalances(Grown(s, i, m, now), due, codec, p);
      case Refused => EmittedAdd(due, Emission(event, [part]), p);
      case Spoiled(m) => HeldReplace(s.pending, i, Grown(s, i, m, s.pending[i].last).pending[i], part, p);
    }
  }

  lemma AbsorbBalances(s: State, due: seq<Emission>, event: Normalized, kind: PendingKind, now: nat, codec: Codec, p: nat)
    requires |s.history| > 0
    ensures Located(Absorb(s, due, event, kind, now, codec), p) == Emitted(due, p) + Held(s.pending, p) + Only(p, |s.history| - 1)
  {
    var i := Find(s.pending, kind);
    if i == |s.pending| {
      NewGroupBalances(s, due, Group(event, now, kind, [|s.history| - 1]), codec, p);
    } else {
      JoinBalances(s, due, event, now, codec, i, Merge(s.pending[i].event, event, codec), p);
    }
  }

  lemma AcceptBalances(s: State, event: Normalized, now: nat, codec: Codec, p: nat)
    ensures Located(Accept(s, event, now, codec), p) == Held(s.pending, p) + Only(p, |s.history|)
  {
    var due := Drained(ExpiredOf(s.pending, now));
    var next := State(s.lastSeen, RetainedOf(s.pending, now), s.history + [event]);
    ExpiryHeld(s.pending, now, p);
    DrainedHeld(ExpiredOf(s.pending, now), p);
    if KindOf(event) == None {
      PassThroughBalances(next, due, event, p);
    } else {
      AbsorbBalances(next, due, event, KindOf(event).value, now, codec, p);
    }
  }

  predicate Accepts(s: State, raw: RawEvent, wallNs: int, monoNs: nat, random: nat, codec: Codec) {
    !(s.lastSeen.Some? && monoNs < s.lastSeen.value) && Normalize(raw, wallNs, monoNs, random, codec).Ok?
  }

  lemma AcceptExtendsHistory(s: State, event: Normalized, now: nat, codec: Codec)
    ensures Accept(s, event, now, codec).state.history == s.history + [event]
  {
  }

  /** A push accounts for every place that was pending and for the event it accepted, if it accepted one. */
  lemma PushBalances(s: State, raw: RawEvent, wallNs: int, monoNs: nat, random: nat, codec: Codec, p: nat)
    ensures
      var o := Push(s, raw, wallNs, monoNs, random, codec);
      if Accepts(s, raw, wallNs, monoNs, random, codec) then
        && o.state.history == s.history + [Normalize(raw, wallNs, monoNs, random, codec).value]
        && Located(o, p) == Held(s.pending, p) + Only(p, |s.history|)
      else o.state.history == s.history && o.state.pending == s.pending && o.result.Err? && o.lost == []
  {
    if Accepts(s, raw, wallNs, monoNs, random, codec) {
      var seen, event := s.(lastSeen := Some(monoNs)), Normalize(raw, wallNs, monoNs, random, codec).value;
      AcceptBalances(seen, event, monoNs, codec, p);
      AcceptExtendsHistory(seen, event, monoNs, codec);
      assert Push(s, raw, wallNs, monoNs, random, codec) == Accept(seen, event, monoNs, codec);
    }
  }

  // ---------------------------------------------------------------- what every push keeps

  ghost predicate OutcomeOk(o: Outcome, codec: Codec) {
    && Inv(o.state, codec)
    && (o.result.Ok? ==> SortedByMono(o.result.value) && forall e :: e in o.result.value ==> EmissionOk(e, o.state.history, codec))
  }

  ghost predicate WithinWindows(pending: seq<Group>, now: nat) {
    forall g :: g in pending ==> !IsExpired(g, now)
  }

  /** What a push that returns normally leaves behind. */
  ghost predicate Settled(o: Outcome, now: nat, codec: Codec) {
    && o.result.Ok? && o.lost == []
    && WithinWindows(o.state.pending, now) && Measurable(o.state.pending, codec)
    && (o.state.pending == [] || !AtCapacity(o.state.pending, codec))
  }

  /** What a good outcome of taking in an event is; whether or not it failed, the state is good. */
  ghost predicate TakenIn(o: Outcome, now: nat, codec: Codec) {
    && OutcomeOk(o, codec) && WithinWindows(o.state.pending, now)
    && (o.result.Ok? ==> Settled(o, now, codec))
  }

  lemma SettleIsOk(s: State, due: seq<Emission>, codec: Codec, now: nat)
    requires Inv(s, codec) && WithinWindows(s.pending, now)
    requires forall e :: e in due ==> EmissionOk(e, s.history, codec)
    ensures TakenIn(Settle(s, due, codec), now, codec)
  {
    DrainIsOk(s.pending, s.history, codec);
    SortKeeps(due + Drained(s.pending));
    SortKeeps(due);
  }

  /** After expiry: the state to work on, whose last accepted event is the incoming one, and what is due. */
  ghost predicate AfterExpiry(s: State, due: seq<Emission>, event: Normalized, now: nat, codec: Codec) {
    && Inv(s, codec) && s.lastSeen == Some(now)
    && |s.history| > 0 && s.history[|s.history| - 1] == event
    && IsPart(event) && Serializable(event.event, codec) && event.event.monoNs == now
    && WithinWindows(s.pending, now)
    && (forall e :: e in due ==> EmissionOk(e, s.history, codec))
    && (forall g :: g in s.pending ==> GroupOk(g, s.history[..|s.history| - 1], codec))
  }

  lemma ExpiryIsOk(s: State, event: Normalized, now: nat, codec: Codec)
    requires Inv(s, codec) && IsPart(event) && Serializable(event.event, codec) && event.event.monoNs == now
    requires s.lastSeen.Some? ==> s.lastSeen.value <= now
    ensures AfterExpiry(State(Some(now), RetainedOf(s.pending, now), s.history + [event]),
                        Drained(ExpiredOf(s.pending, now)), event, now, codec)
  {
    var h := s.history + [event];
    assert h[..|h| - 1] == s.history;
    ExpirySplits(s.pending, now);
    RetainedDistinct(s.pending, now);
    GroupsStay(s.history, event, s.pending, codec);
    DrainIsOk(ExpiredOf(s.pending, now), h, codec);
  }

  lemma IncomingIsOk(s: State, due: seq<Emission>, event: Normalized, now: nat, codec: Codec)
    requires AfterExpiry(s, due, event, now, codec)
    ensures EmissionOk(Emission(event, [|s.history| - 1]), s.history, codec)
    ensures KindOf(event).Some? ==>
      var g := Group(event, now, KindOf(event).value, [|s.history| - 1]);
      GroupOk(g, s.history, codec) && IsSound(g, codec)
  {
    var h := s.history[..|s.history| - 1];
    assert s.history == h + [event];
    SingleIsOk(h, event, codec);
  }

  lemma SortIsOk(due: seq<Emission>, rest: seq<Emission>, last: Emission, h: seq<Normalized>, codec: Codec)
    requires forall e :: e in due ==> EmissionOk(e, h, codec)
    requires forall e :: e in rest ==> EmissionOk(e, h, codec)
    requires EmissionOk(last, h, codec)
    ensures SortedByMono(SortByMono(due + rest + [last]))
    ensures forall e :: e in SortByMono(due + rest + [last]) ==> EmissionOk(e, h, codec)
  {
    SortKeeps(due + rest + [last]);
  }

  lemma PassThroughIsOk(s: State, due: seq<Emission>, event: Normalized, now: nat, codec: Codec)
    requires AfterExpiry(s, due, event, now, codec)
    ensures OutcomeOk(PassThrough(s, due, event), codec) && Settled(PassThrough(s, due, event), now, codec)
  {
    DrainIsOk(s.pending, s.history, codec);
    IncomingIsOk(s, due, event, now, codec);
    SortIsOk(due, Drained(s.pending), Emission(event, [|s.history| - 1]), s.history, codec);
  }

  lemma NewGroupInv(s: State, g: Group, codec: Codec)
    requires Inv(s, codec) && GroupOk(g, s.history, codec)
    requires forall j :: 0 <= j < |s.pending| ==> s.pending[j].kind != g.kind
    ensures Inv(s.(pending := s.pending + [g]), codec)
  {
  }

  lemma ReplacedInv(s: State, i: nat, g: Group, codec: Codec)
    requires Inv(s, codec) && i < |s.pending| && GroupOk(g, s.history, codec) && g.kind == s.pending[i].kind
    ensures Inv(s.(pending := s.pending[i := g]), codec)
    ensures forall x :: x in s.pending[i := g] ==> x == g || x in s.pending
  {
  }

  lemma NewGroupIsOk(s: State, due: seq<Emission>, event: Normalized, kind: PendingKind, now: nat, codec: Codec)
    requires AfterExpiry(s, due, event, now, codec) && KindOf(event) == Some(kind) && Find(s.pending, kind) == |s.pending|
    ensures
      var pending := s.pending + [Group(event, now, kind, [|s.history| - 1])];
      Inv(s.(pending := pending), codec) && WithinWindows(pending, now)
  {
    var g := Group(event, now, kind, [|s.history| - 1]);
    IncomingIsOk(s, due, event, now, codec);
    NewGroupInv(s, g, codec);
  }

  /** What is known of a group in the pending list, before the incoming event joined the history. */
  lemma LastTaken(h: seq<Normalized>)
    requires h != []
    ensures h == h[..|h| - 1] + [h[|h| - 1]]
  {
  }

  lemma GroupAt(pending: seq<Group>, h: seq<Normalized>, now: nat, i: nat, codec: Codec)
    requires i < |pending| && WithinWindows(pending, now) && forall g :: g in pending ==> GroupOk(g, h, codec)
    ensures GroupOk(pending[i], h, codec) && now <= pending[i].last + WindowNs(pending[i].kind)
  {
    assert pending[i] in pending;
  }

  lemma PendingGroup(s: State, due: seq<Emission>, event: Normalized, now: nat, i: nat, codec: Codec)
    requires AfterExpiry(s, due, event, now, codec) && i < |s.pending|
    ensures
      var h := s.history[..|s.history| - 1];
      && s.history == h + [event] && GroupOk(s.pending[i], h, codec) && IsPart(event)
      && s.pending[i].last <= event.event.monoNs == now <= s.pending[i].last + WindowNs(s.pending[i].kind)
  {
    LastTaken(s.history);
    var h := s.history[..|s.history| - 1];
    GroupAt(s.pending, h, now, i, codec);
    var p := s.pending[i].parts[|s.pending[i].parts| - 1];
    assert h[p] == s.history[p];
  }

  /** The same, of the group in its place in the pending list. */
  ghost predicate GrownWell(s: State, now: nat, i: nat, merged: Merged, codec: Codec)
    requires i < |s.pending| && |s.history| > 0
  {
    match merged
    case Into(m) => GroupOk(Grown(s, i, m, now).pending[i], s.history, codec)
    case Spoiled(m) => GroupOk(Grown(s, i, m, s.pending[i].last).pending[i], s.history, codec)
    case Refused => true
  }

  lemma WellGrown(s: State, h: seq<Normalized>, event: Normalized, i: nat, merged: Merged, codec: Codec)
    requires i < |s.pending| && s.history == h + [event] && MergedWell(h, event, s.pending[i], merged, codec)
    ensures GrownWell(s, event.event.monoNs, i, merged, codec)
  {
  }

  lemma GrownGroupIsOk(s: State, due: seq<Emission>, event: Normalized, now: nat, i: nat, codec: Codec)
    requires AfterExpiry(s, due, event, now, codec) && i < |s.pending| && KindOf(event) == Some(s.pending[i].kind)
    ensures GrownWell(s, now, i, Merge(s.pending[i].event, event, codec), codec)
  {
    var h := s.history[..|s.history| - 1];
    PendingGroup(s, due, event, now, i, codec);
    MergedIsOk(h, event, s.pending[i], codec);
    WellGrown(s, h, event, i, Merge(s.pending[i].event, event, codec), codec);
  }

  lemma GrownIsOk(s: State, now: nat, i: nat, m: Normalized, last: nat, codec: Codec)
    requires Inv(s, codec) && WithinWindows(s.pending, now) && i < |s.pending| && |s.history| > 0
    requires GroupOk(Grown(s, i, m, last).pending[i], s.history, codec) && s.pending[i].last <= last
    ensures Inv(Grown(s, i, m, last), codec) && WithinWindows(Grown(s, i, m, last).pending, now)
  {
    assert s.pending[i] in s.pending;
    ReplacedInv(s, i, Grown(s, i, m, last).pending[i], codec);
  }

  lemma NewGroupSettles(s: State, due: seq<Emission>, event: Normalized, kind: PendingKind, now: nat, codec: Codec)
    requires AfterExpiry(s, due, event, now, codec) && KindOf(event) == Some(kind) && Find(s.pending, kind) == |s.pending|
    ensures
      TakenIn(Settle(s.(pending := s.pending + [Group(event, now, kind, [|s.history| - 1])]), due, codec), now, codec)
  {
    NewGroupIsOk(s, due, event, kind, now, codec);
    SettleIsOk(s.(pending := s.pending + [Group(event, now, kind, [|s.history| - 1])]), due, codec, now);
  }

  lemma AbsorbedIntoIsOk(s: State, due: seq<Emission>, event: Normalized, now: nat, codec: Codec, i: nat)
    requires AfterExpiry(s, due, event, now, codec) && i < |s.pending| && KindOf(event) == Some(s.pending[i].kind)
    ensures TakenIn(Join(s, due, event, now, codec, i, Merge(s.pending[i].event, event, codec)), now, codec)
  {
    GrownGroupIsOk(s, due, event, now, i, codec);
    PendingGroup(s, due, event, now, i, codec);
    match Merge(s.pending[i].event, event, codec)
    case Into(m) =>
      GrownIsOk(s, now, i, m, now, codec);
      SettleIsOk(Grown(s, i, m, now), due, codec, now);
    case Spoiled(m) =>
      GrownIsOk(s, now, i, m, s.pending[i].last, codec);
    case Refused =>
  }

  lemma AbsorbIs(s: State, due: seq<Emission>, event: Normalized, kind: PendingKind, now: nat, codec: Codec)
    requires |s.history| > 0
    ensures
      var i := Find(s.pending, kind);
      Absorb(s, due, event, kind, now, codec) ==
        if i == |s.pending| then Settle(s.(pending := s.pending + [Group(event, now, kind, [|s.history| - 1])]), due, codec)
        else Join(s, due, event, now, codec, i, Merge(s.pending[i].event, event, codec))
  {
  }

  lemma AbsorbIsOk(s: State, due: seq<Emission>, event: Normalized, kind: PendingKind, now: nat, codec: Codec)
    requires AfterExpiry(s, due, event, now, codec) && KindOf(event) == Some(kind)
    ensures TakenIn(Absorb(s, due, event, kind, now, codec), now, codec)
  {
    var i := Find(s.pending, kind);
    AbsorbIs(s, due, event, kind, now, codec);
    if i == |s.pending| {
      NewGroupSettles(s, due, event, kind, now, codec);
    } else {
      AbsorbedIntoIsOk(s, due, event, now, codec, i);
    }
  }

  lemma SeenIsOk(s: State, monoNs: nat, codec: Codec)
    requires Inv(s, codec) && (s.lastSeen.Some? ==> s.lastSeen.value <= monoNs)
    ensures Inv(s.(lastSeen := Some(monoNs)), codec)
  {
  }

  /**
    Every push keeps the invariant, failing ones too. When it returns normally nothing is
    dropped, its output is sorted and true to the history, every pending event is inside its
    window and can be serialized, and both caps hold.
   */
  lemma PushIsOk(s: State, raw: RawEvent, wallNs: int, monoNs: nat, random: nat, codec: Codec)
    requires Inv(s, codec)
    ensures
      var o := Push(s, raw, wallNs, monoNs, random, codec);
      OutcomeOk(o, codec) && (o.result.Ok? ==> Settled(o, monoNs, codec))
  {
    if !(s.lastSeen.Some? && monoNs < s.lastSeen.value) {
      SeenIsOk(s, monoNs, codec);
      if Normalize(raw, wallNs, monoNs, random, codec).Ok? {
        NormalizedIsPart(raw, wallNs, monoNs, random, codec);
        AcceptIsOk(s.(lastSeen := Some(monoNs)), Normalize(raw, wallNs, monoNs, random, codec).value, monoNs, codec);
      }
    }
  }

  lemma AcceptIsOk(s: State, event: Normalized, now: nat, codec: Codec)
    requires Inv(s, codec) && s.lastSeen == Some(now)
    requires IsPart(event) && Serializable(event.event, codec) && event.event.monoNs == now
    ensures TakenIn(Accept(s, event, now, codec), now, codec)
  {
    var due := Drained(ExpiredOf(s.pending, now));
    var next := State(Some(now), RetainedOf(s.pending, now), s.history + [event]);
    ExpiryIsOk(s, event, now, codec);
    if KindOf(event) == None {
      PassThroughIsOk(next, due, event, now, codec);
    } else {
      AbsorbIsOk(next, due, event, KindOf(event).value, now, codec);
    }
  }

  // ---------------------------------------------------------------- the barrier

  lemma {:induction false} InsertBeforeLast(e: Emission, s: seq<Emission>, last: Emission)
    requires MonoOf(e) <= MonoOf(last)
    ensures InsertByMono(e, s + [last]) == InsertByMono(e, s) + [last]
  {
    if s == [] || MonoOf(e) <= MonoOf(s[0]) {
      assert [e] + (s + [last]) == ([e] + s) + [last];
    } else {
      assert (s + [last])[1..] == s[1..] + [last];
      InsertBeforeLast(e, s[1..], last);
    }
  }

  /** The stable sort leaves a latest last element last. */
  lemma {:induction false} SortKeepsLast(s: seq<Emission>, last: Emission)
    requires forall e :: e in s ==> MonoOf(e) <= MonoOf(last)
    ensures SortByMono(s + [last]) == SortByMono(s) + [last]
  {
    if s == [] {
      assert [] + [last] == [last];
    } else {
      assert (s + [last])[1..] == s[1..] + [last];
      SortKeepsLast(s[1..], last);
      InsertBeforeLast(s[0], SortByMono(s[1..]), last);
    }
  }

  lemma EmissionIsNotLater(e: Emission, s: State, codec: Codec)
    requires EmissionOk(e, s.history, codec) && HistoryOk(s.history, s.lastSeen, codec)
    ensures s.lastSeen.Some? && MonoOf(e) <= s.lastSeen.value
  {
    var parts := Pick(s.history, e.parts);
    assert parts[0] == s.history[e.parts[0]] && parts[|parts| - 1] == s.history[e.parts[|e.parts| - 1]];
    assert s.history[e.parts[0]].event.monoNs <= s.lastSeen.value;
    assert s.history[e.parts[|e.parts| - 1]].event.monoNs <= s.lastSeen.value;
  }

  lemma PassThroughEmitsLast(s: State, due: seq<Emission>, event: Normalized, now: nat, codec: Codec)
    requires AfterExpiry(s, due, event, now, codec)
    ensures PassThrough(s, due, event).result ==
            Ok(SortByMono(due + Drained(s.pending)) + [Emission(event, [|s.history| - 1])])
  {
    DrainIsOk(s.pending, s.history, codec);
    var earlier := due + Drained(s.pending);
    forall e | e in earlier
      ensures MonoOf(e) <= now
    {
      EmissionIsNotLater(e, s, codec);
    }
    SortKeepsLast(earlier, Emission(event, [|s.history| - 1]));
  }

  /** An event that does not coalesce is emitted at once, after everything absorbed before it. */
  lemma BarrierEmitsLast(s: State, raw: RawEvent, wallNs: int, monoNs: nat, random: nat, codec: Codec)
    requires Inv(s, codec) && Accepts(s, raw, wallNs, monoNs, random, codec)
    requires KindOf(Normalize(raw, wallNs, monoNs, random, codec).value) == None
    ensures
      var o := Push(s, raw, wallNs, monoNs, random, codec);
      && o.result.Ok? && o.state.pending == [] && o.result.value != []
      && o.result.value[|o.result.value| - 1] == Emission(Normalize(raw, wallNs, monoNs, random, codec).value, [|s.history|])
  {
    var event := Normalize(raw, wallNs, monoNs, random, codec).value;
    NormalizedIsPart(raw, wallNs, monoNs, random, codec);
    ExpiryIsOk(s, event, monoNs, codec);
    PassThroughEmitsLast(State(Some(monoNs), RetainedOf(s.pending, monoNs), s.history + [event]),
                         Drained(ExpiredOf(s.pending, monoNs)), event, monoNs, codec);
  }

  // ---------------------------------------------------------------- whole runs

  datatype Op = PushOp(raw: RawEvent, wallNs: int, monoNs: nat, random: nat) | FlushOp

  /** Everything a run has returned, and everything failed calls have dropped. */
  datatype Log = Log(state: State, returned: seq<Emission>, lost: seq<Emission>)

  const Fresh := Log(State(None, [], []), [], [])

  function Perform(s: State, op: Op, codec: Codec): Outcome {
    match op
    case PushOp(raw, wallNs, monoNs, random) => Push(s, raw, wallNs, monoNs, random, codec)
    case FlushOp => Flush(s)
  }

  function Record(log: Log, o: Outcome): Log {
    Log(o.state, log.returned + (if o.result.Ok? then o.result.value else []), log.lost + o.lost)
  }

  function RunFrom(log: Log, ops: seq<Op>, codec: Codec): Log
    decreases |ops|
  {
    if ops == [] then log else RunFrom(Record(log, Perform(log.state, ops[0], codec)), ops[1..], codec)
  }

  ghost predicate AllOk(es: seq<Emission>, h: seq<Normalized>, codec: Codec) {
    forall e :: e in es ==> EmissionOk(e, h, codec)
  }

  /** How often the accepted event at place `p` occurs in the whole account of a run. */
  function Occurrences(log: Log, p: nat): nat {
    Emitted(log.returned, p) + Held(log.state.pending, p) + Emitted(log.lost, p)
  }

  ghost predicate LogOk(log: Log, codec: Codec) {
    && Inv(log.state, codec)
    && AllOk(log.returned, log.state.history, codec)
    && AllOk(log.lost, log.state.history, codec)
  }

  ghost predicate EachOnce(log: Log) {
    forall p: nat :: Occurrences(log, p) == if p < |log.state.history| then 1 else 0
  }

  lemma AllStay(es: seq<Emission>, h: seq<Normalized>, h': seq<Normalized>, codec: Codec)
    requires AllOk(es, h, codec) && (h' == h || (|h'| == |h| + 1 && h'[..|h|] == h))
    ensures AllOk(es, h', codec)
  {
    if h' != h {
      var n := h'[|h|];
      assert h' == h + [n];
      forall e | e in es
        ensures EmissionOk(e, h', codec)
      {
        EmissionStays(h, n, e, codec);
      }
    }
  }

  /** A scroll group that would hold an amount that is not finite once the event is taken in. */
  predicate Spoils(g: Group, event: Normalized, codec: Codec) {
    g.kind.Scroll? &&
    !codec.finite(if KindOf(event) == Some(g.kind) then codec.plus(AmountOf(g.event), AmountOf(event)) else AmountOf(g.event))
  }

  predicate Blocks(g: Group, event: Normalized, codec: Codec) {
    HasNoRoom(g, event) || Spoils(g, event, codec)
  }

  /** Some pending group keeps the event from being taken in. */
  predicate AnyBlocks(pending: seq<Group>, event: Normalized, codec: Codec) {
    exists i :: 0 <= i < |pending| && Blocks(pending[i], event, codec)
  }

  predicate AnyWithoutRoom(pending: seq<Group>, event: Normalized) {
    exists i :: 0 <= i < |pending| && HasNoRoom(pending[i], event)
  }

  /** The event a push would take in. */
  function Incoming(op: Op, codec: Codec): Normalized
    requires op.PushOp? && Normalize(op.raw, op.wallNs, op.monoNs, op.random, codec).Ok?
  {
    Normalize(op.raw, op.wallNs, op.monoNs, op.random, codec).value
  }

  predicate Takes(s: State, op: Op, codec: Codec) {
    op.PushOp? && Accepts(s, op.raw, op.wallNs, op.monoNs, op.random, codec)
  }

  /** What can be seen before a push: it takes in an event that coalesces, and a group still in its window blocks it. */
  predicate WillFail(s: State, op: Op, codec: Codec) {
    && Takes(s, op, codec) && KindOf(Incoming(op, codec)).Some?
    && AnyBlocks(RetainedOf(s.pending, op.monoNs), Incoming(op, codec), codec)
  }

  /** It drops what has expired, and its own event if that finds no room. */
  predicate WillLose(s: State, op: Op, codec: Codec) {
    && WillFail(s, op, codec)
    && (ExpiredOf(s.pending, op.monoNs) != [] || AnyWithoutRoom(RetainedOf(s.pending, op.monoNs), Incoming(op, codec)))
  }

  /** A good pending group can be serialized exactly when it is sound. */
  lemma SoundSerializes(h: seq<Normalized>, lastSeen: Option<nat>, g: Group, codec: Codec)
    requires HistoryOk(h, lastSeen, codec) && GroupOk(g, h, codec)
    ensures Serializable(g.event.event, codec) <==> IsSound(g, codec)
  {
    var parts := Pick(h, g.parts);
    forall n | n in parts ensures Serializable(n.event, codec) {
      var i :| 0 <= i < |parts| && parts[i] == n;
      assert n == h[g.parts[i]];
    }
    CombinedSerializes(parts, g.kind, codec);
  }

  lemma MeasurableExactly(s: State, codec: Codec)
    requires Inv(s, codec)
    ensures Measurable(s.pending, codec) <==> forall i :: 0 <= i < |s.pending| ==> IsSound(s.pending[i], codec)
  {
    forall i | 0 <= i < |s.pending| ensures Serializable(s.pending[i].event.event, codec) <==> IsSound(s.pending[i], codec) {
      assert s.pending[i] in s.pending;
      SoundSerializes(s.history, s.lastSeen, s.pending[i], codec);
    }
  }

  /** Where no pending group has the event's kind, a group blocks it only if it is spoiled already. */
  lemma NoneOfItsKind(pending: seq<Group>, event: Normalized, kind: PendingKind, codec: Codec)
    requires KindOf(event) == Some(kind) && Find(pending, kind) == |pending|
    ensures AnyBlocks(pending, event, codec) <==> exists i :: 0 <= i < |pending| && !IsSound(pending[i], codec)
    ensures !AnyWithoutRoom(pending, event)
  {
  }

  /** A new group beside the pending ones fails exactly when one of those is spoiled already. */
  lemma NewGroupFailsExactly(s: State, due: seq<Emission>, event: Normalized, kind: PendingKind, now: nat, codec: Codec)
    requires AfterExpiry(s, due, event, now, codec) && KindOf(event) == Some(kind) && Find(s.pending, kind) == |s.pending|
    ensures
      Settle(s.(pending := s.pending + [Group(event, now, kind, [|s.history| - 1])]), due, codec).result.Err?
      <==> exists i :: 0 <= i < |s.pending| && !IsSound(s.pending[i], codec)
  {
    var g := Group(event, now, kind, [|s.history| - 1]);
    var longer := s.(pending := s.pending + [g]);
    NewGroupIsOk(s, due, event, kind, now, codec);
    IncomingIsOk(s, due, event, now, codec);
    MeasurableExactly(longer, codec);
    AllSoundWithOneMore(s.pending, g, codec);
  }

  lemma AllSoundWithOneMore(pending: seq<Group>, g: Group, codec: Codec)
    requires IsSound(g, codec)
    ensures (forall i :: 0 <= i < |pending + [g]| ==> IsSound((pending + [g])[i], codec))
            <==> forall i :: 0 <= i < |pending| ==> IsSound(pending[i], codec)
  {
    assert forall i :: 0 <= i < |pending| ==> (pending + [g])[i] == pending[i];
  }

  /** The group of the event's kind is the only one that can be without room; the others block it only if they are spoiled already. */
  lemma OthersBlock(s: State, event: Normalized, i: nat, codec: Codec)
    requires DistinctKinds(s.pending) && i < |s.pending| && KindOf(event) == Some(s.pending[i].kind)
    ensures forall j :: 0 <= j < |s.pending| && j != i ==>
      !HasNoRoom(s.pending[j], event) && (Blocks(s.pending[j], event, codec) <==> !IsSound(s.pending[j], codec))
  {
    forall j | 0 <= j < |s.pending| && j != i ensures s.pending[j].kind != s.pending[i].kind {
      if j < i {
        assert s.pending[j].kind != s.pending[i].kind;
      }
    }
  }

  /** A group that grew well fails to settle exactly when another group is spoiled already. */
  lemma GrownFailsExactly(s: State, due: seq<Emission>, now: nat, i: nat, m: Normalized, codec: Codec)
    requires Inv(s, codec) && i < |s.pending| && |s.history| > 0
    requires Inv(Grown(s, i, m, now), codec) && IsSound(Grown(s, i, m, now).pending[i], codec)
    ensures Settle(Grown(s, i, m, now), due, codec).result.Err? <==>
      exists j :: 0 <= j < |s.pending| && j != i && !IsSound(s.pending[j], codec)
  {
    var longer := Grown(s, i, m, now).pending;
    MeasurableExactly(Grown(s, i, m, now), codec);
    assert forall j :: 0 <= j < |s.pending| && j != i ==> longer[j] == s.pending[j];
  }

  lemma BlockersAre(s: State, event: Normalized, i: nat, codec: Codec)
    requires DistinctKinds(s.pending) && i < |s.pending| && KindOf(event) == Some(s.pending[i].kind)
    ensures AnyBlocks(s.pending, event, codec) <==>
      Blocks(s.pending[i], event, codec) || exists j :: 0 <= j < |s.pending| && j != i && !IsSound(s.pending[j], codec)
    ensures AnyWithoutRoom(s.pending, event) <==> HasNoRoom(s.pending[i], event)
  {
    OthersBlock(s, event, i, codec);
  }

  lemma IntoFailsExactly(s: State, due: seq<Emission>, event: Normalized, now: nat, codec: Codec, i: nat, m: Normalized)
    requires AfterExpiry(s, due, event, now, codec) && i < |s.pending| && KindOf(event) == Some(s.pending[i].kind)
    requires Merge(s.pending[i].event, event, codec) == Into(m)
    ensures Settle(Grown(s, i, m, now), due, codec).result.Err? <==>
      exists j :: 0 <= j < |s.pending| && j != i && !IsSound(s.pending[j], codec)
  {
    PendingGroup(s, due, event, now, i, codec);
    var h := s.history[..|s.history| - 1];
    MergedIsOk(h, event, s.pending[i], codec);
    WellGrown(s, h, event, i, Into(m), codec);
    GrownIsOk(s, now, i, m, now, codec);
    GrownFailsExactly(s, due, now, i, m, codec);
  }

  lemma MergeBlocksExactly(s: State, due: seq<Emission>, event: Normalized, now: nat, codec: Codec, i: nat)
    requires AfterExpiry(s, due, event, now, codec) && i < |s.pending| && KindOf(event) == Some(s.pending[i].kind)
    ensures Merge(s.pending[i].event, event, codec).Into? <==> !Blocks(s.pending[i], event, codec)
    ensures Merge(s.pending[i].event, event, codec).Refused? <==> HasNoRoom(s.pending[i], event)
  {
    PendingGroup(s, due, event, now, i, codec);
    MergeFailsExactly(s.history[..|s.history| - 1], s.pending[i], event, codec);
  }

  lemma JoinFailsExactly(s: State, due: seq<Emission>, event: Normalized, now: nat, codec: Codec, i: nat)
    requires AfterExpiry(s, due, event, now, codec) && i < |s.pending| && KindOf(event) == Some(s.pending[i].kind)
    ensures Join(s, due, event, now, codec, i, Merge(s.pending[i].event, event, codec)).result.Err? <==> AnyBlocks(s.pending, event, codec)
    ensures Merge(s.pending[i].event, event, codec).Refused? <==> AnyWithoutRoom(s.pending, event)
  {
    MergeBlocksExactly(s, due, event, now, codec, i);
    BlockersAre(s, event, i, codec);
    if Merge(s.pending[i].event, event, codec).Into? {
      IntoFailsExactly(s, due, event, now, codec, i, Merge(s.pending[i].event, event, codec).event);
    }
  }

  function RefusedOf(event: Normalized, place: nat, refused: bool): seq<Emission> {
    if refused then [Emission(event, [place])] else []
  }

  /** What is dropped: what was due, if the call fails, and the event itself if it is refused. */
  lemma AbsorbLoses(s: State, due: seq<Emission>, event: Normalized, kind: PendingKind, now: nat, codec: Codec)
    requires |s.history| > 0
    ensures
      var o, f := Absorb(s, due, event, kind, now, codec), Find(s.pending, kind);
      && (o.result.Ok? ==> o.lost == [])
      && (o.result.Err? ==>
            o.lost == due + RefusedOf(event, |s.history| - 1, f < |s.pending| && Merge(s.pending[f].event, event, codec).Refused?))
  {
    assert due + [] == due;
  }

  lemma AbsorbFailsExactly(s: State, due: seq<Emission>, event: Normalized, kind: PendingKind, now: nat, codec: Codec)
    requires AfterExpiry(s, due, event, now, codec) && KindOf(event) == Some(kind)
    ensures
      var o := Absorb(s, due, event, kind, now, codec);
      && (o.result.Err? <==> AnyBlocks(s.pending, event, codec))
      && o.lost == if o.result.Ok? then [] else due + RefusedOf(event, |s.history| - 1, AnyWithoutRoom(s.pending, event))
  {
    var i := Find(s.pending, kind);
    AbsorbIs(s, due, event, kind, now, codec);
    AbsorbLoses(s, due, event, kind, now, codec);
    if i == |s.pending| {
      NoneOfItsKind(s.pending, event, kind, codec);
      NewGroupFailsExactly(s, due, event, kind, now, codec);
    } else {
      JoinFailsExactly(s, due, event, now, codec, i);
    }
  }

  lemma AcceptedPush(s: State, raw: RawEvent, wallNs: int, monoNs: nat, random: nat, codec: Codec)
    requires Accepts(s, raw, wallNs, monoNs, random, codec)
    ensures Push(s, raw, wallNs, monoNs, random, codec)
         == Accept(s.(lastSeen := Some(monoNs)), Normalize(raw, wallNs, monoNs, random, codec).value, monoNs, codec)
  {
  }

  lemma RefusedPush(s: State, raw: RawEvent, wallNs: int, monoNs: nat, random: nat, codec: Codec)
    requires !Accepts(s, raw, wallNs, monoNs, random, codec)
    ensures Push(s, raw, wallNs, monoNs, random, codec).lost == []
    ensures Push(s, raw, wallNs, monoNs, random, codec).result.Err?
  {
  }

  lemma AcceptFailsExactly(s: State, event: Normalized, now: nat, codec: Codec)
    requires Inv(s, codec) && s.lastSeen == Some(now)
    requires IsPart(event) && Serializable(event.event, codec) && event.event.monoNs == now
    ensures
      var o, retained := Accept(s, event, now, codec), RetainedOf(s.pending, now);
      && (o.result.Err? <==> KindOf(event).Some? && AnyBlocks(retained, event, codec))
      && o.lost == if o.result.Ok? then []
                   else Drained(ExpiredOf(s.pending, now)) + RefusedOf(event, |s.history|, AnyWithoutRoom(retained, event))
  {
    var due := Drained(ExpiredOf(s.pending, now));
    var next := State(Some(now), RetainedOf(s.pending, now), s.history + [event]);
    ExpiryIsOk(s, event, now, codec);
    if KindOf(event).Some? {
      AbsorbFailsExactly(next, due, event, KindOf(event).value, now, codec);
    }
  }

  /**
    Exactly when a push that takes in its event fails all the same, told before the call, and
    what it drops then. It fails if the event coalesces and meets a pending group, still in its
    window, that has no room for its count, or whose amount is not finite or would not be with
    the event. It drops everything that has just expired, and the event itself if its count
    finds no room.
   */
  lemma FailsExactly(s: State, op: Op, codec: Codec)
    requires Inv(s, codec) && Takes(s, op, codec)
    ensures Perform(s, op, codec).result.Err? <==> WillFail(s, op, codec)
    ensures Perform(s, op, codec).lost ==
      if !WillFail(s, op, codec) then []
      else Drained(ExpiredOf(s.pending, op.monoNs)) +
           RefusedOf(Incoming(op, codec), |s.history|, AnyWithoutRoom(RetainedOf(s.pending, op.monoNs), Incoming(op, codec)))
  {
    AcceptedPush(s, op.raw, op.wallNs, op.monoNs, op.random, codec);
    NormalizedIsPart(op.raw, op.wallNs, op.monoNs, op.random, codec);
    SeenIsOk(s, op.monoNs, codec);
    AcceptFailsExactly(s.(lastSeen := Some(op.monoNs)), Incoming(op, codec), op.monoNs, codec);
  }

  lemma {:induction false} InsertLengthens(e: Emission, s: seq<Emission>)
    ensures |InsertByMono(e, s)| == |s| + 1
  {
    if s != [] {
      InsertLengthens(e, s[1..]);
    }
  }

  lemma DrainedEmpty(gs: seq<Group>)
    ensures Drained(gs) == [] <==> gs == []
  {
    if gs != [] {
      InsertLengthens(EmitAll(gs)[0], SortByMono(EmitAll(gs)[1..]));
    }
  }

  /** Exactly when a call drops something, told before the call. */
  lemma LosesExactly(s: State, op: Op, codec: Codec)
    requires Inv(s, codec)
    ensures Perform(s, op, codec).lost != [] <==> WillLose(s, op, codec)
  {
    if Takes(s, op, codec) {
      FailsExactly(s, op, codec);
      DrainedEmpty(ExpiredOf(s.pending, op.monoNs));
    } else if op.PushOp? {
      RefusedPush(s, op.raw, op.wallNs, op.monoNs, op.random, codec);
    }
  }

  /** No call of a run fails with something to drop. */
  predicate NeverLoses(s: State, ops: seq<Op>, codec: Codec)
    decreases |ops|
  {
    ops == [] || (!WillLose(s, ops[0], codec) && NeverLoses(Perform(s, ops[0], codec).state, ops[1..], codec))
  }

  lemma {:induction false} RunLosesExactly(log: Log, ops: seq<Op>, codec: Codec)
    requires LogOk(log, codec)
    ensures RunFrom(log, ops, codec).lost == [] <==> log.lost == [] && NeverLoses(log.state, ops, codec)
    decreases |ops|
  {
    if ops != [] {
      LosesExactly(log.state, ops[0], codec);
      RecordIsOk(log, ops[0], codec);
      RunLosesExactly(Record(log, Perform(log.state, ops[0], codec)), ops[1..], codec);
    }
  }

  lemma FlushIsOk(s: State, codec: Codec)
    requires Inv(s, codec)
    ensures OutcomeOk(Flush(s), codec)
  {
    DrainIsOk(s.pending, s.history, codec);
    SortKeeps(EmitAll(s.pending));
  }

  /** What is dropped, if anything: what had expired, and perhaps the event itself. */
  lemma WhatAcceptLoses(s: State, event: Normalized, now: nat, codec: Codec)
    ensures
      var o, due := Accept(s, event, now, codec), Drained(ExpiredOf(s.pending, now));
      && o.state.history == s.history + [event]
      && (o.lost == [] || o.lost == due || o.lost == due + [Emission(event, [|s.history|])])
  {
    var next, due := State(s.lastSeen, RetainedOf(s.pending, now), s.history + [event]), Drained(ExpiredOf(s.pending, now));
    AcceptExtendsHistory(s, event, now, codec);
    if KindOf(event).Some? {
      AbsorbLoses(next, due, event, KindOf(event).value, now, codec);
      assert due + [] == due;
    }
  }

  lemma AcceptLostIsOk(s: State, event: Normalized, now: nat, codec: Codec)
    requires Inv(s, codec) && s.lastSeen == Some(now)
    requires IsPart(event) && Serializable(event.event, codec) && event.event.monoNs == now
    ensures AllOk(Accept(s, event, now, codec).lost, Accept(s, event, now, codec).state.history, codec)
  {
    var next := State(Some(now), RetainedOf(s.pending, now), s.history + [event]);
    ExpiryIsOk(s, event, now, codec);
    IncomingIsOk(next, Drained(ExpiredOf(s.pending, now)), event, now, codec);
    WhatAcceptLoses(s, event, now, codec);
  }

  lemma LostIsOk(s: State, op: Op, codec: Codec)
    requires Inv(s, codec)
    ensures AllOk(Perform(s, op, codec).lost, Perform(s, op, codec).state.history, codec)
  {
    if op.PushOp? {
      if Accepts(s, op.raw, op.wallNs, op.monoNs, op.random, codec) {
        var event := Normalize(op.raw, op.wallNs, op.monoNs, op.random, codec).value;
        AcceptedPush(s, op.raw, op.wallNs, op.monoNs, op.random, codec);
        NormalizedIsPart(op.raw, op.wallNs, op.monoNs, op.random, codec);
        SeenIsOk(s, op.monoNs, codec);
        AcceptLostIsOk(s.(lastSeen := Some(op.monoNs)), event, op.monoNs, codec);
      } else {
        RefusedPush(s, op.raw, op.wallNs, op.monoNs, op.random, codec);
      }
    }
  }

  lemma PerformIsOk(s: State, op: Op, codec: Codec)
    requires Inv(s, codec)
    ensures OutcomeOk(Perform(s, op, codec), codec)
    ensures
      var h, h' := s.history, Perform(s, op, codec).state.history;
      h' == h || (|h'| == |h| + 1 && h'[..|h|] == h)
  {
    match op {
      case PushOp(raw, wallNs, monoNs, random) =>
        PushIsOk(s, raw, wallNs, monoNs, random, codec);
        PushBalances(s, raw, wallNs, monoNs, random, codec, 0);
      case FlushOp => FlushIsOk(s, codec);
    }
  }

  lemma RecordIsOk(log: Log, op: Op, codec: Codec)
    requires LogOk(log, codec)
    ensures LogOk(Record(log, Perform(log.state, op, codec)), codec)
  {
    var o := Perform(log.state, op, codec);
    PerformIsOk(log.state, op, codec);
    LostIsOk(log.state, op, codec);
    AllStay(log.returned, log.state.history, o.state.history, codec);
    AllStay(log.lost, log.state.history, o.state.history, codec);
  }

  lemma PerformBalances(s: State, op: Op, codec: Codec, p: nat)
    ensures
      var o := Perform(s, op, codec);
      Located(o, p) == Held(s.pending, p) + (if |s.history| <= p < |o.state.history| then 1 else 0)
  {
    match op {
      case PushOp(raw, wallNs, monoNs, random) => PushBalances(s, raw, wallNs, monoNs, random, codec, p);
      case FlushOp => DrainedHeld(s.pending, p);
    }
  }

  lemma RecordBalances(log: Log, op: Op, codec: Codec)
    requires LogOk(log, codec) && EachOnce(log)
    ensures EachOnce(Record(log, Perform(log.state, op, codec)))
  {
    var o := Perform(log.state, op, codec);
    PerformIsOk(log.state, op, codec);
    forall p: nat
      ensures Occurrences(Record(log, o), p) == if p < |o.state.history| then 1 else 0
    {
      PerformBalances(log.state, op, codec, p);
      EmittedConcat(log.returned, if o.result.Ok? then o.result.value else [], p);
      EmittedConcat(log.lost, o.lost, p);
      assert Occurrences(log, p) == if p < |log.state.history| then 1 else 0;
    }
  }

  lemma {:induction false} RunKeeps(log: Log, ops: seq<Op>, codec: Codec)
    requires LogOk(log, codec) && EachOnce(log)
    ensures LogOk(RunFrom(log, ops, codec), codec) && EachOnce(RunFrom(log, ops, codec))
    decreases |ops|
  {
    if ops != [] {
      RecordIsOk(log, ops[0], codec);
      RecordBalances(log, ops[0], codec);
      RunKeeps(Record(log, Perform(log.state, ops[0], codec)), ops[1..], codec);
    }
  }

  /**
    Conservation over every run of pushes and flushes, failing calls included. Each accepted
    event is in exactly one returned, pending or dropped event; each of those is the combined
    form of its parts, in order of acceptance; and nothing is dropped exactly when no push is
    blocked by a pending group while it has something to drop.
   */
  lemma RunConserves(ops: seq<Op>, codec: Codec)
    ensures
      var log := RunFrom(Fresh, ops, codec);
      && LogOk(log, codec)
      && (forall p: nat :: Occurrences(log, p) == if p < |log.state.history| then 1 else 0)
      && (log.lost == [] <==> NeverLoses(Fresh.state, ops, codec))
  {
    RunKeeps(Fresh, ops, codec);
    RunLosesExactly(Fresh, ops, codec);
  }
}
