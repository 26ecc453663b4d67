/** That coalescing happens: neighbours of one kind end in one event, whatever comes later. */
module CoalescingBursts {
  import opened Common
  import opened Schema
  import opened EventContract
  import opened Coalescing
  import opened CoalescingRuns

  /** What a call hands out or drops. */
  function Out(o: Outcome): seq<Emission> {
    (if o.result.Ok? then o.result.value else []) + o.lost
  }

  /** After a call, these parts stand at the front of one event's parts: pending, returned or dropped. */
  ghost predicate Carried(o: Outcome, parts: seq<nat>) {
    (exists g :: g in o.state.pending && parts <= g.parts) || (exists e :: e in Out(o) && parts <= e.parts)
  }

  // ---------------------------------------------------------------- no call takes a group apart

  lemma InDrained(gs: seq<Group>, g: Group)
    requires g in gs
    ensures Emit(g) in Drained(gs)
  {
    EmitKeeps(gs);
    SortKeeps(EmitAll(gs));
  }

  lemma InSorted(es: seq<Emission>, e: Emission)
    requires e in es
    ensures e in SortByMono(es)
  {
    SortKeeps(es);
  }

  lemma DueIsOut(s: State, due: seq<Emission>, codec: Codec, e: Emission)
    requires e in due
    ensures Carried(Settle(s, due, codec), e.parts)
  {
    InSorted(due, e);
    InSorted(due + Drained(s.pending), e);
    assert e in Out(Settle(s, due, codec));
  }

  lemma PendingIsCarried(s: State, due: seq<Emission>, codec: Codec, g: Group, parts: seq<nat>)
    requires g in s.pending && parts <= g.parts
    ensures Carried(Settle(s, due, codec), parts)
  {
    var o := Settle(s, due, codec);
    if o.state == s {
      assert g in o.state.pending;
    } else {
      InDrained(s.pending, g);
      InSorted(due + Drained(s.pending), Emit(g));
      assert Emit(g) in Out(o);
    }
  }

  lemma GrownHolds(s: State, i: nat, m: Normalized, last: nat, g: Group) returns (k: Group)
    requires |s.history| > 0 && i < |s.pending| && g in s.pending
    ensures k in Grown(s, i, m, last).pending && g.parts <= k.parts
    ensures g == s.pending[i] ==> k.parts == g.parts + [|s.history| - 1] || k.parts == g.parts
  {
    var j :| 0 <= j < |s.pending| && s.pending[j] == g;
    k := Grown(s, i, m, last).pending[j];
  }

  lemma GrownInPlace(s: State, i: nat, m: Normalized, last: nat)
    requires |s.history| > 0 && i < |s.pending|
    ensures exists k :: k in Grown(s, i, m, last).pending && k.parts == s.pending[i].parts + [|s.history| - 1]
  {
    assert Grown(s, i, m, last).pending[i] in Grown(s, i, m, last).pending;
  }

  lemma JoinCarries(s: State, due: seq<Emission>, event: Normalized, now: nat, codec: Codec, i: nat, merged: Merged, g: Group)
    requires |s.history| > 0 && i < |s.pending| && g in s.pending
    ensures Carried(Join(s, due, event, now, codec, i, merged), g.parts)
  {
    var o := Join(s, due, event, now, codec, i, merged);
    match merged
    case Into(m) =>
      var k := GrownHolds(s, i, m, now, g);
      PendingIsCarried(Grown(s, i, m, now), due, codec, k, g.parts);
    case Refused => assert g in o.state.pending;
    case Spoiled(m) => var k := GrownHolds(s, i, m, s.pending[i].last, g);
  }

  lemma JoinCarriesDue(s: State, due: seq<Emission>, event: Normalized, now: nat, codec: Codec, i: nat, merged: Merged, e: Emission)
    requires |s.history| > 0 && i < |s.pending| && e in due
    ensures Carried(Join(s, due, event, now, codec, i, merged), e.parts)
  {
    match merged
    case Into(m) => DueIsOut(Grown(s, i, m, now), due, codec, e);
    case Refused => assert e in Out(Join(s, due, event, now, codec, i, merged));
    case Spoiled(_) => assert e in Out(Join(s, due, event, now, codec, i, merged));
  }

  lemma AbsorbCarries(s: State, due: seq<Emission>, event: Normalized, kind: PendingKind, now: nat, codec: Codec, g: Group)
    requires |s.history| > 0 && g in s.pending
    ensures Carried(Absorb(s, due, event, kind, now, codec), g.parts)
  {
    var i := Find(s.pending, kind);
    AbsorbIs(s, due, event, kind, now, codec);
    if i == |s.pending| {
      PendingIsCarried(s.(pending := s.pending + [Group(event, now, kind, [|s.history| - 1])]), due, codec, g, g.parts);
    } else {
      JoinCarries(s, due, event, now, codec, i, Merge(s.pending[i].event, event, codec), g);
    }
  }

  lemma AbsorbCarriesDue(s: State, due: seq<Emission>, event: Normalized, kind: PendingKind, now: nat, codec: Codec, e: Emission)
    requires |s.history| > 0 && e in due
    ensures Carried(Absorb(s, due, event, kind, now, codec), e.parts)
  {
    var i := Find(s.pending, kind);
    AbsorbIs(s, due, event, kind, now, codec);
    if i == |s.pending| {
      DueIsOut(s.(pending := s.pending + [Group(event, now, kind, [|s.history| - 1])]), due, codec, e);
    } else {
      JoinCarriesDue(s, due, event, now, codec, i, Merge(s.pending[i].event, event, codec), e);
    }
  }

  lemma PassThroughCarries(s: State, due: seq<Emission>, event: Normalized, e: Emission)
    requires |s.history| > 0 && (e in due || e in Drained(s.pending))
    ensures Carried(PassThrough(s, due, event), e.parts)
  {
    InSorted(due + Drained(s.pending) + [Emission(event, [|s.history| - 1])], e);
    assert e in Out(PassThrough(s, due, event));
  }

  lemma AcceptCarries(s: State, event: Normalized, now: nat, codec: Codec, g: Group)
    requires g in s.pending
    ensures Carried(Accept(s, event, now, codec), g.parts)
  {
    var expired := ExpiredOf(s.pending, now);
    var next := State(s.lastSeen, RetainedOf(s.pending, now), s.history + [event]);
    ExpirySplits(s.pending, now);
    if IsExpired(g, now) {
      InDrained(expired, g);
      if KindOf(event).Some? {
        AbsorbCarriesDue(next, Drained(expired), event, KindOf(event).value, now, codec, Emit(g));
      } else {
        PassThroughCarries(next, Drained(expired), event, Emit(g));
      }
    } else if KindOf(event).Some? {
      AbsorbCarries(next, Drained(expired), event, KindOf(event).value, now, codec, g);
    } else {
      InDrained(next.pending, g);
      PassThroughCarries(next, Drained(expired), event, Emit(g));
    }
  }

  /** No call takes a pending group apart: its parts stay side by side in one event. */
  lemma GroupsStayWhole(s: State, op: Op, codec: Codec, g: Group)
    requires g in s.pending
    ensures Carried(Perform(s, op, codec), g.parts)
  {
    if op.FlushOp? {
      InDrained(s.pending, g);
      assert Emit(g) in Out(Perform(s, op, codec));
    } else if Takes(s, op, codec) {
      AcceptedPush(s, op.raw, op.wallNs, op.monoNs, op.random, codec);
      AcceptCarries(s.(lastSeen := Some(op.monoNs)), Incoming(op, codec), op.monoNs, codec, g);
    } else {
      PushBalances(s, op.raw, op.wallNs, op.monoNs, op.random, codec, 0);
      assert g in Perform(s, op, codec).state.pending;
    }
  }

  // ---------------------------------------------------------------- one event joins its group

  /** The retained group of the event's kind takes it in, as its last part. */
  lemma JoinsHere(s: State, due: seq<Emission>, event: Normalized, now: nat, codec: Codec, i: nat)
    requires |s.history| > 0 && i < |s.pending| && !Merge(s.pending[i].event, event, codec).Refused?
    ensures Carried(Join(s, due, event, now, codec, i, Merge(s.pending[i].event, event, codec)), s.pending[i].parts + [|s.history| - 1])
  {
    match Merge(s.pending[i].event, event, codec)
    case Into(m) =>
      GrownInPlace(s, i, m, now);
      var k :| k in Grown(s, i, m, now).pending && k.parts == s.pending[i].parts + [|s.history| - 1];
      PendingIsCarried(Grown(s, i, m, now), due, codec, k, k.parts);
    case Spoiled(m) => GrownInPlace(s, i, m, s.pending[i].last);
  }

  /** The search finds the one group of a kind. */
  lemma FoundIs(pending: seq<Group>, kind: PendingKind, g: Group)
    requires DistinctKinds(pending) && g in pending && g.kind == kind
    ensures Find(pending, kind) < |pending| && pending[Find(pending, kind)] == g
  {
    var j :| 0 <= j < |pending| && pending[j] == g;
    var i := Find(pending, kind);
    assert i <= j && pending[i].kind == pending[j].kind;
  }

  lemma AcceptJoins(s: State, event: Normalized, now: nat, codec: Codec, g: Group)
    requires Inv(s, codec) && s.lastSeen == Some(now)
    requires IsPart(event) && Serializable(event.event, codec) && event.event.monoNs == now
    requires g in s.pending && !IsExpired(g, now) && KindOf(event) == Some(g.kind) && !HasNoRoom(g, event)
    ensures Carried(Accept(s, event, now, codec), g.parts + [|s.history|])
  {
    var due := Drained(ExpiredOf(s.pending, now));
    var next := State(Some(now), RetainedOf(s.pending, now), s.history + [event]);
    ExpirySplits(s.pending, now);
    ExpiryIsOk(s, event, now, codec);
    FoundIs(next.pending, g.kind, g);
    var i := Find(next.pending, g.kind);
    AbsorbIs(next, due, event, g.kind, now, codec);
    MergeBlocksExactly(next, due, event, now, codec, i);
    JoinsHere(next, due, event, now, codec, i);
  }

  /**
    An event that comes while a group of its kind is still in its window, and whose count has
    room there, becomes the next part of that group: after the call they are one event, still
    pending or handed out, even when the call fails.
   */
  lemma JoinsItsGroup(s: State, op: Op, codec: Codec, g: Group)
    requires Inv(s, codec) && Takes(s, op, codec) && g in s.pending && !IsExpired(g, op.monoNs)
    requires KindOf(Incoming(op, codec)) == Some(g.kind) && !HasNoRoom(g, Incoming(op, codec))
    ensures Carried(Perform(s, op, codec), g.parts + [|s.history|])
  {
    AcceptedPush(s, op.raw, op.wallNs, op.monoNs, op.random, codec);
    NormalizedIsPart(op.raw, op.wallNs, op.monoNs, op.random, codec);
    SeenIsOk(s, op.monoNs, codec);
    AcceptJoins(s.(lastSeen := Some(op.monoNs)), Incoming(op, codec), op.monoNs, codec, g);
  }

  // ---------------------------------------------------------------- over runs

  /** Two accepted events are parts of one event of the account. */
  ghost predicate Together(log: Log, p: nat, q: nat) {
    || (exists g :: g in log.state.pending && p in g.parts && q in g.parts)
    || (exists e :: e in log.returned + log.lost && p in e.parts && q in e.parts)
  }

  lemma CarriedTogether(log: Log, o: Outcome, parts: seq<nat>, p: nat, q: nat)
    requires Carried(o, parts) && p in parts && q in parts
    ensures Together(Record(log, o), p, q)
  {
    if e :| e in Out(o) && parts <= e.parts {
      assert e in Record(log, o).returned + Record(log, o).lost;
    }
  }

  lemma {:induction false} TogetherForGood(log: Log, ops: seq<Op>, codec: Codec, p: nat, q: nat)
    requires Together(log, p, q)
    ensures Together(RunFrom(log, ops, codec), p, q)
    decreases |ops|
  {
    if ops != [] {
      var o := Perform(log.state, ops[0], codec);
      if g :| g in log.state.pending && p in g.parts && q in g.parts {
        GroupsStayWhole(log.state, ops[0], codec, g);
        CarriedTogether(log, o, g.parts, p, q);
      } else {
        var e :| e in log.returned + log.lost && p in e.parts && q in e.parts;
        assert e in Record(log, o).returned + Record(log, o).lost;
      }
      TogetherForGood(Record(log, o), ops[1..], codec, p, q);
    }
  }

  /** A pending group of this kind whose last part is the given one, taken in at the given time. */
  ghost predicate Holds(s: State, kind: PendingKind, p: nat, since: nat) {
    exists g :: g in s.pending && HoldsLast(g, kind, p, since)
  }

  predicate HoldsLast(g: Group, kind: PendingKind, p: nat, since: nat) {
    g.kind == kind && g.last == since && g.parts != [] && g.parts[|g.parts| - 1] == p
  }

  lemma NotDrained(s: State, due: seq<Emission>, codec: Codec)
    requires Settle(s, due, codec).state.pending != []
    ensures Settle(s, due, codec).state == s
  {
  }

  lemma LastHolds(s: State, i: nat, kind: PendingKind, p: nat, since: nat)
    requires i < |s.pending| && HoldsLast(s.pending[i], kind, p, since)
    ensures Holds(s, kind, p, since)
  {
    assert s.pending[i] in s.pending;
  }

  lemma GrownLast(s: State, i: nat, m: Normalized, now: nat)
    requires |s.history| > 0 && i < |s.pending|
    ensures HoldsLast(Grown(s, i, m, now).pending[i], s.pending[i].kind, |s.history| - 1, now)
  {
  }

  lemma JoinedHolds(s: State, due: seq<Emission>, event: Normalized, now: nat, codec: Codec, i: nat, merged: Merged)
    requires |s.history| > 0 && i < |s.pending| && Join(s, due, event, now, codec, i, merged).result.Ok?
    requires Join(s, due, event, now, codec, i, merged).state.pending != []
    ensures Holds(Join(s, due, event, now, codec, i, merged).state, s.pending[i].kind, |s.history| - 1, now)
  {
    var m := merged.event;
    NotDrained(Grown(s, i, m, now), due, codec);
    GrownLast(s, i, m, now);
    LastHolds(Grown(s, i, m, now), i, s.pending[i].kind, |s.history| - 1, now);
  }

  lemma NewHolds(s: State, due: seq<Emission>, g: Group, codec: Codec, p: nat)
    requires g.parts == [p] && Settle(s.(pending := s.pending + [g]), due, codec).state.pending != []
    ensures Holds(Settle(s.(pending := s.pending + [g]), due, codec).state, g.kind, p, g.last)
  {
    var longer := s.(pending := s.pending + [g]);
    NotDrained(longer, due, codec);
    LastHolds(longer, |s.pending|, g.kind, p, g.last);
  }

  /** The call kept its event pending. */
  ghost predicate KeptPending(o: Outcome, kind: PendingKind, p: nat, since: nat) {
    o.result.Ok? && o.state.pending != [] ==> Holds(o.state, kind, p, since)
  }

  lemma NewKept(s: State, due: seq<Emission>, g: Group, codec: Codec, p: nat)
    requires g.parts == [p]
    ensures KeptPending(Settle(s.(pending := s.pending + [g]), due, codec), g.kind, p, g.last)
  {
    if Settle(s.(pending := s.pending + [g]), due, codec).state.pending != [] {
      NewHolds(s, due, g, codec, p);
    }
  }

  lemma JoinedKept(s: State, due: seq<Emission>, event: Normalized, now: nat, codec: Codec, i: nat, merged: Merged)
    requires |s.history| > 0 && i < |s.pending|
    ensures KeptPending(Join(s, due, event, now, codec, i, merged), s.pending[i].kind, |s.history| - 1, now)
  {
    var o := Join(s, due, event, now, codec, i, merged);
    if o.result.Ok? && o.state.pending != [] {
      JoinedHolds(s, due, event, now, codec, i, merged);
    }
  }

  lemma TakenInto(s: State, due: seq<Emission>, event: Normalized, kind: PendingKind, now: nat, codec: Codec)
    requires |s.history| > 0
    ensures KeptPending(Absorb(s, due, event, kind, now, codec), kind, |s.history| - 1, now)
  {
    var i, p := Find(s.pending, kind), |s.history| - 1;
    if i == |s.pending| {
      NewKept(s, due, Group(event, now, kind, [p]), codec, p);
    } else {
      JoinedKept(s, due, event, now, codec, i, Merge(s.pending[i].event, event, codec));
    }
  }

  /** Taking in an event of another kind leaves the group of this kind as it is, unless everything is drained. */
  lemma OthersLeaveIt(s: State, due: seq<Emission>, event: Normalized, other: PendingKind, now: nat, codec: Codec, g: Group)
    requires |s.history| > 0 && g in s.pending && g.kind != other
    requires Absorb(s, due, event, other, now, codec).state.pending != []
    ensures g in Absorb(s, due, event, other, now, codec).state.pending
  {
    var i := Find(s.pending, other);
    AbsorbIs(s, due, event, other, now, codec);
    var j :| 0 <= j < |s.pending| && s.pending[j] == g;
    if i < |s.pending| && !Merge(s.pending[i].event, event, codec).Refused? {
      var m := Merge(s.pending[i].event, event, codec).event;
      assert Grown(s, i, m, now).pending[j] == g && Grown(s, i, m, s.pending[i].last).pending[j] == g;
    }
  }

  /** An op that neither drains nor adds to the group of this kind, up to some time. */
  predicate Spares(s: State, op: Op, kind: PendingKind, until: nat, codec: Codec) {
    && op.PushOp?
    && (Takes(s, op, codec) ==>
          && KindOf(Incoming(op, codec)).Some? && KindOf(Incoming(op, codec)).value != kind && op.monoNs <= until
          && Perform(s, op, codec).state.pending != [])
  }

  lemma SparesHolds(s: State, op: Op, kind: PendingKind, p: nat, since: nat, codec: Codec)
    requires Holds(s, kind, p, since) && Spares(s, op, kind, since + WindowNs(kind), codec)
    ensures Holds(Perform(s, op, codec).state, kind, p, since)
  {
    var g :| g in s.pending && HoldsLast(g, kind, p, since);
    if Takes(s, op, codec) {
      var event, now := Incoming(op, codec), op.monoNs;
      var next := State(Some(now), RetainedOf(s.pending, now), s.history + [event]);
      AcceptedPush(s, op.raw, op.wallNs, now, op.random, codec);
      ExpirySplits(s.pending, now);
      OthersLeaveIt(next, Drained(ExpiredOf(s.pending, now)), event, KindOf(event).value, now, codec, g);
    } else {
      PushBalances(s, op.raw, op.wallNs, op.monoNs, op.random, codec, 0);
    }
  }

  /** A stretch of a run in which every op spares the group. */
  predicate Calm(s: State, ops: seq<Op>, kind: PendingKind, until: nat, codec: Codec)
    decreases |ops|
  {
    ops == [] || (Spares(s, ops[0], kind, until, codec) && Calm(Perform(s, ops[0], codec).state, ops[1..], kind, until, codec))
  }

  lemma {:induction false} CalmHolds(log: Log, ops: seq<Op>, kind: PendingKind, p: nat, since: nat, codec: Codec)
    requires LogOk(log, codec) && Holds(log.state, kind, p, since) && Calm(log.state, ops, kind, since + WindowNs(kind), codec)
    ensures LogOk(RunFrom(log, ops, codec), codec) && Holds(RunFrom(log, ops, codec).state, kind, p, since)
    decreases |ops|
  {
    if ops != [] {
      SparesHolds(log.state, ops[0], kind, p, since, codec);
      RecordIsOk(log, ops[0], codec);
      CalmHolds(Record(log, Perform(log.state, ops[0], codec)), ops[1..], kind, p, since, codec);
    }
  }

  lemma FirstIsHeld(s: State, op: Op, kind: PendingKind, codec: Codec)
    requires Takes(s, op, codec) && KindOf(Incoming(op, codec)) == Some(kind)
    requires Perform(s, op, codec).result.Ok? && Perform(s, op, codec).state.pending != []
    ensures Holds(Perform(s, op, codec).state, kind, |s.history|, op.monoNs)
  {
    var event, now := Incoming(op, codec), op.monoNs;
    AcceptedPush(s, op.raw, op.wallNs, now, op.random, codec);
    TakenInto(State(Some(now), RetainedOf(s.pending, now), s.history + [event]), Drained(ExpiredOf(s.pending, now)), event, kind, now, codec);
  }

  /** One more call on the account. */
  function After(log: Log, op: Op, codec: Codec): Log {
    Record(log, Perform(log.state, op, codec))
  }

  lemma SecondJoins(log: Log, op: Op, kind: PendingKind, p: nat, since: nat, codec: Codec)
    requires LogOk(log, codec) && Holds(log.state, kind, p, since)
    requires Takes(log.state, op, codec) && KindOf(Incoming(op, codec)) == Some(kind)
    requires op.monoNs <= since + WindowNs(kind) && !AnyWithoutRoom(log.state.pending, Incoming(op, codec))
    ensures Together(After(log, op, codec), p, |log.state.history|)
  {
    var q := |log.state.history|;
    var g :| g in log.state.pending && HoldsLast(g, kind, p, since);
    var parts := g.parts + [q];
    HasRoomToo(log.state.pending, Incoming(op, codec), g);
    JoinsItsGroup(log.state, op, codec, g);
    assert parts[|g.parts| - 1] == p && parts[|g.parts|] == q;
    CarriedTogether(log, Perform(log.state, op, codec), parts, p, q);
  }

  /**
    Neighbours of one kind end in one event. An accepted event of some kind; then any pushes
    that are refused or coalesce under other kinds, none of which fills the pending list; then
    another event of the kind, within the window of the first and with room for its count.
    Whatever happens from there on, the two are parts of the same event, pending, returned or
    dropped as one.
   */
  lemma NeighboursEndTogether(log: Log, first: Op, between: seq<Op>, second: Op, rest: seq<Op>, kind: PendingKind, codec: Codec)
    requires LogOk(log, codec) && Takes(log.state, first, codec) && KindOf(Incoming(first, codec)) == Some(kind)
    requires Perform(log.state, first, codec).result.Ok? && After(log, first, codec).state.pending != []
    requires Calm(After(log, first, codec).state, between, kind, first.monoNs + WindowNs(kind), codec)
    requires
      var s := RunFrom(After(log, first, codec), between, codec).state;
      && Takes(s, second, codec) && KindOf(Incoming(second, codec)) == Some(kind)
      && second.monoNs <= first.monoNs + WindowNs(kind)
      && !AnyWithoutRoom(s.pending, Incoming(second, codec))
    ensures
      var before := RunFrom(After(log, first, codec), between, codec);
      Together(RunFrom(After(before, second, codec), rest, codec), |log.state.history|, |before.state.history|)
  {
    var p, since := |log.state.history|, first.monoNs;
    FirstIsHeld(log.state, first, kind, codec);
    RecordIsOk(log, first, codec);
    CalmHolds(After(log, first, codec), between, kind, p, since, codec);
    var before := RunFrom(After(log, first, codec), between, codec);
    SecondJoins(before, second, kind, p, since, codec);
    TogetherForGood(After(before, second, codec), rest, codec, p, |before.state.history|);
  }

  lemma HasRoomToo(pending: seq<Group>, event: Normalized, g: Group)
    requires g in pending && !AnyWithoutRoom(pending, event)
    ensures !HasNoRoom(g, event)
  {
  }
}
