/** Runs that lose events: the inputs at which conservation fails. */
module CoalescingLoss {
  import opened Common
  import opened Schema
  import opened EventContract
  import opened Coalescing
  import opened CoalescingRuns

  /** "m.e" */
  const SOURCE: Str := [109, 46, 101]

  const NOBODY: App := App([], None, None)

  /** An event of a given payload in one window, with nothing else said about it. */
  function Plain(d: EventData): RawEvent {
    RawEvent(SOURCE, TypeOf(d), NOBODY, Some(Window(None, Some(1))), None, d, CaptureContext(None, None))
  }

  function PlainEvent(d: EventData, monoNs: nat): Normalized {
    Normalized(Event(1, EventId(0, 0), 0, monoNs, SOURCE, TypeOf(d), NOBODY, Some(Window(None, Some(1))), None, d, Redaction(false, [])),
               CaptureContext(None, None), Selectors(NOBODY, None, None))
  }

  const TITLE: EventData := WindowTitle(None)

  function Keys(count: nat): EventData {
    InputKey(TextKey, [], count, None, None, None)
  }

  function Scrolled(amount: Double): EventData {
    InputScroll(Up, amount, 1)
  }

  predicate IsPlain(d: EventData, codec: Codec) {
    || d == TITLE
    || (d.InputKey? && d == Keys(d.count) && 0 < d.count <= MAX_U64)
    || (d.InputScroll? && d == Scrolled(d.amount) && codec.finite(d.amount))
  }

  function PlainKind(d: EventData): PendingKind {
    var nothing, selectors := CaptureContext(None, None), Selectors(NOBODY, None, None);
    match d
    case InputKey(_, _, _, _, _, _) => Key([], ById(1), nothing, selectors, None, TextKey)
    case InputScroll(_, _, _) => Scroll([], ById(1), nothing, selectors, Up)
    case _ => TitleBurst([], ById(1), nothing)
  }

  lemma PlainSource()
    ensures IsDotted(SOURCE)
  {
    assert SOURCE[1..] == [46, 101];
    assert FirstDot([46, 101]) == 0 && FirstDot(SOURCE) == 1;
  }

  lemma PlainSerializes(d: EventData, monoNs: nat, codec: Codec)
    requires IsPlain(d, codec)
    ensures Serializable(PlainEvent(d, monoNs).event, codec)
  {
    PlainSource();
    assert KNOWN_EVENT_TYPES[4] == "window.title" && KNOWN_EVENT_TYPES[8] == "input.key" && KNOWN_EVENT_TYPES[9] == "input.scroll";
  }

  lemma PlainNormalizes(d: EventData, monoNs: nat, codec: Codec)
    requires IsPlain(d, codec)
    ensures Normalize(Plain(d), 0, monoNs, 0, codec) == Ok(PlainEvent(d, monoNs))
    ensures KindOf(PlainEvent(d, monoNs)) == Some(PlainKind(d))
  {
    PlainSerializes(d, monoNs, codec);
    assert KNOWN_EVENT_TYPES[4] == "window.title" && KNOWN_EVENT_TYPES[8] == "input.key" && KNOWN_EVENT_TYPES[9] == "input.scroll";
    assert Lower([]) == [];
  }

  function PushOf(d: EventData, monoNs: nat): Op {
    PushOp(Plain(d), 0, monoNs, 0)
  }

  function PlainGroup(d: EventData, monoNs: nat, place: nat): Group {
    Group(PlainEvent(d, monoNs), monoNs, PlainKind(d), [place])
  }

  /** Events weigh nothing here, so that no cap is reached. */
  ghost predicate Weightless(codec: Codec) {
    forall e :: codec.size(e) == 0
  }

  // ---------------------------------------------------------------- two pending events

  /** A pending event that is out of nobody's way: it can be serialized and weighs nothing. */
  predicate IsLight(g: Group, codec: Codec) {
    Serializable(g.event.event, codec) && RetainedBytes(g.event, codec) == 0
  }

  /** A new kind beside at most one other, which is still in its window. */
  predicate IsFresh(pending: seq<Group>, d: EventData, monoNs: nat, codec: Codec) {
    && |pending| < 2
    && (forall i :: 0 <= i < |pending| ==> pending[i].kind != PlainKind(d) && !IsExpired(pending[i], monoNs))
    && (forall i :: 0 <= i < |pending| ==> IsLight(pending[i], codec))
  }

  lemma {:induction false} NothingExpires(pending: seq<Group>, now: nat)
    requires forall i :: 0 <= i < |pending| ==> !IsExpired(pending[i], now)
    ensures RetainedOf(pending, now) == pending && ExpiredOf(pending, now) == []
  {
    if pending != [] {
      NothingExpires(pending[1..], now);
    }
  }

  lemma {:induction false} NoBytes(pending: seq<Group>, codec: Codec)
    requires forall i :: 0 <= i < |pending| ==> RetainedBytes(pending[i].event, codec) == 0
    ensures TotalBytes(pending, codec) == 0
  {
    if pending != [] {
      NoBytes(pending[1..], codec);
    }
  }

  lemma PlainWeighsNothing(d: EventData, monoNs: nat, codec: Codec)
    requires Weightless(codec)
    ensures RetainedBytes(PlainEvent(d, monoNs), codec) == 0
  {
  }

  lemma PlainIsLight(d: EventData, monoNs: nat, place: nat, codec: Codec)
    requires Weightless(codec) && IsPlain(d, codec)
    ensures IsLight(PlainGroup(d, monoNs, place), codec)
  {
    PlainSerializes(d, monoNs, codec);
    PlainWeighsNothing(d, monoNs, codec);
  }

  lemma SettlesQuietly(s: State, codec: Codec)
    requires |s.pending| <= 2 && forall i :: 0 <= i < |s.pending| ==> IsLight(s.pending[i], codec)
    ensures Settle(s, [], codec) == Outcome(s, Ok([]), [])
  {
    NoBytes(s.pending, codec);
  }

  lemma AllLight(pending: seq<Group>, g: Group, codec: Codec)
    requires IsLight(g, codec) && forall i :: 0 <= i < |pending| ==> IsLight(pending[i], codec)
    ensures forall i :: 0 <= i < |pending + [g]| ==> IsLight((pending + [g])[i], codec)
  {
  }

  /** An event of a new kind is pending beside the others. */
  lemma NewKind(s: State, g: Group, now: nat, codec: Codec)
    requires |s.history| > 0 && g.parts == [|s.history| - 1] && g.last == now && Find(s.pending, g.kind) == |s.pending|
    ensures Absorb(s, [], g.event, g.kind, now, codec) == Settle(s.(pending := s.pending + [g]), [], codec)
  {
  }

  lemma NothingDue(s: State, event: Normalized, kind: PendingKind, now: nat, codec: Codec)
    requires KindOf(event) == Some(kind) && RetainedOf(s.pending, now) == s.pending && ExpiredOf(s.pending, now) == []
    ensures Accept(s, event, now, codec) == Absorb(State(s.lastSeen, s.pending, s.history + [event]), [], event, kind, now, codec)
  {
  }

  lemma LightAccept(s: State, g: Group, now: nat, codec: Codec)
    requires KindOf(g.event) == Some(g.kind) && g.parts == [|s.history|] && g.last == now
    requires RetainedOf(s.pending, now) == s.pending && ExpiredOf(s.pending, now) == [] && Find(s.pending, g.kind) == |s.pending|
    requires |s.pending| < 2 && IsLight(g, codec) && forall i :: 0 <= i < |s.pending| ==> IsLight(s.pending[i], codec)
    ensures Accept(s, g.event, now, codec) == Outcome(State(s.lastSeen, s.pending + [g], s.history + [g.event]), Ok([]), [])
  {
    var next := State(s.lastSeen, s.pending, s.history + [g.event]);
    AllLight(s.pending, g, codec);
    NothingDue(s, g.event, g.kind, now, codec);
    NewKind(next, g, now, codec);
    SettlesQuietly(next.(pending := s.pending + [g]), codec);
  }

  lemma NewAccept(s: State, d: EventData, monoNs: nat, codec: Codec)
    requires Weightless(codec) && IsPlain(d, codec) && IsFresh(s.pending, d, monoNs, codec)
    ensures Accept(s, PlainEvent(d, monoNs), monoNs, codec) == Outcome(
      State(s.lastSeen, s.pending + [PlainGroup(d, monoNs, |s.history|)], s.history + [PlainEvent(d, monoNs)]), Ok([]), [])
  {
    PlainNormalizes(d, monoNs, codec);
    NothingExpires(s.pending, monoNs);
    PlainIsLight(d, monoNs, |s.history|, codec);
    LightAccept(s, PlainGroup(d, monoNs, |s.history|), monoNs, codec);
  }

  /** A plain event of a new kind stays pending, and nothing is due. */
  lemma NewPush(s: State, d: EventData, monoNs: nat, codec: Codec)
    requires Weightless(codec) && IsPlain(d, codec) && IsFresh(s.pending, d, monoNs, codec)
    requires s.lastSeen.Some? ==> s.lastSeen.value <= monoNs
    ensures Perform(s, PushOf(d, monoNs), codec) == Outcome(
      State(Some(monoNs), s.pending + [PlainGroup(d, monoNs, |s.history|)], s.history + [PlainEvent(d, monoNs)]), Ok([]), [])
  {
    PlainNormalizes(d, monoNs, codec);
    AcceptedPush(s, Plain(d), 0, monoNs, 0, codec);
    NewAccept(s.(lastSeen := Some(monoNs)), d, monoNs, codec);
  }

  /** Two plain events of different kinds, pending since time zero. */
  function TwoPending(a: EventData, b: EventData): State {
    State(Some(0), [PlainGroup(a, 0, 0), PlainGroup(b, 0, 1)], [PlainEvent(a, 0), PlainEvent(b, 0)])
  }

  function OnePending(a: EventData): State {
    State(Some(0), [PlainGroup(a, 0, 0)], [PlainEvent(a, 0)])
  }

  lemma FirstPush(a: EventData, codec: Codec)
    requires Weightless(codec) && IsPlain(a, codec)
    ensures Perform(Fresh.state, PushOf(a, 0), codec) == Outcome(OnePending(a), Ok([]), [])
  {
    NewPush(Fresh.state, a, 0, codec);
  }

  lemma FreshBesideOne(g: Group, d: EventData, codec: Codec)
    requires IsLight(g, codec) && g.kind != PlainKind(d) && g.last == 0
    ensures IsFresh([g], d, 0, codec)
  {
  }

  lemma OneMore(g: Group, k: Group)
    ensures State(Some(0), [g] + [k], [g.event] + [k.event]) == State(Some(0), [g, k], [g.event, k.event])
  {
  }

  lemma SecondPush(a: EventData, b: EventData, codec: Codec)
    requires Weightless(codec) && IsPlain(a, codec) && IsPlain(b, codec) && PlainKind(a) != PlainKind(b)
    ensures Perform(OnePending(a), PushOf(b, 0), codec) == Outcome(TwoPending(a, b), Ok([]), [])
  {
    PlainIsLight(a, 0, 0, codec);
    FreshBesideOne(PlainGroup(a, 0, 0), b, codec);
    OneMore(PlainGroup(a, 0, 0), PlainGroup(b, 0, 1));
    NewPush(OnePending(a), b, 0, codec);
  }

  lemma RecordNothing(s: State, s': State, o: Outcome)
    requires o == Outcome(s', Ok([]), [])
    ensures Record(Log(s, [], []), o) == Log(s', [], [])
  {
  }

  lemma TwoPushes(a: EventData, b: EventData, codec: Codec)
    requires Weightless(codec) && IsPlain(a, codec) && IsPlain(b, codec) && PlainKind(a) != PlainKind(b)
    ensures RunFrom(Fresh, [PushOf(a, 0), PushOf(b, 0)], codec) == Log(TwoPending(a, b), [], [])
  {
    FirstPush(a, codec);
    SecondPush(a, b, codec);
    RecordNothing(Fresh.state, OnePending(a), Perform(Fresh.state, PushOf(a, 0), codec));
    RecordNothing(OnePending(a), TwoPending(a, b), Perform(OnePending(a), PushOf(b, 0), codec));
    RunOfTwo(Fresh, PushOf(a, 0), PushOf(b, 0), codec);
  }

  lemma TwoPendingOk(a: EventData, b: EventData, codec: Codec)
    requires Weightless(codec) && IsPlain(a, codec) && IsPlain(b, codec) && PlainKind(a) != PlainKind(b)
    ensures LogOk(Log(TwoPending(a, b), [], []), codec)
  {
    TwoPushes(a, b, codec);
    RunKeeps(Fresh, [PushOf(a, 0), PushOf(b, 0)], codec);
  }

  lemma RunOfTwo(log: Log, a: Op, b: Op, codec: Codec)
    ensures
      var one := Record(log, Perform(log.state, a, codec));
      RunFrom(log, [a, b], codec) == Record(one, Perform(one.state, b, codec))
  {
    var one := Record(log, Perform(log.state, a, codec));
    var two := Record(one, Perform(one.state, b, codec));
    assert [a, b][1..] == [b] && [b][1..] == [];
    assert RunFrom(two, [], codec) == two;
    assert RunFrom(one, [b], codec) == RunFrom(two, [], codec);
  }

  lemma FirstExpires(g: Group, k: Group, now: nat)
    requires IsExpired(g, now) && !IsExpired(k, now)
    ensures RetainedOf([g, k], now) == [k] && ExpiredOf([g, k], now) == [g]
  {
    assert [g, k][1..] == [k];
    NothingExpires([k], now);
  }

  lemma OneDrained(g: Group)
    ensures Drained([g]) == [Emit(g)]
  {
    var e := Emit(g);
    assert [g][1..] == [] && [e][1..] == [];
    assert EmitAll([g]) == [e];
    assert InsertByMono(e, SortByMono([])) == [e];
  }

  lemma BlockedByOne(k: Group, event: Normalized, codec: Codec)
    ensures AnyBlocks([k], event, codec) <==> Blocks(k, event, codec)
    ensures AnyWithoutRoom([k], event) <==> HasNoRoom(k, event)
  {
    assert [k][0] == k;
  }

  /** A third event meets the second pending one while the first has just expired: the call fails, and the first is dropped. */
  lemma ThirdFails(a: EventData, b: EventData, d: EventData, now: nat, codec: Codec)
    requires Weightless(codec) && IsPlain(a, codec) && IsPlain(b, codec) && IsPlain(d, codec) && PlainKind(a) != PlainKind(b)
    requires IsExpired(PlainGroup(a, 0, 0), now) && !IsExpired(PlainGroup(b, 0, 1), now)
    requires Blocks(PlainGroup(b, 0, 1), PlainEvent(d, now), codec)
    ensures
      var o, k := Perform(TwoPending(a, b), PushOf(d, now), codec), PlainGroup(b, 0, 1);
      && o.result.Err?
      && o.lost == [Emission(PlainEvent(a, 0), [0])] + RefusedOf(PlainEvent(d, now), 2, HasNoRoom(k, PlainEvent(d, now)))
  {
    var s, k := TwoPending(a, b), PlainGroup(b, 0, 1);
    TwoPendingOk(a, b, codec);
    PlainNormalizes(d, now, codec);
    FirstExpires(PlainGroup(a, 0, 0), k, now);
    OneDrained(PlainGroup(a, 0, 0));
    BlockedByOne(k, PlainEvent(d, now), codec);
    FailsExactly(s, PushOf(d, now), codec);
  }

  // ---------------------------------------------------------------- a count that does not fit

  const LATE_NS: nat := 1_500_000_000

  /**
    Conservation without loss fails. A scroll, the largest countable number of key presses, and
    one more press a second and a half later: the scroll, which has just expired, is dropped
    with the press that cannot be counted, and nobody will ever see either.
   */
  lemma ARunCanLose(amount: Double, codec: Codec)
    requires Weightless(codec) && codec.finite(amount)
    ensures
      var two := RunFrom(Fresh, [PushOf(Scrolled(amount), 0), PushOf(Keys(MAX_U64), 0)], codec);
      var three := Record(two, Perform(two.state, PushOf(Keys(1), LATE_NS), codec));
      && three.returned == []
      && three.lost == [Emission(PlainEvent(Scrolled(amount), 0), [0]), Emission(PlainEvent(Keys(1), LATE_NS), [2])]
  {
    var a, b, d := Scrolled(amount), Keys(MAX_U64), Keys(1);
    TwoPushes(a, b, codec);
    PlainNormalizes(d, LATE_NS, codec);
    assert HasNoRoom(PlainGroup(b, 0, 1), PlainEvent(d, LATE_NS));
    ThirdFails(a, b, d, LATE_NS, codec);
  }

  // ---------------------------------------------------------------- an amount that is no longer finite

  const SOON_NS: nat := 600_000_000
  const LATER_NS: nat := 700_000_000

  /** The scroll that two finite amounts have spoiled. */
  function SpoiledScroll(amount: Double, codec: Codec): Group {
    Group(PlainEvent(InputScroll(Up, codec.plus(amount, amount), 2), 0), 0, PlainKind(Scrolled(amount)), [1, 2])
  }

  lemma ThirdSpoils(amount: Double, codec: Codec)
    requires Weightless(codec) && codec.finite(amount) && !codec.finite(codec.plus(amount, amount))
    ensures
      var s, o := TwoPending(TITLE, Scrolled(amount)), Perform(TwoPending(TITLE, Scrolled(amount)), PushOf(Scrolled(amount), SOON_NS), codec);
      && o.result == Err(ScrollAmountOverflow) && o.lost == [Emission(PlainEvent(TITLE, 0), [0])]
      && o.state == State(Some(SOON_NS), [SpoiledScroll(amount, codec)], s.history + [PlainEvent(Scrolled(amount), SOON_NS)])
  {
    var d := Scrolled(amount);
    var s, g, k := TwoPending(TITLE, d), PlainGroup(TITLE, 0, 0), PlainGroup(d, 0, 1);
    PlainNormalizes(d, SOON_NS, codec);
    FirstExpires(g, k, SOON_NS);
    OneDrained(g);
    AcceptedPush(s, Plain(d), 0, SOON_NS, 0, codec);
    assert Find([k], PlainKind(d)) == 0;
    assert Merge(PlainEvent(d, 0), PlainEvent(d, SOON_NS), codec) == Spoiled(SpoiledScroll(amount, codec).event);
    assert [k][0 := SpoiledScroll(amount, codec)] == [SpoiledScroll(amount, codec)];
    assert [1] + [2] == [1, 2];
  }

  lemma FourthFails(s: State, amount: Double, codec: Codec)
    requires Inv(s, codec) && s.lastSeen == Some(SOON_NS) && s.pending == [SpoiledScroll(amount, codec)]
    requires !codec.finite(codec.plus(amount, amount))
    ensures Takes(s, PushOf(Keys(1), LATER_NS), codec) && Perform(s, PushOf(Keys(1), LATER_NS), codec).result.Err?
  {
    PlainNormalizes(Keys(1), LATER_NS, codec);
    NothingExpires(s.pending, LATER_NS);
    assert Blocks(s.pending[0], PlainEvent(Keys(1), LATER_NS), codec);
    FailsExactly(s, PushOf(Keys(1), LATER_NS), codec);
  }

  /**
    Two finite scroll amounts whose sum is not finite: the second push fails, a title that has
    just expired is dropped, and the pending scroll keeps the sum. As long as it is pending,
    a key press that has nothing to do with it fails as well.
   */
  lemma AScrollCanSpoil(amount: Double, codec: Codec)
    requires Weightless(codec) && codec.finite(amount) && !codec.finite(codec.plus(amount, amount))
    ensures
      var two := RunFrom(Fresh, [PushOf(TITLE, 0), PushOf(Scrolled(amount), 0)], codec);
      var three := Record(two, Perform(two.state, PushOf(Scrolled(amount), SOON_NS), codec));
      && three.returned == [] && three.lost == [Emission(PlainEvent(TITLE, 0), [0])]
      && Takes(three.state, PushOf(Keys(1), LATER_NS), codec)
      && Perform(three.state, PushOf(Keys(1), LATER_NS), codec).result.Err?
  {
    var d := Scrolled(amount);
    var two := Log(TwoPending(TITLE, d), [], []);
    TwoPushes(TITLE, d, codec);
    TwoPendingOk(TITLE, d, codec);
    ThirdSpoils(amount, codec);
    RecordIsOk(two, PushOf(d, SOON_NS), codec);
    FourthFails(Record(two, Perform(two.state, PushOf(d, SOON_NS), codec)).state, amount, codec);
  }
}
