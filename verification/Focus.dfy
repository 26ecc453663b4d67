/**
  The focus broadcast. The writer moves the focus, offers the transition to one bounded queue
  after another, and stores a miss flag after each refusal, all while holding the lock. A
  receiver checks its flag, pops, checks again and remembers; only a recovery needs the lock,
  so its other steps may fall between any two steps of the writer.
 */
module Focus {
  import opened Common

  const CHANNEL_CAPACITY: nat := 256

  datatype Application = Application(pid: int, name: string, bundleId: Option<string>, policy: nat)

  datatype NativeWindow = NativeWindow(id: Option<int>, title: Option<string>)

  datatype FocusedField = FocusedField(generation: nat, class_: nat)

  datatype Snapshot = Snapshot(
    app: Application, window: Option<NativeWindow>, generation: nat,
    focusedField: Option<FocusedField>, fieldGeneration: nat)

  datatype Candidate = Candidate(app: Application, window: Option<NativeWindow>)

  datatype Transition = Transition(previous: Option<Snapshot>, current: Option<Snapshot>, resynced: bool)

  /** A published transition and the focus versions it leads from and to. */
  datatype Item = Item(transition: Transition, from: nat, to: nat)

  /** The lock-guarded focus, with the number of transitions made so far. */
  datatype Hub = Hub(current: Option<Snapshot>, generation: nat, fieldGeneration: nat, version: nat)

  /** Where a receiver is inside `try_recv` or `recv_timeout`. */
  datatype Place =
    | Idle
    | Flagged
    | Checked
    | Popped(item: Item)
    | PoppedFlagged(item: Item)
    | Cleared(item: Item)
    | Closed

  datatype Endpoint = Endpoint(
    queue: seq<Item>, missed: bool, attached: bool, place: Place,
    lastSeen: Option<Snapshot>, seen: nat, delivered: seq<Item>,
    since: nat, sinceFocus: Option<Identity>)

  /** A broadcast in progress: the subscriber being served, and whether its refusal is still to be flagged. */
  datatype Broadcast = Broadcast(item: Item, next: nat, refused: bool)

  /** While there is a writer it holds the lock. */
  datatype System = System(hub: Hub, endpoints: seq<Endpoint>, dropped: nat, writer: Option<Broadcast>)

  // ---------------------------------------------------------------- identity

  /** What makes two observations the same focus: process, window id and window title. */
  datatype Identity = Identity(pid: int, windowId: Option<int>, title: Option<string>)

  function WindowId(w: Option<NativeWindow>): Option<int> {
    if w.Some? then w.value.id else None
  }

  function WindowTitle(w: Option<NativeWindow>): Option<string> {
    if w.Some? then w.value.title else None
  }

  function IdentityOf(s: Option<Snapshot>): Option<Identity> {
    if s.None? then None
    else Some(Identity(s.value.app.pid, WindowId(s.value.window), WindowTitle(s.value.window)))
  }

  predicate SameIdentity(current: Option<Snapshot>, candidate: Option<Candidate>) {
    match (current, candidate)
    case (None, None) => true
    case (Some(s), Some(c)) =>
      && s.app.pid == c.app.pid
      && WindowId(s.window) == WindowId(c.window)
      && WindowTitle(s.window) == WindowTitle(c.window)
    case (_, _) => false
  }

  predicate SameFieldScope(current: Option<Snapshot>, candidate: Option<Candidate>) {
    match (current, candidate)
    case (None, None) => true
    case (Some(s), Some(c)) => s.app.pid == c.app.pid && WindowId(s.window) == WindowId(c.window)
    case (_, _) => false
  }

  function Saturating(n: nat): nat {
    if n < MAX_U64 then n + 1 else n
  }

  // ---------------------------------------------------------------- the writer

  /** An observation of the same focus refreshes it in place and publishes nothing. */
  function Refreshed(h: Hub, candidate: Option<Candidate>): Hub {
    if candidate.Some? && h.current.Some?
    then h.(current := Some(h.current.value.(app := candidate.value.app, window := candidate.value.window)))
    else h
  }

  function Moved(h: Hub, candidate: Option<Candidate>): Hub {
    var preserve := SameFieldScope(h.current, candidate);
    var generation := Saturating(h.generation);
    var fieldGeneration := if preserve then h.fieldGeneration else Saturating(h.fieldGeneration);
    var field := if preserve && h.current.Some? then h.current.value.focusedField else None;
    Hub(if candidate.None? then None
        else Some(Snapshot(candidate.value.app, candidate.value.window, generation, field, fieldGeneration)),
        generation, fieldGeneration, h.version + 1)
  }

  function Publication(h: Hub, candidate: Option<Candidate>, force: bool): Item {
    Item(Transition(h.current, Moved(h, candidate).current, force), h.version, h.version + 1)
  }

  predicate Quiet(h: Hub, candidate: Option<Candidate>, force: bool) {
    !force && SameIdentity(h.current, candidate)
  }

  /** The focus moves, or is refreshed in place; a move is then to be broadcast. */
  function Begun(s: System, candidate: Option<Candidate>, force: bool): System
    requires s.writer.None?
  {
    if Quiet(s.hub, candidate, force) then s.(hub := Refreshed(s.hub, candidate))
    else s.(hub := Moved(s.hub, candidate), writer := Some(Broadcast(Publication(s.hub, candidate, force), 0, false)))
  }

  predicate IsServing(s: System) {
    s.writer.Some? && s.writer.value.next < |s.endpoints|
  }

  /** Sending to the next subscriber: queued, refused when full, or forgotten when its receiver is gone. */
  function OfferedNext(s: System): System
    requires IsServing(s) && !s.writer.value.refused
  {
    var w := s.writer.value;
    var e, served := s.endpoints[w.next], Some(w.(next := w.next + 1));
    if !e.attached then s.(writer := served)
    else if e.place == Closed then
      s.(endpoints := s.endpoints[w.next := e.(attached := false)], dropped := s.dropped + 1, writer := served)
    else if |e.queue| < CHANNEL_CAPACITY then
      s.(endpoints := s.endpoints[w.next := e.(queue := e.queue + [w.item])], writer := served)
    else s.(writer := Some(w.(refused := true)))
  }

  /** The flag for a refused send. */
  function FlagStored(s: System): System
    requires IsServing(s) && s.writer.value.refused
  {
    var w := s.writer.value;
    s.(endpoints := s.endpoints[w.next := s.endpoints[w.next].(missed := true)], dropped := s.dropped + 1,
       writer := Some(w.(next := w.next + 1, refused := false)))
  }

  function UpdateField(h: Hub, pid: int, field: Option<FocusedField>): Hub {
    if h.current.None? || h.current.value.app.pid != pid || h.current.value.focusedField == field then h
    else
      var generation := Saturating(h.fieldGeneration);
      h.(fieldGeneration := generation,
         current := Some(h.current.value.(focusedField := field, fieldGeneration := generation)))
  }

  function Subscription(h: Hub): Endpoint {
    Endpoint([], false, true, Idle, h.current, h.version, [], h.version, IdentityOf(h.current))
  }

  // ---------------------------------------------------------------- the receiver

  /** The unlocked load of the `missed` flag, before or after popping. */
  function FlagLoaded(e: Endpoint): Endpoint
    requires e.place.Idle? || e.place.Popped?
  {
    match e.place
    case Idle => e.(place := if e.missed then Flagged else Checked)
    case Popped(item) => e.(place := if e.missed then PoppedFlagged(item) else Cleared(item))
  }

  /** The locked recovery: the queue is emptied and the receiver jumps to the current focus. */
  function Recovered(e: Endpoint, h: Hub): Endpoint
    requires e.place.Flagged? || e.place.PoppedFlagged?
  {
    if !e.missed then
      e.(place := if e.place.Flagged? then Checked else Cleared(e.place.item))
    else
      var item := Item(Transition(e.lastSeen, h.current, true), e.seen, h.version);
      e.(queue := [], missed := false, place := Idle,
         lastSeen := h.current, seen := h.version, delivered := e.delivered + [item])
  }

  /** Taking the next queued transition; an empty queue ends the call. */
  function Taken(e: Endpoint): Endpoint
    requires e.place.Checked?
  {
    if e.queue == [] then e.(place := Idle)
    else e.(queue := e.queue[1..], place := Popped(e.queue[0]))
  }

  /** Remembering and returning the popped transition. */
  function Remembered(e: Endpoint): Endpoint
    requires e.place.Cleared?
  {
    var item := e.place.item;
    e.(place := Idle, lastSeen := item.transition.current, seen := item.to, delivered := e.delivered + [item])
  }

  // ---------------------------------------------------------------- the protocol

  datatype Step =
    | Begin(candidate: Option<Candidate>, force: bool)
    | Offer
    | StoreFlag
    | Release
    | FieldUpdate(pid: int, field: Option<FocusedField>)
    | Subscribe
    | LoadFlag(who: nat)
    | Recover(who: nat)
    | Take(who: nat)
    | Remember(who: nat)
    | Close(who: nat)

  /** Begin, field updates, subscriptions and recoveries wait for the lock; nothing else does. */
  predicate Enabled(s: System, step: Step) {
    match step
    case Begin(_, _) => s.writer.None?
    case Offer => IsServing(s) && !s.writer.value.refused
    case StoreFlag => IsServing(s) && s.writer.value.refused
    case Release => s.writer.Some? && s.writer.value.next >= |s.endpoints|
    case FieldUpdate(_, _) => s.writer.None?
    case Subscribe => s.writer.None?
    case LoadFlag(who) => who < |s.endpoints| && (s.endpoints[who].place.Idle? || s.endpoints[who].place.Popped?)
    case Recover(who) =>
      s.writer.None? && who < |s.endpoints| && (s.endpoints[who].place.Flagged? || s.endpoints[who].place.PoppedFlagged?)
    case Take(who) => who < |s.endpoints| && s.endpoints[who].place.Checked?
    case Remember(who) => who < |s.endpoints| && s.endpoints[who].place.Cleared?
    case Close(who) => who < |s.endpoints| && s.endpoints[who].place.Idle?
  }

  function Next(s: System, step: Step): System
    requires Enabled(s, step)
  {
    match step
    case Begin(candidate, force) => Begun(s, candidate, force)
    case Offer => OfferedNext(s)
    case StoreFlag => FlagStored(s)
    case Release => s.(writer := None)
    case FieldUpdate(pid, field) => s.(hub := UpdateField(s.hub, pid, field))
    case Subscribe => s.(endpoints := s.endpoints + [Subscription(s.hub)])
    case LoadFlag(who) => s.(endpoints := s.endpoints[who := FlagLoaded(s.endpoints[who])])
    case Recover(who) => s.(endpoints := s.endpoints[who := Recovered(s.endpoints[who], s.hub)])
    case Take(who) => s.(endpoints := s.endpoints[who := Taken(s.endpoints[who])])
    case Remember(who) => s.(endpoints := s.endpoints[who := Remembered(s.endpoints[who])])
    case Close(who) => s.(endpoints := s.endpoints[who := s.endpoints[who].(place := Closed)])
  }

  const Quiescent := System(Hub(None, 0, 0, 0), [], 0, None)

  // ---------------------------------------------------------------- the invariant

  /**
    Transitions that continue one another from version `from` with focus `id` to version `to`
    with focus `id'`: nothing skipped, nothing repeated, each `previous` the focus before it.
   */
  ghost predicate Linked(from: nat, id: Option<Identity>, items: seq<Item>, to: nat, id': Option<Identity>)
    decreases |items|
  {
    if items == [] then from == to && id == id'
    else
      && items[0].from == from && from <= items[0].to
      && IdentityOf(items[0].transition.previous) == id
      && (items[0].to != from + 1 ==> items[0].transition.resynced)
      && Linked(items[0].to, IdentityOf(items[0].transition.current), items[1..], to, id')
  }

  /** A focus version and what identifies the focus then. */
  datatype Point = Point(version: nat, id: Option<Identity>)

  function HubPoint(h: Hub): Point {
    Point(h.version, IdentityOf(h.current))
  }

  /** Where a broadcast in progress started from. */
  function StartPoint(w: Broadcast): Point {
    Point(w.item.from, IdentityOf(w.item.transition.previous))
  }

  /** The writer has not finished with this subscriber. */
  predicate IsBehind(s: System, who: nat) {
    s.writer.Some? && s.writer.value.next <= who
  }

  /** A send to this subscriber has been refused, and its flag is not stored yet. */
  predicate IsUnflagged(s: System, who: nat) {
    s.writer.Some? && s.writer.value.refused && s.writer.value.next == who
  }

  /** How far a subscriber has been served. */
  function Served(s: System, who: nat): Point {
    if IsBehind(s, who) then StartPoint(s.writer.value) else HubPoint(s.hub)
  }

  /** The items continue the receiver's last focus up to the given point. */
  ghost predicate InStep(e: Endpoint, items: seq<Item>, p: Point) {
    Linked(e.seen, IdentityOf(e.lastSeen), items, p.version, p.id)
  }

  ghost predicate Follows(e: Endpoint, item: Item) {
    && item.from == e.seen && e.seen <= item.to
    && IdentityOf(item.transition.previous) == IdentityOf(e.lastSeen)
    && (item.to != item.from + 1 ==> item.transition.resynced)
  }

  ghost predicate PlaceOk(e: Endpoint, p: Point) {
    match e.place
    case Idle => !e.missed ==> InStep(e, e.queue, p)
    case Flagged => e.missed
    case Checked => !e.missed ==> InStep(e, e.queue, p)
    case Popped(item) => !e.missed ==> InStep(e, [item] + e.queue, p)
    case PoppedFlagged(_) => e.missed
    case Cleared(item) =>
      && Follows(e, item) && item.to <= p.version
      && if e.missed then item.to < p.version else InStep(e, [item] + e.queue, p)
    case Closed => true
  }

  ghost predicate EndpointOk(e: Endpoint, p: Point) {
    && |e.queue| <= CHANNEL_CAPACITY
    && e.seen <= p.version && (e.missed ==> e.seen < p.version)
    && (e.place != Closed ==> e.attached)
    && Linked(e.since, e.sinceFocus, e.delivered, e.seen, IdentityOf(e.lastSeen))
    && PlaceOk(e, p)
  }

  ghost predicate WriterOk(s: System) {
    s.writer.Some? ==>
      var w := s.writer.value;
      && w.item.to == s.hub.version == w.item.from + 1
      && w.item.transition.current == s.hub.current
      && w.next <= |s.endpoints| && (w.refused ==> w.next < |s.endpoints|)
  }

  ghost predicate Inv(s: System) {
    WriterOk(s) && forall i :: 0 <= i < |s.endpoints| ==> EndpointOk(s.endpoints[i], Served(s, i))
  }

  lemma {:induction false} LinkedAppend(from: nat, id: Option<Identity>, items: seq<Item>, to: nat, id': Option<Identity>, item: Item)
    requires Linked(from, id, items, to, id')
    requires item.from == to <= item.to && IdentityOf(item.transition.previous) == id'
    requires item.to != to + 1 ==> item.transition.resynced
    ensures Linked(from, id, items + [item], item.to, IdentityOf(item.transition.current))
    decreases |items|
  {
    if items == [] {
      assert ([] + [item])[1..] == [];
    } else {
      assert (items + [item])[1..] == items[1..] + [item];
      LinkedAppend(items[0].to, IdentityOf(items[0].transition.current), items[1..], to, id', item);
    }
  }

  lemma {:induction false} LinkedGrows(from: nat, id: Option<Identity>, items: seq<Item>, to: nat, id': Option<Identity>)
    requires Linked(from, id, items, to, id')
    ensures from <= to
    decreases |items|
  {
    if items != [] {
      LinkedGrows(items[0].to, IdentityOf(items[0].transition.current), items[1..], to, id');
    }
  }

  // ---------------------------------------------------------------- every step keeps it

  /** The send of a broadcast carries its subscriber from where the broadcast started to the hub. */
  lemma SendKeeps(e: Endpoint, w: Broadcast, h: Hub)
    requires EndpointOk(e, StartPoint(w)) && e.attached && e.place != Closed && |e.queue| < CHANNEL_CAPACITY
    requires w.item.to == h.version == w.item.from + 1 && w.item.transition.current == h.current
    ensures EndpointOk(e.(queue := e.queue + [w.item]), HubPoint(h))
  {
    if !e.missed {
      match e.place {
        case Popped(popped) => LongerBy(e, popped, w, h);
        case Cleared(popped) => LongerBy(e, popped, w, h);
        case Idle => LinkedAppend(e.seen, IdentityOf(e.lastSeen), e.queue, w.item.from, StartPoint(w).id, w.item);
        case Checked => LinkedAppend(e.seen, IdentityOf(e.lastSeen), e.queue, w.item.from, StartPoint(w).id, w.item);
        case _ =>
      }
    }
  }

  lemma LongerBy(e: Endpoint, popped: Item, w: Broadcast, h: Hub)
    requires InStep(e, [popped] + e.queue, StartPoint(w))
    requires w.item.to == h.version == w.item.from + 1 && w.item.transition.current == h.current
    ensures InStep(e, [popped] + (e.queue + [w.item]), HubPoint(h))
  {
    LinkedAppend(e.seen, IdentityOf(e.lastSeen), [popped] + e.queue, w.item.from, StartPoint(w).id, w.item);
    assert [popped] + (e.queue + [w.item]) == ([popped] + e.queue) + [w.item];
  }

  /** Flagging a refusal, or passing a subscriber over, also brings it past this broadcast. */
  lemma MissKeeps(e: Endpoint, w: Broadcast, h: Hub)
    requires EndpointOk(e, StartPoint(w)) && h.version == w.item.from + 1
    ensures EndpointOk(e.(missed := true), HubPoint(h))
  {
  }

  lemma FlagKeeps(e: Endpoint, p: Point)
    requires EndpointOk(e, p) && (e.place.Idle? || e.place.Popped?)
    ensures EndpointOk(FlagLoaded(e), p)
  {
    if e.place.Popped? && !e.missed {
      var item := e.place.item;
      assert ([item] + e.queue)[1..] == e.queue;
      LinkedGrows(item.to, IdentityOf(item.transition.current), e.queue, p.version, p.id);
    }
  }

  lemma RecoverKeeps(e: Endpoint, h: Hub)
    requires EndpointOk(e, HubPoint(h)) && (e.place.Flagged? || e.place.PoppedFlagged?)
    ensures EndpointOk(Recovered(e, h), HubPoint(h))
  {
    var item := Item(Transition(e.lastSeen, h.current, true), e.seen, h.version);
    LinkedAppend(e.since, e.sinceFocus, e.delivered, e.seen, IdentityOf(e.lastSeen), item);
  }

  lemma TakeKeeps(e: Endpoint, p: Point)
    requires EndpointOk(e, p) && e.place.Checked?
    ensures EndpointOk(Taken(e), p)
  {
    if e.queue != [] {
      assert [e.queue[0]] + e.queue[1..] == e.queue;
    }
  }

  lemma RememberKeeps(e: Endpoint, p: Point)
    requires EndpointOk(e, p) && e.place.Cleared?
    ensures EndpointOk(Remembered(e), p)
  {
    var item := e.place.item;
    assert ([item] + e.queue)[1..] == e.queue;
    LinkedAppend(e.since, e.sinceFocus, e.delivered, e.seen, IdentityOf(e.lastSeen), item);
  }

  lemma SubscriptionOk(h: Hub)
    ensures EndpointOk(Subscription(h), HubPoint(h))
  {
  }

  /** A step of the writer, as one subscriber sees it. */
  lemma WriterStepKeeps(s: System, step: Step, i: nat)
    requires WriterOk(s) && i < |s.endpoints| && EndpointOk(s.endpoints[i], Served(s, i)) && Enabled(s, step)
    requires step.Begin? || step.Offer? || step.StoreFlag? || step.Release? || step.FieldUpdate?
    ensures
      var s' := Next(s, step);
      |s'.endpoints| == |s.endpoints| && WriterOk(s') && EndpointOk(s'.endpoints[i], Served(s', i))
  {
    var e := s.endpoints[i];
    if IsServing(s) && s.writer.value.next == i {
      var w := s.writer.value;
      MissKeeps(e, w, s.hub);
      if step.Offer? && e.attached && e.place != Closed && |e.queue| < CHANNEL_CAPACITY {
        SendKeeps(e, w, s.hub);
      }
    }
  }

  /** A receiver's own step, on its endpoint. */
  lemma ReceiverStepKeeps(s: System, step: Step, i: nat)
    requires i < |s.endpoints| && EndpointOk(s.endpoints[i], Served(s, i)) && Enabled(s, step)
    requires step.LoadFlag? || step.Recover? || step.Take? || step.Remember? || step.Close?
    ensures EndpointOk(Next(s, step).endpoints[i], Served(s, i))
  {
    var e := s.endpoints[i];
    if step.who == i {
      match step {
        case LoadFlag(_) => FlagKeeps(e, Served(s, i));
        case Recover(_) => RecoverKeeps(e, s.hub);
        case Take(_) => TakeKeeps(e, Served(s, i));
        case Remember(_) => RememberKeeps(e, Served(s, i));
        case _ =>
      }
    }
  }

  lemma NextKeeps(s: System, step: Step)
    requires Inv(s) && Enabled(s, step)
    ensures Inv(Next(s, step))
  {
    var s' := Next(s, step);
    forall i | 0 <= i < |s'.endpoints|
      ensures EndpointOk(s'.endpoints[i], Served(s', i))
    {
      if step.Subscribe? {
        SubscriptionOk(s.hub);
      } else if step.LoadFlag? || step.Recover? || step.Take? || step.Remember? || step.Close? {
        ReceiverStepKeeps(s, step, i);
      } else {
        WriterStepKeeps(s, step, i);
      }
    }
  }

  // ---------------------------------------------------------------- whole runs

  ghost predicate Run(steps: seq<Step>, states: seq<System>) {
    && |states| == |steps| + 1
    && states[0] == Quiescent
    && (forall i :: 0 <= i < |steps| ==> Enabled(states[i], steps[i]) && states[i + 1] == Next(states[i], steps[i]))
  }

  lemma {:induction false} RunKeeps(steps: seq<Step>, states: seq<System>, i: nat)
    requires Run(steps, states) && i < |states|
    ensures Inv(states[i])
  {
    if i > 0 {
      RunKeeps(steps, states, i - 1);
      assert states[i - 1 + 1] == Next(states[i - 1], steps[i - 1]);
      NextKeeps(states[i - 1], steps[i - 1]);
    }
  }

  /**
    Continuity. In every interleaving, what a receiver has been given since it subscribed is
    one unbroken chain of focus versions, each transition's `previous` having the identity of
    the one delivered before it, even across an overflow; a transition that stands for more
    than one change says so.
   */
  lemma DeliveriesAreContinuous(steps: seq<Step>, states: seq<System>, i: nat, who: nat)
    requires Run(steps, states) && i < |states| && who < |states[i].endpoints|
    ensures
      var e := states[i].endpoints[who];
      Linked(e.since, e.sinceFocus, e.delivered, e.seen, IdentityOf(e.lastSeen)) && e.seen <= states[i].hub.version
  {
    RunKeeps(steps, states, i);
    assert EndpointOk(states[i].endpoints[who], Served(states[i], who));
  }

  /** Neighbouring links, spelled out. */
  lemma {:induction false} LinkedNeighbours(from: nat, id: Option<Identity>, items: seq<Item>, to: nat, id': Option<Identity>, k: nat)
    requires Linked(from, id, items, to, id') && k + 1 < |items|
    ensures items[k + 1].from == items[k].to
    ensures IdentityOf(items[k + 1].transition.previous) == IdentityOf(items[k].transition.current)
    decreases |items|
  {
    if k > 0 {
      LinkedNeighbours(items[0].to, IdentityOf(items[0].transition.current), items[1..], to, id', k - 1);
    }
  }

  /** A recovery always brings the receiver to the current focus, with nothing left queued or missed. */
  lemma RecoveryCatchesUp(steps: seq<Step>, states: seq<System>, i: nat, who: nat)
    requires Run(steps, states) && i < |steps| && steps[i] == Recover(who)
    ensures
      var e := states[i + 1].endpoints[who];
      && e.queue == [] && !e.missed && e.place == Idle
      && e.seen == states[i + 1].hub.version && e.lastSeen == states[i + 1].hub.current
      && e.delivered != [] && e.delivered[|e.delivered| - 1].transition.resynced
  {
    assert Enabled(states[i], steps[i]);
    RunKeeps(steps, states, i);
    assert EndpointOk(states[i].endpoints[who], Served(states[i], who));
    assert states[i + 1] == Next(states[i], steps[i]);
  }

  // ---------------------------------------------------------------- what an empty answer means

  /** The last focus whose transition has been sent to a subscriber, accepted or not. */
  function Sent(s: System, who: nat): Point {
    if IsBehind(s, who) && !IsUnflagged(s, who) then StartPoint(s.writer.value) else HubPoint(s.hub)
  }

  /** The receiver has seen everything that was ever sent to it. */
  predicate UpToDate(s: System, who: nat)
    requires who < |s.endpoints|
  {
    Point(s.endpoints[who].seen, IdentityOf(s.endpoints[who].lastSeen)) == Sent(s, who)
  }

  /** A send to it was refused, and it has not recovered since. */
  predicate IsOwed(s: System, who: nat)
    requires who < |s.endpoints|
  {
    s.endpoints[who].missed || IsUnflagged(s, who)
  }

  /** On an empty queue, the receiver is up to date exactly when no refused send is outstanding. */
  lemma EmptyQueueExactly(s: System, who: nat)
    requires WriterOk(s) && who < |s.endpoints| && EndpointOk(s.endpoints[who], Served(s, who))
    requires s.endpoints[who].place == Checked && s.endpoints[who].queue == []
    ensures UpToDate(s, who) <==> !IsOwed(s, who)
  {
  }

  /** A step that is not the receiver's own, taken while its queue stays empty, refuses it nothing. */
  lemma OwedStays(s: System, step: Step, who: nat)
    requires who < |s.endpoints| && Enabled(s, step) && !IsOwn(step, who)
    ensures
      var s' := Next(s, step);
      && who < |s'.endpoints| && s'.endpoints[who].place == s.endpoints[who].place
      && (s'.endpoints[who].queue == [] ==> s.endpoints[who].queue == [] && IsOwed(s', who) == IsOwed(s, who))
  {
  }

  predicate IsOwn(step: Step, who: nat) {
    (step.LoadFlag? || step.Recover? || step.Take? || step.Remember? || step.Close?) && step.who == who
  }

  lemma OwedAtCheck(s: System, who: nat)
    requires Enabled(s, LoadFlag(who)) && s.endpoints[who].place == Idle && !s.endpoints[who].missed
    ensures
      var s' := Next(s, LoadFlag(who));
      who < |s'.endpoints| && s'.endpoints[who].place == Checked && IsOwed(s', who) == IsUnflagged(s, who)
  {
  }

  lemma StepOf(steps: seq<Step>, states: seq<System>, i: nat)
    requires Run(steps, states) && i < |steps|
    ensures Enabled(states[i], steps[i]) && states[i + 1] == Next(states[i], steps[i]) && Inv(states[i])
  {
    RunKeeps(steps, states, i);
  }

  /** Standing between its flag check and its pop, with an empty queue, owed what it was owed at the check. */
  predicate Standing(s: System, who: nat, owed: bool) {
    && who < |s.endpoints| && s.endpoints[who].place == Checked
    && (s.endpoints[who].queue == [] ==> IsOwed(s, who) == owed)
  }

  lemma StandsOn(s: System, step: Step, who: nat, owed: bool)
    requires Enabled(s, step) && !IsOwn(step, who) && Standing(s, who, owed)
    ensures Standing(Next(s, step), who, owed)
  {
    OwedStays(s, step, who);
  }

  /** While a receiver stands between its flag check and its pop, an empty queue keeps what it was owed. */
  lemma {:induction false} StandsThrough(steps: seq<Step>, states: seq<System>, m: nat, t: nat, who: nat, owed: bool)
    requires Run(steps, states) && m <= t < |states| && Standing(states[m], who, owed)
    requires forall j :: m <= j < t ==> !IsOwn(steps[j], who)
    ensures Standing(states[t], who, owed)
    decreases t
  {
    if m < t {
      StandsThrough(steps, states, m, t - 1, who, owed);
      StepOf(steps, states, t - 1);
      StandsOn(states[t - 1], steps[t - 1], who, owed);
    }
  }

  /**
    Exactly when an empty answer can be trusted. A call loads its flag, finds it down, and pops
    an empty queue some steps later: the receiver has then seen all that was sent to it if and
    only if no refused send was still unflagged at the moment the flag was loaded.
   */
  lemma EmptyMeansCaughtUpExactly(steps: seq<Step>, states: seq<System>, l: nat, t: nat, who: nat)
    requires Run(steps, states) && l < t < |steps| && steps[l] == LoadFlag(who) && steps[t] == Take(who)
    requires states[l].endpoints[who].place == Idle && !states[l].endpoints[who].missed
    requires forall j :: l < j < t ==> !IsOwn(steps[j], who)
    requires who < |states[t].endpoints| && states[t].endpoints[who].queue == []
    ensures UpToDate(states[t], who) <==> !IsUnflagged(states[l], who)
  {
    StepOf(steps, states, l);
    OwedAtCheck(states[l], who);
    StandsThrough(steps, states, l + 1, t, who, IsUnflagged(states[l], who));
    RunKeeps(steps, states, t);
    EmptyQueueExactly(states[t], who);
  }

  // ---------------------------------------------------------------- an empty answer too early

  ghost predicate Reachable(s: System) {
    exists steps, states :: Run(steps, states) && states[|states| - 1] == s
  }

  lemma StartReachable()
    ensures Reachable(Quiescent)
  {
    assert Run([], [Quiescent]) && [Quiescent][|[Quiescent]| - 1] == Quiescent;
  }

  lemma ReachNext(s: System, step: Step)
    requires Reachable(s) && Enabled(s, step)
    ensures Reachable(Next(s, step))
  {
    var steps, states :| Run(steps, states) && states[|states| - 1] == s;
    var steps', states' := steps + [step], states + [Next(s, step)];
    assert Run(steps', states');
    assert states'[|states'| - 1] == Next(s, step);
  }

  /** One receiver, waiting between calls or stopped at the given place, with n queued items. */
  predicate Alone(s: System, place: Place, n: nat) {
    |s.endpoints| == 1 && s.endpoints[0].attached && s.endpoints[0].place == place
    && |s.endpoints[0].queue| == n && !s.endpoints[0].missed
  }

  lemma {:induction false} QueueCanFill(n: nat) returns (s: System)
    requires n <= CHANNEL_CAPACITY
    ensures Reachable(s) && Alone(s, Idle, n) && s.writer.None?
  {
    if n == 0 {
      StartReachable();
      ReachNext(Quiescent, Subscribe);
      s := Next(Quiescent, Subscribe);
    } else {
      var before := QueueCanFill(n - 1);
      ReachNext(before, Begin(None, true));
      var begun := Next(before, Begin(None, true));
      ReachNext(begun, Offer);
      var sent := Next(begun, Offer);
      ReachNext(sent, Release);
      s := Next(sent, Release);
    }
  }

  /** With a refused send still unflagged, the receiver can take what is queued, call by call. */
  lemma {:induction false} QueueCanDrain(n: nat) returns (s: System)
    requires n <= CHANNEL_CAPACITY
    ensures Reachable(s) && Alone(s, Idle, n) && IsUnflagged(s, 0)
    decreases CHANNEL_CAPACITY - n
  {
    if n == CHANNEL_CAPACITY {
      var full := QueueCanFill(CHANNEL_CAPACITY);
      ReachNext(full, Begin(None, true));
      var begun := Next(full, Begin(None, true));
      ReachNext(begun, Offer);
      s := Next(begun, Offer);
    } else {
      var s0 := QueueCanDrain(n + 1);
      ReachNext(s0, LoadFlag(0));
      var s1 := Next(s0, LoadFlag(0));
      ReachNext(s1, Take(0));
      var s2 := Next(s1, Take(0));
      ReachNext(s2, LoadFlag(0));
      var s3 := Next(s2, LoadFlag(0));
      ReachNext(s3, Remember(0));
      s := Next(s3, Remember(0));
    }
  }

  /**
    The schedule in which it cannot be trusted: a send is refused, the receiver empties the
    queue before the flag is stored, loads the flag once more, and pops after the writer is
    done. The queue is empty, the transition is complete, and the receiver has not seen it.
   */
  lemma EmptyCanComeTooEarly() returns (s: System)
    ensures Reachable(s) && Enabled(s, Take(0)) && s.endpoints[0].queue == [] && s.writer.None?
    ensures s.endpoints[0].missed && !UpToDate(s, 0)
  {
    var drained := QueueCanDrain(0);
    ReachNext(drained, LoadFlag(0));
    var loaded := Next(drained, LoadFlag(0));
    ReachNext(loaded, StoreFlag);
    var flagged := Next(loaded, StoreFlag);
    ReachNext(flagged, Release);
    s := Next(flagged, Release);
    ReachableIsOk(s);
    EmptyQueueExactly(s, 0);
  }

  lemma ReachableIsOk(s: System)
    requires Reachable(s)
    ensures Inv(s)
  {
    var steps, states :| Run(steps, states) && states[|states| - 1] == s;
    RunKeeps(steps, states, |states| - 1);
  }
}
