/**
  The shared focus object. Each method is one step of the protocol, or a sequence of steps with
  the other side free to move in between.
 */
module FocusContext {
  import opened Common
  import opened Focus

  datatype Received = Delivered(transition: Transition) | Empty

  /** What the writer would publish next, should it come to begin a transition. */
  datatype Move = Move(candidate: Option<Candidate>, force: bool)

  /** The writer's next step. */
  function WriterMove(s: System, move: Move): (step: Step)
    requires WriterOk(s)
    ensures Enabled(s, step)
  {
    if s.writer.None? then Begin(move.candidate, move.force)
    else if s.writer.value.refused then StoreFlag
    else if s.writer.value.next < |s.endpoints| then Offer
    else Release
  }

  /** How many steps the writer is from releasing the lock. */
  function StepsLeft(s: System): nat
    requires WriterOk(s)
  {
    if s.writer.None? then 0
    else 1 + 2 * (|s.endpoints| - s.writer.value.next) - (if s.writer.value.refused then 1 else 0)
  }

  /** The state after the writer's next steps, one for each move. */
  ghost function AfterMoves(s: System, moves: seq<Move>): System {
    if moves == [] then s
    else
      var t := AfterMoves(s, moves[..|moves| - 1]);
      if WriterOk(t) then Next(t, WriterMove(t, moves[|moves| - 1])) else t
  }

  class FocusContext {
    var current: Option<Snapshot>
    var generation: nat
    var fieldGeneration: nat
    var endpoints: seq<Endpoint>
    var dropped: nat
    /** The transition being broadcast, while its writer holds the lock. */
    var writer: Option<Broadcast>
    /** How many transitions have been made. The program keeps no such number; it orders the proof. */
    var version: nat

    ghost function State(): System
      reads this
    {
      System(Hub(current, generation, fieldGeneration, version), endpoints, dropped, writer)
    }

    constructor ()
      ensures State() == Quiescent
    {
      current, generation, fieldGeneration := None, 0, 0;
      endpoints, dropped, writer := [], 0, None;
      version := 0;
    }

    /** Opens a bounded channel that starts from the current focus. */
    method SubscribeTo() returns (who: nat)
      requires writer.None?
      modifies this
      ensures State() == Next(old(State()), Subscribe) && who == |old(endpoints)|
    {
      who := |endpoints|;
      endpoints := endpoints + [Endpoint([], false, true, Idle, current, version, [], version, IdentityOf(current))];
    }

    // ---------------------------------------------------------------- the writer's steps

    /** Moves the focus, to be broadcast next, unless nothing that identifies the focus has changed. */
    method BeginTransition(candidate: Option<Candidate>, force: bool) returns (published: Option<Transition>)
      requires writer.None?
      modifies this
      ensures State() == Next(old(State()), Begin(candidate, force))
      ensures published == if Quiet(old(State()).hub, candidate, force) then None
                           else Some(Publication(old(State()).hub, candidate, force).transition)
    {
      if !force && SameIdentity(current, candidate) {
        if candidate.Some? && current.Some? {
          current := Some(current.value.(app := candidate.value.app, window := candidate.value.window));
        }
        return None;
      }
      var previous := MoveTo(candidate);
      var transition := Transition(previous, current, force);
      writer := Some(Broadcast(Item(transition, version - 1, version), 0, false));
      return Some(transition);
    }

    /** Replaces the focus, keeping the focused field while process and window stay the same. */
    method MoveTo(candidate: Option<Candidate>) returns (previous: Option<Snapshot>)
      modifies this`current, this`generation, this`fieldGeneration, this`version
      ensures State() == old(State()).(hub := Moved(old(State()).hub, candidate))
      ensures previous == old(current)
    {
      var preserve := SameFieldScope(current, candidate);
      generation := Saturating(generation);
      if !preserve {
        fieldGeneration := Saturating(fieldGeneration);
      }
      var field := if preserve && current.Some? then current.value.focusedField else None;
      previous := current;
      current := if candidate.None? then None
                 else Some(Snapshot(candidate.value.app, candidate.value.window, generation, field, fieldGeneration));
      version := version + 1;
    }

    /** Sends to the next subscriber; one whose receiver is gone is forgotten. */
    method SendNext()
      requires Enabled(State(), Offer)
      modifies this`endpoints, this`dropped, this`writer
      ensures State() == Next(old(State()), Offer)
    {
      var w := writer.value;
      var e := endpoints[w.next];
      if e.attached && e.place != Closed && |e.queue| >= CHANNEL_CAPACITY {
        writer := Some(w.(refused := true));
        return;
      }
      if e.attached {
        if e.place == Closed {
          dropped := dropped + 1;
          endpoints := endpoints[w.next := e.(attached := false)];
        } else {
          endpoints := endpoints[w.next := e.(queue := e.queue + [w.item])];
        }
      }
      writer := Some(w.(next := w.next + 1));
    }

    method StoreMissed()
      requires Enabled(State(), StoreFlag)
      modifies this`endpoints, this`dropped, this`writer
      ensures State() == Next(old(State()), StoreFlag)
    {
      var w := writer.value;
      endpoints := endpoints[w.next := endpoints[w.next].(missed := true)];
      dropped := dropped + 1;
      writer := Some(w.(next := w.next + 1, refused := false));
    }

    method UpdateFocusedField(pid: int, field: Option<FocusedField>)
      requires writer.None?
      modifies this
      ensures State() == Next(old(State()), FieldUpdate(pid, field))
    {
      if current.None? {
        return;
      }
      if current.value.app.pid != pid || current.value.focusedField == field {
        return;
      }
      fieldGeneration := Saturating(fieldGeneration);
      current := Some(current.value.(focusedField := field, fieldGeneration := fieldGeneration));
    }

    /** Serves one subscriber: the send, and the flag if it was refused. */
    method ServeOne()
      requires IsServing(State()) && !writer.value.refused
      modifies this`endpoints, this`dropped, this`writer
      ensures writer == Some(old(writer).value.(next := old(writer).value.next + 1))
      ensures endpoints == old(endpoints)[old(writer).value.next := Told(old(endpoints)[old(writer).value.next], old(writer).value.item)]
      ensures dropped == old(dropped) + Lost(old(endpoints)[old(writer).value.next])
    {
      SendNext();
      if writer.value.refused {
        StoreMissed();
      }
    }

    /** Serves every subscriber in turn and releases the lock; here no receiver moves meanwhile. */
    method ServeAll()
      requires writer.Some? && writer.value.next == 0 && !writer.value.refused
      modifies this`endpoints, this`dropped, this`writer
      ensures writer.None? && |endpoints| == |old(endpoints)|
      ensures forall i :: 0 <= i < |endpoints| ==> endpoints[i] == Told(old(endpoints[i]), old(writer.value.item))
      ensures dropped == old(dropped) + LostCount(old(endpoints))
    {
      ghost var before := endpoints;
      ghost var item := writer.value.item;
      while writer.value.next < |endpoints|
        invariant writer.Some? && writer.value.item == item && !writer.value.refused
        invariant writer.value.next <= |endpoints| == |before|
        invariant forall j :: 0 <= j < writer.value.next ==> endpoints[j] == Told(before[j], item)
        invariant forall j :: writer.value.next <= j < |before| ==> endpoints[j] == before[j]
        invariant dropped == old(dropped) + LostCount(before[..writer.value.next])
        decreases |endpoints| - writer.value.next
      {
        ghost var i := writer.value.next;
        assert before[..i + 1][..i] == before[..i];
        ServeOne();
      }
      assert before[..|before|] == before;
      writer := None;
    }

    /** A whole transition, from taking the lock to releasing it. */
    method TransitionTo(candidate: Option<Candidate>, force: bool) returns (published: Option<Transition>)
      requires writer.None?
      modifies this
      ensures writer.None? && State().hub == Next(old(State()), Begin(candidate, force)).hub
      ensures published == if Quiet(old(State()).hub, candidate, force) then None
                           else Some(Publication(old(State()).hub, candidate, force).transition)
      ensures published.None? ==> State().endpoints == old(endpoints) && dropped == old(dropped)
      ensures published.Some? ==>
        && |endpoints| == |old(endpoints)| && dropped == old(dropped) + LostCount(old(endpoints))
        && forall i :: 0 <= i < |endpoints| ==>
             endpoints[i] == Told(old(endpoints[i]), Publication(old(State()).hub, candidate, force))
    {
      published := BeginTransition(candidate, force);
      if published.Some? {
        ServeAll();
      }
    }

    /** One step of the writer, whichever is next. */
    method WriterStep(move: Move)
      requires WriterOk(State())
      modifies this
      ensures State() == Next(old(State()), WriterMove(old(State()), move))
    {
      if writer.None? {
        var _ := BeginTransition(move.candidate, move.force);
      } else if writer.value.refused {
        StoreMissed();
      } else if writer.value.next < |endpoints| {
        SendNext();
      } else {
        writer := None;
      }
    }

    // ---------------------------------------------------------------- the receiver's steps

    /** The unlocked look at the overflow flag. */
    method LoadMissed(who: nat) returns (missed: bool)
      requires Enabled(State(), LoadFlag(who))
      modifies this`endpoints
      ensures State() == Next(old(State()), LoadFlag(who)) && missed == old(endpoints[who].missed)
    {
      missed := endpoints[who].missed;
      endpoints := endpoints[who := FlagLoaded(endpoints[who])];
    }

    /** Under the read lock: takes the flag, empties the queue, and jumps to the current focus. */
    method RecoverMissed(who: nat) returns (recovered: Option<Transition>)
      requires Enabled(State(), Recover(who))
      modifies this`endpoints
      ensures State() == Next(old(State()), Recover(who))
      ensures recovered == if old(endpoints[who].missed) then Some(Transition(old(endpoints[who].lastSeen), current, true)) else None
    {
      var e := endpoints[who];
      if !e.missed {
        endpoints := endpoints[who := e.(place := if e.place.Flagged? then Checked else Cleared(e.place.item))];
        return None;
      }
      var queue := e.queue;
      while queue != []
        decreases |queue|
      {
        queue := queue[1..];
      }
      var transition := Transition(e.lastSeen, current, true);
      endpoints := endpoints[who := e.(
        queue := queue, missed := false, place := Idle, lastSeen := current, seen := version,
        delivered := e.delivered + [Item(transition, e.seen, version)])];
      return Some(transition);
    }

    method Pop(who: nat) returns (item: Option<Item>)
      requires Enabled(State(), Take(who))
      modifies this`endpoints
      ensures State() == Next(old(State()), Take(who))
      ensures item == if old(endpoints[who].queue) == [] then None else Some(old(endpoints[who].queue)[0])
    {
      var e := endpoints[who];
      if e.queue == [] {
        endpoints := endpoints[who := e.(place := Idle)];
        return None;
      }
      endpoints := endpoints[who := e.(queue := e.queue[1..], place := Popped(e.queue[0]))];
      return Some(e.queue[0]);
    }

    method RememberPopped(who: nat) returns (transition: Transition)
      requires Enabled(State(), Remember(who))
      modifies this`endpoints
      ensures State() == Next(old(State()), Remember(who))
      ensures transition == old(endpoints[who].place.item).transition
    {
      var e := endpoints[who];
      transition := e.place.item.transition;
      endpoints := endpoints[who := Remembered(e)];
    }

    // ---------------------------------------------------------------- a receive, with the writer in between

    ghost predicate Ok(who: nat)
      reads this
    {
      WriterOk(State()) && who < |endpoints| && EndpointOk(endpoints[who], Served(State(), who))
    }

    /** The writer takes some steps while a receiver is between two of its own. */
    method Interfere(moves: seq<Move>, ghost who: nat)
      requires Ok(who)
      modifies this
      ensures State() == AfterMoves(old(State()), moves)
      ensures |endpoints| == |old(endpoints)| && Ok(who) && SameReceiver(old(endpoints[who]), endpoints[who])
      ensures endpoints[who].queue == [] ==>
        old(endpoints[who]).queue == [] && IsOwed(State(), who) == IsOwed(old(State()), who)
    {
      assert moves[..0] == [] && moves[..|moves|] == moves;
      for i := 0 to |moves|
        invariant State() == AfterMoves(old(State()), moves[..i])
        invariant |endpoints| == |old(endpoints)| && Ok(who) && SameReceiver(old(endpoints[who]), endpoints[who])
        invariant endpoints[who].queue == [] ==>
          old(endpoints[who]).queue == [] && IsOwed(State(), who) == IsOwed(old(State()), who)
      {
        MoveKeeps(State(), moves[i], who);
        assert moves[..i + 1][..i] == moves[..i];
        WriterStep(moves[i]);
      }
    }

    /** Waiting for the lock: the writer goes on until it releases it. */
    method AwaitLock(ghost who: nat)
      requires Ok(who)
      modifies this
      ensures |endpoints| == |old(endpoints)| && Ok(who) && SameReceiver(old(endpoints[who]), endpoints[who])
      ensures writer.None? && (old(endpoints[who]).missed ==> endpoints[who].missed)
    {
      while writer.Some?
        invariant |endpoints| == |old(endpoints)| && Ok(who) && SameReceiver(old(endpoints[who]), endpoints[who])
        invariant old(endpoints[who]).missed ==> endpoints[who].missed
        decreases StepsLeft(State())
      {
        MoveKeeps(State(), Move(None, false), who);
        WriterStep(Move(None, false));
      }
    }

    /**
      Looks at the flag while the writer may move, and recovers under the lock when it was up.
      `late` is whether a refused send was still unflagged at the moment of looking.
     */
    method RecoverIfMissed(who: nat, meanwhile: seq<Move>) returns (recovered: Option<Transition>, ghost late: bool)
      requires Ok(who) && (endpoints[who].place.Idle? || endpoints[who].place.Popped?)
      modifies this
      ensures |endpoints| == |old(endpoints)| && Ok(who) && late == IsUnflagged(old(State()), who)
      ensures recovered.Some? ==>
        endpoints[who].place.Idle? && Advanced(old(endpoints[who]), endpoints[who], recovered.value)
      ensures recovered.None? ==>
        && endpoints[who].place == (if old(endpoints[who].place.Idle?) then Checked else Cleared(old(endpoints[who].place.item)))
        && SameButPlace(old(endpoints[who]), endpoints[who])
        && (endpoints[who].queue == [] ==> IsOwed(State(), who) == late)
    {
      late := IsUnflagged(State(), who);
      ReceiverStepKeeps(State(), LoadFlag(who), who);
      var missed := LoadMissed(who);
      Interfere(meanwhile, who);
      recovered := None;
      if missed {
        recovered := RecoverLocked(who);
      }
    }

    method RecoverLocked(who: nat) returns (recovered: Option<Transition>)
      requires Ok(who) && (endpoints[who].place.Flagged? || endpoints[who].place.PoppedFlagged?)
      modifies this
      ensures |endpoints| == |old(endpoints)| && Ok(who) && recovered.Some?
      ensures endpoints[who].place.Idle? && Advanced(old(endpoints[who]), endpoints[who], recovered.value)
    {
      AwaitLock(who);
      ReceiverStepKeeps(State(), Recover(who), who);
      recovered := RecoverMissed(who);
    }

    /**
      One receive, with the writer free to step before each step of it. A delivered transition
      continues from the focus last seen. An empty answer means the receiver has seen all that
      was sent to it, exactly if the call did not look `late`: if no refused send was still
      unflagged in the state in which it loaded the flag.
     */
    method TryRecv(who: nat, before: seq<Move>, atCheck: seq<Move>, atPop: seq<Move>, atRecheck: seq<Move>)
      returns (r: Received, ghost late: bool)
      requires Ok(who) && endpoints[who].place.Idle?
      modifies this
      ensures |endpoints| == |old(endpoints)| && Ok(who) && endpoints[who].place.Idle?
      ensures late == IsUnflagged(AfterMoves(old(State()), before), who)
      ensures r.Empty? ==> (UpToDate(State(), who) <==> !late)
      ensures r.Empty? ==> endpoints[who].delivered == old(endpoints[who].delivered)
      ensures r.Delivered? ==> Advanced(old(endpoints[who]), endpoints[who], r.transition)
    {
      Interfere(before, who);
      var recovered;
      recovered, late := RecoverIfMissed(who, atCheck);
      if recovered.Some? {
        return Delivered(recovered.value), late;
      }
      ReceiverStepKeeps(State(), Take(who), who);
      if endpoints[who].queue == [] {
        EmptyQueueExactly(State(), who);
      }
      var item := Pop(who);
      if item == None {
        return Empty, late;
      }
      var transition := ConfirmPopped(who, atPop, atRecheck);
      return Delivered(transition), late;
    }

    /** After popping: the popped transition stands unless something has been missed meanwhile. */
    method ConfirmPopped(who: nat, atPop: seq<Move>, atRecheck: seq<Move>) returns (transition: Transition)
      requires Ok(who) && endpoints[who].place.Popped?
      modifies this
      ensures |endpoints| == |old(endpoints)| && Ok(who) && endpoints[who].place.Idle?
      ensures Advanced(old(endpoints[who]), endpoints[who], transition)
    {
      Interfere(atPop, who);
      var recovered, _ := RecoverIfMissed(who, atRecheck);
      if recovered.Some? {
        return recovered.value;
      }
      ReceiverStepKeeps(State(), Remember(who), who);
      transition := RememberPopped(who);
    }
  }

  /** What a whole broadcast does to one subscriber. */
  function Told(e: Endpoint, item: Item): Endpoint {
    if !e.attached then e
    else if e.place == Closed then e.(attached := false)
    else if |e.queue| < CHANNEL_CAPACITY then e.(queue := e.queue + [item])
    else e.(missed := true)
  }

  function Lost(e: Endpoint): nat {
    if e.attached && (e.place == Closed || |e.queue| >= CHANNEL_CAPACITY) then 1 else 0
  }

  /** How many subscribers do not take it. */
  function LostCount(es: seq<Endpoint>): nat {
    if es == [] then 0 else LostCount(es[..|es| - 1]) + Lost(es[|es| - 1])
  }

  lemma MoveIsTheWriters(s: System, move: Move, who: nat)
    requires WriterOk(s) && who < |s.endpoints|
    ensures
      var s' := Next(s, WriterMove(s, move));
      && |s'.endpoints| == |s.endpoints| && WriterOk(s') && SameReceiver(s.endpoints[who], s'.endpoints[who])
      && (s.endpoints[who].missed ==> s'.endpoints[who].missed)
      && (s.writer.Some? ==> StepsLeft(s') < StepsLeft(s))
  {
  }

  /** A step of the writer, as one receiver sees it. */
  lemma MoveKeeps(s: System, move: Move, who: nat)
    requires WriterOk(s) && who < |s.endpoints| && EndpointOk(s.endpoints[who], Served(s, who))
    ensures
      var s' := Next(s, WriterMove(s, move));
      && |s'.endpoints| == |s.endpoints| && WriterOk(s') && EndpointOk(s'.endpoints[who], Served(s', who))
      && SameReceiver(s.endpoints[who], s'.endpoints[who])
      && (s.endpoints[who].missed ==> s'.endpoints[who].missed)
      && (s'.endpoints[who].queue == [] ==> s.endpoints[who].queue == [] && IsOwed(s', who) == IsOwed(s, who))
      && (s.writer.Some? ==> StepsLeft(s') < StepsLeft(s))
  {
    MoveIsTheWriters(s, move, who);
    WriterStepKeeps(s, WriterMove(s, move), who);
    OwedStays(s, WriterMove(s, move), who);
  }

  /** The receiver has been given one more transition, which continues from the focus it had seen last. */
  ghost predicate Advanced(e: Endpoint, e': Endpoint, t: Transition) {
    && IdentityOf(t.previous) == IdentityOf(e.lastSeen)
    && e'.lastSeen == t.current
    && e.seen <= e'.seen
    && |e'.delivered| == |e.delivered| + 1
    && e'.delivered[..|e.delivered|] == e.delivered
    && e'.delivered[|e.delivered|] == Item(t, e.seen, e'.seen)
  }

  ghost predicate SameButPlace(e: Endpoint, e': Endpoint) {
    && e'.lastSeen == e.lastSeen && e'.seen == e.seen && e'.delivered == e.delivered
    && e'.since == e.since && e'.sinceFocus == e.sinceFocus
  }

  /** The writer touches only a receiver's queue, its overflow flag and whether it is attached. */
  ghost predicate SameReceiver(e: Endpoint, e': Endpoint) {
    e'.place == e.place && SameButPlace(e, e')
  }
}
