/** The normalizer as it runs: one mutable list of pending events, proved against the coalescing machine. */
module Normalizer {
  import opened Common
  import opened Schema
  import opened EventContract
  import opened Coalescing
  import opened CoalescingRuns

  datatype Pending = Pending(event: Normalized, lastMono: nat, kind: PendingKind)

  function Concrete(g: Group): Pending {
    Pending(g.event, g.last, g.kind)
  }

  function Pendings(gs: seq<Group>): seq<Pending> {
    if gs == [] then [] else [Concrete(gs[0])] + Pendings(gs[1..])
  }

  function Events(es: seq<Emission>): seq<Normalized> {
    if es == [] then [] else [es[0].event] + Events(es[1..])
  }

  function InsertEvent(n: Normalized, s: seq<Normalized>): seq<Normalized> {
    if s == [] || n.event.monoNs <= s[0].event.monoNs then [n] + s else [s[0]] + InsertEvent(n, s[1..])
  }

  /** `sort_by_key` on the monotonic time. */
  function SortEvents(s: seq<Normalized>): seq<Normalized> {
    if s == [] then [] else InsertEvent(s[0], SortEvents(s[1..]))
  }

  // ---------------------------------------------------------------- forgetting the provenance

  lemma {:induction false} PendingsAt(gs: seq<Group>)
    ensures |Pendings(gs)| == |gs|
    ensures forall i :: 0 <= i < |gs| ==> Pendings(gs)[i] == Concrete(gs[i])
  {
    if gs != [] {
      PendingsAt(gs[1..]);
    }
  }

  lemma {:induction false} EventsConcat(a: seq<Emission>, b: seq<Emission>)
    ensures Events(a + b) == Events(a) + Events(b)
  {
    if a == [] {
      assert a + b == b;
    } else {
      assert (a + b)[1..] == a[1..] + b;
      EventsConcat(a[1..], b);
    }
  }

  lemma {:induction false} EventsOfInsert(e: Emission, s: seq<Emission>)
    ensures Events(InsertByMono(e, s)) == InsertEvent(e.event, Events(s))
  {
    if s == [] || MonoOf(e) <= MonoOf(s[0]) {
      assert ([e] + s)[1..] == s;
    } else {
      EventsOfInsert(e, s[1..]);
      assert ([s[0]] + InsertByMono(e, s[1..]))[1..] == InsertByMono(e, s[1..]);
    }
  }

  /** Sorting the events is sorting the emissions. */
  lemma {:induction false} EventsOfSort(s: seq<Emission>)
    ensures Events(SortByMono(s)) == SortEvents(Events(s))
  {
    if s != [] {
      EventsOfSort(s[1..]);
      EventsOfInsert(s[0], SortByMono(s[1..]));
    }
  }

  lemma {:induction false} PendingsConcat(a: seq<Group>, b: seq<Group>)
    ensures Pendings(a + b) == Pendings(a) + Pendings(b)
  {
    if a == [] {
      assert a + b == b;
    } else {
      assert (a + b)[1..] == a[1..] + b;
      PendingsConcat(a[1..], b);
    }
  }

  lemma {:induction false} BytesOfTail(gs: seq<Group>, i: nat, codec: Codec)
    requires i <= |gs|
    ensures TotalBytes(gs[i..], codec) == if i == |gs| then 0 else RetainedBytes(gs[i].event, codec) + TotalBytes(gs[i + 1..], codec)
  {
    if i < |gs| {
      assert gs[i..][0] == gs[i] && gs[i..][1..] == gs[i + 1..];
    }
  }

  lemma EmitHead(g: Group, rest: seq<Group>)
    ensures Events(EmitAll([g] + rest)) == [g.event] + Events(EmitAll(rest))
  {
    assert ([g] + rest)[1..] == rest;
    assert ([Emit(g)] + EmitAll(rest))[1..] == EmitAll(rest);
  }

  lemma AddFirst<T>(done: seq<T>, x: T, rest: seq<T>)
    ensures (done + [x]) + rest == done + ([x] + rest)
  {
  }

  /** What the next pending event adds to the due and to the retained events. */
  lemma SplitHead(gs: seq<Group>, i: nat, now: nat)
    requires i < |gs|
    ensures
      var due, kept := Events(EmitAll(ExpiredOf(gs[i + 1..], now))), Pendings(RetainedOf(gs[i + 1..], now));
      if IsExpired(gs[i], now)
      then Events(EmitAll(ExpiredOf(gs[i..], now))) == [gs[i].event] + due && Pendings(RetainedOf(gs[i..], now)) == kept
      else Events(EmitAll(ExpiredOf(gs[i..], now))) == due && Pendings(RetainedOf(gs[i..], now)) == [Concrete(gs[i])] + kept
  {
    assert gs[i..][0] == gs[i] && gs[i..][1..] == gs[i + 1..];
    EmitHead(gs[i], ExpiredOf(gs[i + 1..], now));
    assert ([gs[i]] + RetainedOf(gs[i + 1..], now))[1..] == RetainedOf(gs[i + 1..], now);
  }

  lemma PendingsUpdated(gs: seq<Group>, i: nat, g: Group)
    requires i < |gs|
    ensures i < |Pendings(gs)| && Pendings(gs[i := g]) == Pendings(gs)[i := Concrete(g)]
  {
    PendingsAt(gs);
    PendingsAt(gs[i := g]);
  }

  lemma PendingsAppended(gs: seq<Group>, g: Group)
    ensures Pendings(gs + [g]) == Pendings(gs) + [Concrete(g)]
  {
    PendingsConcat(gs, [g]);
    assert [g][1..] == [];
  }

  /** One turn of the expiry loop: what is collected so far and what is still to come make the same whole. */
  lemma ExpiryTurn(gs: seq<Group>, i: nat, now: nat, emitted: seq<Normalized>, retained: seq<Pending>)
    requires i < |gs|
    ensures
      var e, r := if IsExpired(gs[i], now) then emitted + [gs[i].event] else emitted,
                  if IsExpired(gs[i], now) then retained else retained + [Concrete(gs[i])];
      && e + Events(EmitAll(ExpiredOf(gs[i + 1..], now))) == emitted + Events(EmitAll(ExpiredOf(gs[i..], now)))
      && r + Pendings(RetainedOf(gs[i + 1..], now)) == retained + Pendings(RetainedOf(gs[i..], now))
  {
    SplitHead(gs, i, now);
    AddFirst(emitted, gs[i].event, Events(EmitAll(ExpiredOf(gs[i + 1..], now))));
    AddFirst(retained, Concrete(gs[i]), Pendings(RetainedOf(gs[i + 1..], now)));
  }

  // ---------------------------------------------------------------- the class

  class Normalizer {
    var lastSeen: Option<nat>
    var pending: seq<Pending>
    ghost var model: State

    ghost predicate Valid()
      reads this
    {
      lastSeen == model.lastSeen && pending == Pendings(model.pending)
    }

    constructor ()
      ensures Valid() && model == State(None, [], [])
      ensures forall codec :: Inv(model, codec)
    {
      lastSeen, pending := None, [];
      model := State(None, [], []);
    }

    /** Takes every pending event, sorted. */
    method DrainPending() returns (events: seq<Normalized>)
      requires Valid()
      modifies this
      ensures Valid() && model == old(model).(pending := [])
      ensures events == Events(Drained(old(model.pending)))
    {
      PendingsAt(model.pending);
      events := [];
      ghost var gs := model.pending;
      var i := 0;
      while i < |pending|
        invariant 0 <= i <= |pending| == |gs|
        invariant pending == Pendings(gs) && model == old(model) && lastSeen == old(lastSeen)
        invariant events + Events(EmitAll(gs[i..])) == Events(EmitAll(gs))
      {
        assert gs[i..] == [gs[i]] + gs[i + 1..];
        EmitHead(gs[i], gs[i + 1..]);
        AddFirst(events, gs[i].event, Events(EmitAll(gs[i + 1..])));
        events := events + [pending[i].event];
        i := i + 1;
      }
      EventsOfSort(EmitAll(gs));
      assert gs[|gs|..] == [];
      assert events + [] == events;
      events := SortEvents(events);
      pending := [];
      model := model.(pending := []);
    }

    /** Splits the pending events by age: the old ones are returned sorted, the others stay. */
    method FlushExpired(now: nat) returns (emitted: seq<Normalized>)
      requires Valid()
      requires forall g :: g in model.pending ==> g.last <= now
      modifies this
      ensures Valid() && model == old(model).(pending := RetainedOf(old(model.pending), now))
      ensures emitted == Events(Drained(ExpiredOf(old(model.pending), now)))
    {
      PendingsAt(model.pending);
      ghost var gs := model.pending;
      emitted := [];
      var retained: seq<Pending> := [];
      var i := 0;
      assert gs[0..] == gs;
      while i < |pending|
        invariant 0 <= i <= |pending| == |gs|
        invariant pending == Pendings(gs) && model == old(model) && lastSeen == old(lastSeen)
        invariant emitted + Events(EmitAll(ExpiredOf(gs[i..], now))) == Events(EmitAll(ExpiredOf(gs, now)))
        invariant retained + Pendings(RetainedOf(gs[i..], now)) == Pendings(RetainedOf(gs, now))
      {
        var p := pending[i];
        assert gs[i] in gs;
        ExpiryTurn(gs, i, now, emitted, retained);
        var age: nat := now - p.lastMono;
        if age > WindowNs(p.kind) {
          emitted := emitted + [p.event];
        } else {
          retained := retained + [p];
        }
        i := i + 1;
      }
      assert gs[|gs|..] == [] && emitted + [] == emitted && retained + [] == retained;
      EventsOfSort(EmitAll(ExpiredOf(gs, now)));
      pending := retained;
      model := model.(pending := RetainedOf(gs, now));
      emitted := SortEvents(emitted);
    }

    /** The place of the pending event of this kind, or the end. */
    method FindKind(kind: PendingKind) returns (i: nat)
      requires Valid()
      ensures i == Find(model.pending, kind) && |pending| == |model.pending|
    {
      PendingsAt(model.pending);
      i := 0;
      ghost var gs := model.pending;
      assert gs[0..] == gs;
      while i < |pending| && pending[i].kind != kind
        invariant 0 <= i <= |pending|
        invariant Find(gs, kind) == i + Find(gs[i..], kind)
      {
        assert gs[i..][0] == gs[i] && gs[i..][1..] == gs[i + 1..];
        i := i + 1;
      }
      if i < |pending| {
        assert gs[i..][0] == gs[i];
      }
    }

    /** Adds up the bytes of the pending events; fails at the first that cannot be serialized. */
    method PendingBytes(codec: Codec) returns (total: Option<nat>)
      requires Valid()
      ensures total == if Measurable(model.pending, codec) then Some(TotalBytes(model.pending, codec)) else None
      ensures |pending| == |model.pending|
    {
      PendingsAt(model.pending);
      var bytes := 0;
      ghost var gs := model.pending;
      assert gs[0..] == gs;
      for i := 0 to |pending|
        invariant bytes + TotalBytes(gs[i..], codec) == TotalBytes(gs, codec)
        invariant forall j :: 0 <= j < i ==> Serializable(gs[j].event.event, codec)
      {
        BytesOfTail(gs, i, codec);
        if !Serializable(pending[i].event.event, codec) {
          return None;
        }
        bytes := bytes + RetainedBytes(pending[i].event, codec);
      }
      BytesOfTail(gs, |gs|, codec);
      return Some(bytes);
    }

    /** Drains everything once a cap is reached, then sorts what the call returns; what was due is dropped when the bytes cannot be added up. */
    method Finish(emitted: seq<Normalized>, ghost due: seq<Emission>, codec: Codec) returns (r: Result<seq<Normalized>, NormalizeError>)
      requires Valid() && emitted == Events(due)
      modifies this
      ensures Valid() && model == Settle(old(model), due, codec).state
      ensures
        match Settle(old(model), due, codec).result
        case Ok(es) => r == Ok(Events(es))
        case Err(e) => r == Err(e)
    {
      var events := emitted;
      var bytes := PendingBytes(codec);
      if bytes.None? {
        return Err(EventContract);
      }
      if |pending| >= MAX_PENDING_EVENTS || bytes.value >= MAX_PENDING_BYTES {
        ghost var drained := Drained(model.pending);
        var rest := DrainPending();
        EventsConcat(due, drained);
        EventsOfSort(due + drained);
        events := events + rest;
      } else {
        EventsOfSort(due);
      }
      return Ok(SortEvents(events));
    }

    /**
      Accepts one raw event at a given time and returns what is due. The new state and the
      returned events are those of the coalescing machine.
     */
    method PushAt(raw: RawEvent, wallNs: int, monoNs: nat, random: nat, codec: Codec)
      returns (r: Result<seq<Normalized>, NormalizeError>)
      requires Valid() && Inv(model, codec)
      modifies this
      ensures Valid() && Inv(model, codec)
      ensures model == Push(old(model), raw, wallNs, monoNs, random, codec).state
      ensures
        match Push(old(model), raw, wallNs, monoNs, random, codec).result
        case Ok(es) => r == Ok(Events(es))
        case Err(e) => r == Err(e)
    {
      PushIsOk(model, raw, wallNs, monoNs, random, codec);
      if lastSeen.Some? && monoNs < lastSeen.value {
        return Err(MonotonicRegression(lastSeen.value, monoNs));
      }
      lastSeen := Some(monoNs);
      model := model.(lastSeen := Some(monoNs));
      var event :- Normalize(raw, wallNs, monoNs, random, codec);
      ghost var due := Drained(ExpiredOf(model.pending, monoNs));
      forall g | g in model.pending
        ensures g.last <= monoNs
      {
        PendingStaysKeyed(old(model), g, codec);
      }
      var emitted := FlushExpired(monoNs);
      model := model.(history := model.history + [event]);
      var kind := KindOf(event);
      if kind == None {
        r := PassOn(emitted, due, event);
      } else {
        r := AbsorbEvent(emitted, due, event, kind.value, monoNs, codec);
      }
    }

    method PassOn(emitted: seq<Normalized>, ghost due: seq<Emission>, event: Normalized) returns (r: Result<seq<Normalized>, NormalizeError>)
      requires Valid() && emitted == Events(due) && |model.history| > 0
      modifies this
      ensures Valid() && model == PassThrough(old(model), due, event).state
      ensures PassThrough(old(model), due, event).result.Ok?
      ensures r == Ok(Events(PassThrough(old(model), due, event).result.value))
    {
      ghost var drained := Drained(model.pending);
      ghost var last := [Emission(event, [|model.history| - 1])];
      var rest := DrainPending();
      EventsConcat(due, drained);
      EventsConcat(due + drained, last);
      assert Events(last) == [event] by { assert last[1..] == []; }
      EventsOfSort(due + drained + last);
      return Ok(SortEvents(emitted + rest + [event]));
    }

    method AbsorbEvent(emitted: seq<Normalized>, ghost due: seq<Emission>, event: Normalized, kind: PendingKind, now: nat, codec: Codec)
      returns (r: Result<seq<Normalized>, NormalizeError>)
      requires Valid() && emitted == Events(due) && |model.history| > 0
      modifies this
      ensures Valid() && model == Absorb(old(model), due, event, kind, now, codec).state
      ensures
        match Absorb(old(model), due, event, kind, now, codec).result
        case Ok(es) => r == Ok(Events(es))
        case Err(e) => r == Err(e)
    {
      var i := FindKind(kind);
      if i < |pending| {
        r := MergeInto(i, emitted, due, event, now, codec);
      } else {
        ghost var g := Group(event, now, kind, [|model.history| - 1]);
        PendingsAppended(model.pending, g);
        pending := pending + [Pending(event, now, kind)];
        model := model.(pending := model.pending + [g]);
        r := Finish(emitted, due, codec);
      }
    }

    /** The pending event takes the incoming one in; if its amount is no longer finite, it stays so changed. */
    method MergeInto(i: nat, emitted: seq<Normalized>, ghost due: seq<Emission>, event: Normalized, now: nat, codec: Codec)
      returns (r: Result<seq<Normalized>, NormalizeError>)
      requires Valid() && emitted == Events(due) && |model.history| > 0 && i < |pending| == |model.pending|
      modifies this
      ensures
        var o := Join(old(model), due, event, now, codec, i, Merge(old(model).pending[i].event, event, codec));
        Valid() && model == o.state &&
        match o.result
        case Ok(es) => r == Ok(Events(es))
        case Err(e) => r == Err(e)
    {
      PendingsAt(model.pending);
      match Merge(pending[i].event, event, codec) {
        case Refused => return Err(CountOverflow);
        case Spoiled(merged) =>
          Replace(i, pending[i].(event := merged));
          return Err(ScrollAmountOverflow);
        case Into(merged) =>
          Replace(i, pending[i].(event := merged, lastMono := now));
          r := Finish(emitted, due, codec);
      }
    }

    method Replace(i: nat, p: Pending)
      requires Valid() && |model.history| > 0 && i < |pending| == |model.pending| && p.kind == model.pending[i].kind
      modifies this
      ensures Valid() && model == Grown(old(model), i, p.event, p.lastMono)
    {
      PendingsUpdated(model.pending, i, Grown(model, i, p.event, p.lastMono).pending[i]);
      pending := pending[i := p];
      model := Grown(model, i, p.event, p.lastMono);
    }

    /** Returns everything pending. */
    method Flush() returns (events: seq<Normalized>)
      requires Valid()
      modifies this
      ensures Valid() && model == Coalescing.Flush(old(model)).state
      ensures forall codec :: old(Inv(model, codec)) ==> Inv(model, codec)
      ensures Coalescing.Flush(old(model)).result.Ok? && events == Events(Coalescing.Flush(old(model)).result.value)
    {
      events := DrainPending();
    }
  }
}
