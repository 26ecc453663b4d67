/**
  Raw event normalization and coalescing as a state machine: what each push emits, what stays
  pending, and which of the accepted events each emitted or pending event stands for.
 */
module Coalescing {
  import opened Common
  import opened Schema
  import opened EventContract

  const MAX_PENDING_EVENTS: nat := 512
  const MAX_PENDING_BYTES: nat := 4 * 1024 * 1024
  const KEY_GAP_NS: nat := 2_000_000_000
  const SCROLL_GAP_NS: nat := 1_000_000_000
  const WINDOW_TITLE_DEBOUNCE_NS: nat := 500_000_000
  const NANOS_PER_MILLISECOND: int := 1_000_000
  const MAX_ULID_TIMESTAMP_MS: int := 0x1_0000_0000_0000 - 1

  datatype Surface = Surface(cgWindowId: Option<int>, scriptWindowId: Option<Str>, tabId: Option<Str>)

  datatype CaptureContext = CaptureContext(url: Option<Str>, surface: Option<Surface>)

  /** The policy selectors an event had before size limits were applied. */
  datatype Selectors = Selectors(app: App, title: Option<Str>, url: Option<Str>)

  datatype Normalized = Normalized(event: Event, context: CaptureContext, selectors: Selectors)

  datatype RawEvent = RawEvent(
    source: Str, eventType: string, app: App, window: Option<Window>, element: Option<Element>,
    data: EventData, context: CaptureContext)

  datatype NormalizeError =
    | MonotonicRegression(previous: nat, current: nat)
    | CountOverflow
    | ScrollAmountOverflow
    | WallClockOutOfRange
    | EventContract

  // ---------------------------------------------------------------- normalization

  function SelectorsOf(raw: RawEvent): Selectors {
    Selectors(
      App(raw.app.name, raw.app.bundleId, None),
      if raw.window.Some? then raw.window.value.title else None,
      if raw.data.BrowserNavigate? then raw.data.url else raw.context.url)
  }

  function Normalize(raw: RawEvent, wallNs: int, monoNs: nat, random: nat, codec: Codec): Result<Normalized, NormalizeError> {
    var ms := wallNs / NANOS_PER_MILLISECOND;
    if !(0 <= ms <= MAX_ULID_TIMESTAMP_MS) then Err(WallClockOutOfRange)
    else match SchemaVersion(raw.eventType)
      case None => Err(EventContract)
      case Some(version) =>
        var event := Event(version, EventId(ms, random), ms, monoNs, raw.source, raw.eventType,
                           raw.app, raw.window, raw.element, raw.data, Redaction(false, []));
        if Serializable(Limited(event), codec) then Ok(Normalized(Limited(event), raw.context, SelectorsOf(raw)))
        else Err(EventContract)
  }

  // ---------------------------------------------------------------- what may coalesce

  datatype WindowKey = ById(id: int) | ByTitle(title: Option<Str>)

  datatype PendingKind =
    | Key(app: Str, window: WindowKey, context: CaptureContext, selectors: Selectors, field: Option<FieldKind>, key: KeyKind)
    | Scroll(app: Str, window: WindowKey, context: CaptureContext, selectors: Selectors, direction: ScrollDirection)
    | TitleBurst(app: Str, window: WindowKey, context: CaptureContext)

  function WindowNs(kind: PendingKind): nat {
    match kind
    case Key(_, _, _, _, _, _) => KEY_GAP_NS
    case Scroll(_, _, _, _, _) => SCROLL_GAP_NS
    case TitleBurst(_, _, _) => WINDOW_TITLE_DEBOUNCE_NS
  }

  function Lower(s: Str): Str {
    seq(|s|, i requires 0 <= i < |s| => if 65 <= s[i] <= 90 then s[i] + 32 else s[i])
  }

  function WindowKeyOf(e: Event): WindowKey {
    match e.window
    case None => ByTitle(None)
    case Some(w) => if w.id.Some? then ById(w.id.value) else ByTitle(w.title)
  }

  /** The kind an event coalesces under, if it coalesces at all. */
  function KindOf(n: Normalized): Option<PendingKind> {
    var e := n.event;
    if IsTruncated(e) then None
    else
      var app := Lower(if e.app.bundleId.Some? then e.app.bundleId.value else e.app.name);
      var window := WindowKeyOf(e);
      match e.data
      case InputKey(kind, _, _, _, _, field) =>
        if kind == TextKey || kind == Navigation || kind == Delete
        then Some(Key(app, window, n.context, n.selectors, field, kind)) else None
      case InputScroll(direction, _, _) => Some(Scroll(app, window, n.context, n.selectors, direction))
      case WindowTitle(_) => if e.window.Some? then Some(TitleBurst(app, window, n.context)) else None
      case _ => None
  }

  // ---------------------------------------------------------------- what a group of events combines to

  function KeyCount(n: Normalized): nat {
    match n.event.data
    case InputKey(_, _, count, _, _, _) => count
    case InputScroll(_, _, scrolls) => scrolls
    case _ => 0
  }

  function TextOf(n: Normalized): Option<Str> {
    if n.event.data.InputKey? then n.event.data.text else None
  }

  function AmountOf(n: Normalized): Double {
    if n.event.data.InputScroll? then n.event.data.amount else Double(0)
  }

  function CountSum(parts: seq<Normalized>): nat {
    if parts == [] then 0 else CountSum(parts[..|parts| - 1]) + KeyCount(parts[|parts| - 1])
  }

  /** The amounts added up from the first one on; the order matters to doubles. */
  function AmountSum(parts: seq<Normalized>, codec: Codec): Double
    requires parts != []
  {
    if |parts| == 1 then AmountOf(parts[0])
    else codec.plus(AmountSum(parts[..|parts| - 1], codec), AmountOf(parts[|parts| - 1]))
  }

  /** All the text of the parts, in order; an absent text adds nothing. */
  function JoinedText(parts: seq<Normalized>): Str {
    if parts == [] then []
    else JoinedText(parts[..|parts| - 1]) + (if TextOf(parts[|parts| - 1]).Some? then TextOf(parts[|parts| - 1]).value else [])
  }

  predicate AnyText(parts: seq<Normalized>) {
    parts != [] && (AnyText(parts[..|parts| - 1]) || TextOf(parts[|parts| - 1]).Some?)
  }

  /** The first key event of a group with the counts summed and the text joined, unless that is too long. */
  function CombinedKeys(first: Normalized, count: nat, joined: Str, any: bool): Normalized
    requires first.event.data.InputKey?
  {
    var tooLong := |joined| > TEXT_FIELD_MAX_BYTES;
    first.(event := first.event.(
      data := first.event.data.(count := count, text := if any && !tooLong then Some(joined) else None),
      redaction := if tooLong then Redaction(true, [SIZE_LIMIT_RULE]) else first.event.redaction))
  }

  /**
    The event that stands for a whole group. Keys and scrolls keep the first event with the
    counts and amounts summed; text is the in-order concatenation, or is given up for good
    once it would exceed the field limit; a title burst keeps only its last event.
   */
  function Combined(parts: seq<Normalized>, codec: Codec): Normalized
    requires parts != []
  {
    var first := parts[0];
    match first.event.data
    case InputKey(_, _, _, _, _, _) => CombinedKeys(first, CountSum(parts), JoinedText(parts), AnyText(parts))
    case InputScroll(direction, _, _) =>
      first.(event := first.event.(data := InputScroll(direction, AmountSum(parts, codec), CountSum(parts))))
    case _ => parts[|parts| - 1]
  }

  // ---------------------------------------------------------------- the state machine

  /** A pending event, the accepted events it absorbed (as positions in the history), and its key. */
  datatype Group = Group(event: Normalized, last: nat, kind: PendingKind, parts: seq<nat>)

  datatype State = State(lastSeen: Option<nat>, pending: seq<Group>, history: seq<Normalized>)

  /** An emitted event with the accepted events it stands for. */
  datatype Emission = Emission(event: Normalized, parts: seq<nat>)

  /** What one push returns to its caller, and what it drops when it fails half way. */
  datatype Outcome = Outcome(state: State, result: Result<seq<Emission>, NormalizeError>, lost: seq<Emission>)

  function MonoOf(e: Emission): nat {
    e.event.event.monoNs
  }

  function InsertByMono(e: Emission, s: seq<Emission>): seq<Emission> {
    if s == [] || MonoOf(e) <= MonoOf(s[0]) then [e] + s else [s[0]] + InsertByMono(e, s[1..])
  }

  /** The stable sort by monotonic time. */
  function SortByMono(s: seq<Emission>): seq<Emission> {
    if s == [] then [] else InsertByMono(s[0], SortByMono(s[1..]))
  }

  function Emit(g: Group): Emission {
    Emission(g.event, g.parts)
  }

  function EmitAll(pending: seq<Group>): seq<Emission> {
    if pending == [] then [] else [Emit(pending[0])] + EmitAll(pending[1..])
  }

  predicate IsExpired(g: Group, now: nat) {
    now - g.last > WindowNs(g.kind)
  }

  function ExpiredOf(pending: seq<Group>, now: nat): seq<Group> {
    if pending == [] then []
    else if IsExpired(pending[0], now) then [pending[0]] + ExpiredOf(pending[1..], now)
    else ExpiredOf(pending[1..], now)
  }

  function RetainedOf(pending: seq<Group>, now: nat): seq<Group> {
    if pending == [] then []
    else if IsExpired(pending[0], now) then RetainedOf(pending[1..], now)
    else [pending[0]] + RetainedOf(pending[1..], now)
  }

  function Drained(pending: seq<Group>): seq<Emission> {
    SortByMono(EmitAll(pending))
  }

  /** The place of the pending event of this kind, or the end. */
  function Find(pending: seq<Group>, kind: PendingKind): (i: nat)
    ensures i <= |pending|
    ensures i < |pending| ==> pending[i].kind == kind
    ensures forall j :: 0 <= j < i ==> pending[j].kind != kind
  {
    if pending == [] || pending[0].kind == kind then 0 else 1 + Find(pending[1..], kind)
  }

  /**
    What becomes of a pending event when one more of its kind comes. A count that does not fit
    refuses the incoming event; an amount that is no longer finite is found only after both
    have been added to the pending event.
   */
  datatype Merged = Into(event: Normalized) | Refused | Spoiled(event: Normalized)

  function MergedScroll(current: Normalized, amount: Double, count: nat): Normalized
    requires current.event.data.InputScroll?
  {
    current.(event := current.event.(data := InputScroll(current.event.data.direction, amount, count)))
  }

  function WithinLimits(n: Normalized): Normalized {
    n.(event := Limited(n.event))
  }

  /** Absorbs one more event of the same kind into a pending one. */
  function Merge(current: Normalized, incoming: Normalized, codec: Codec): Merged {
    match (current.event.data, incoming.event.data)
    case (InputKey(kind, modifiers, count, combo, text, field), InputKey(_, _, more, _, next, _)) =>
      if count + more > MAX_U64 then Refused
      else
        var text' :=
          if IsTruncated(current.event) || next.None? then text
          else if text.Some? then Some(text.value + next.value) else next;
        Into(WithinLimits(current.(event := current.event.(data := InputKey(kind, modifiers, count + more, combo, text', field)))))
    case (InputScroll(_, amount, count), InputScroll(_, more, moreCount)) =>
      if count + moreCount > MAX_U64 then Refused
      else
        var merged := MergedScroll(current, codec.plus(amount, more), count + moreCount);
        if codec.finite(merged.event.data.amount) then Into(WithinLimits(merged)) else Spoiled(merged)
    case (_, _) => Into(WithinLimits(incoming))
  }

  function Length(s: Option<Str>): nat {
    if s.Some? then |s.value| else 0
  }

  function SelectorBytes(s: Selectors): nat {
    |s.app.name| + Length(s.app.bundleId) + Length(s.title) + Length(s.url)
  }

  /** Bytes attributed to one pending event. */
  function RetainedBytes(n: Normalized, codec: Codec): nat {
    var surface := if n.context.surface.Some?
                   then Length(n.context.surface.value.scriptWindowId) + Length(n.context.surface.value.tabId) else 0;
    var selectors := Length(n.context.url) + surface + |n.event.app.name| + Length(n.event.app.bundleId)
                     + (if n.event.window.Some? then Length(n.event.window.value.title) else 0);
    codec.size(n.event) + 2 * selectors + 2 * SelectorBytes(n.selectors)
  }

  function TotalBytes(pending: seq<Group>, codec: Codec): nat {
    if pending == [] then 0 else RetainedBytes(pending[0].event, codec) + TotalBytes(pending[1..], codec)
  }

  predicate AtCapacity(pending: seq<Group>, codec: Codec) {
    |pending| >= MAX_PENDING_EVENTS || TotalBytes(pending, codec) >= MAX_PENDING_BYTES
  }

  /** Adding up the bytes serializes every pending event, and fails if one cannot be. */
  predicate Measurable(pending: seq<Group>, codec: Codec) {
    forall i :: 0 <= i < |pending| ==> Serializable(pending[i].event.event, codec)
  }

  /** Returns what is due, with everything still pending once the caps are reached; when the bytes cannot be added up, what was due is dropped. */
  function Settle(s: State, due: seq<Emission>, codec: Codec): Outcome {
    if !Measurable(s.pending, codec) then Outcome(s, Err(EventContract), due)
    else if AtCapacity(s.pending, codec)
    then Outcome(s.(pending := []), Ok(SortByMono(due + Drained(s.pending))), [])
    else Outcome(s, Ok(SortByMono(due)), [])
  }

  function Push(s: State, raw: RawEvent, wallNs: int, monoNs: nat, random: nat, codec: Codec): Outcome {
    if s.lastSeen.Some? && monoNs < s.lastSeen.value
    then Outcome(s, Err(MonotonicRegression(s.lastSeen.value, monoNs)), [])
    else
      var seen := s.(lastSeen := Some(monoNs));
      match Normalize(raw, wallNs, monoNs, random, codec)
      case Err(e) => Outcome(seen, Err(e), [])
      case Ok(event) => Accept(seen, event, monoNs, codec)
  }

  /** The new event goes to the end of the history; what has expired is due. */
  function Accept(s: State, event: Normalized, now: nat, codec: Codec): Outcome {
    var due := Drained(ExpiredOf(s.pending, now));
    var next := State(s.lastSeen, RetainedOf(s.pending, now), s.history + [event]);
    match KindOf(event)
    case None => PassThrough(next, due, event)
    case Some(kind) => Absorb(next, due, event, kind, now, codec)
  }

  /** An event that does not coalesce follows everything that was pending. */
  function PassThrough(s: State, due: seq<Emission>, event: Normalized): Outcome
    requires |s.history| > 0
  {
    var last := Emission(event, [|s.history| - 1]);
    Outcome(s.(pending := []), Ok(SortByMono(due + Drained(s.pending) + [last])), [])
  }

  /** An event that coalesces joins the pending event of its kind, or becomes one. */
  function Absorb(s: State, due: seq<Emission>, event: Normalized, kind: PendingKind, now: nat, codec: Codec): Outcome
    requires |s.history| > 0
  {
    var i := Find(s.pending, kind);
    if i == |s.pending| then
      Settle(s.(pending := s.pending + [Group(event, now, kind, [|s.history| - 1])]), due, codec)
    else
      Join(s, due, event, now, codec, i, Merge(s.pending[i].event, event, codec))
  }

  /** A pending group that has taken in the last accepted event. */
  function Grown(s: State, i: nat, event: Normalized, last: nat): State
    requires |s.history| > 0 && i < |s.pending|
  {
    s.(pending := s.pending[i := Group(event, last, s.pending[i].kind, s.pending[i].parts + [|s.history| - 1])])
  }

  /** When the merge fails, what was due is dropped, and a refused event with it. */
  function Join(s: State, due: seq<Emission>, event: Normalized, now: nat, codec: Codec, i: nat, merged: Merged): Outcome
    requires |s.history| > 0 && i < |s.pending|
  {
    match merged
    case Into(m) => Settle(Grown(s, i, m, now), due, codec)
    case Refused => Outcome(s, Err(CountOverflow), due + [Emission(event, [|s.history| - 1])])
    case Spoiled(m) => Outcome(Grown(s, i, m, s.pending[i].last), Err(ScrollAmountOverflow), due)
  }

  function Flush(s: State): Outcome {
    Outcome(s.(pending := []), Ok(Drained(s.pending)), [])
  }

  // ---------------------------------------------------------------- what the parts of a group combine to

  /** A normalized event is within the size limits; unless truncated, nothing has been redacted yet. */
  predicate IsPart(n: Normalized) {
    !EventOver(n.event) && (IsTruncated(n.event) || n.event.redaction == Redaction(false, []))
  }

  lemma NormalizedIsPart(raw: RawEvent, wallNs: int, monoNs: nat, random: nat, codec: Codec)
    ensures
      var r := Normalize(raw, wallNs, monoNs, random, codec);
      r.Ok? ==>
        && IsPart(r.value) && Serializable(r.value.event, codec)
        && r.value.event.monoNs == monoNs && r.value.event.data == LimitedData(raw.data)
  {
  }

  ghost predicate SameKind(parts: seq<Normalized>, kind: PendingKind) {
    parts != [] && forall n :: n in parts ==> IsPart(n) && KindOf(n) == Some(kind)
  }

  lemma CombinedOfOne(n: Normalized, codec: Codec)
    requires IsPart(n)
    ensures Combined([n], codec) == n
  {
    assert [n][..0] == [];
    assert CountSum([n]) == KeyCount(n) && AmountSum([n], codec) == AmountOf(n);
    assert JoinedText([n]) == if TextOf(n).Some? then TextOf(n).value else [];
    assert AnyText([n]) == TextOf(n).Some?;
  }

  /** The group is truncated exactly when its whole text would not fit, and otherwise keeps its kind. */
  lemma CombinedKind(parts: seq<Normalized>, kind: PendingKind, codec: Codec)
    requires SameKind(parts, kind)
    ensures
      var c := Combined(parts, codec);
      && IsTruncated(c.event) == (kind.Key? && |JoinedText(parts)| > TEXT_FIELD_MAX_BYTES)
      && !EventOver(c.event)
      && (IsTruncated(c.event) || KindOf(c) == Some(kind))
  {
    assert parts[0] in parts && parts[|parts| - 1] in parts;
  }

  lemma LastIsPart(parts: seq<Normalized>, next: Normalized)
    ensures (parts + [next])[..|parts|] == parts && (parts + [next])[|parts|] == next
  {
  }

  lemma {:induction false} NoTextIsEmpty(parts: seq<Normalized>)
    requires !AnyText(parts)
    ensures JoinedText(parts) == []
  {
    if parts != [] {
      NoTextIsEmpty(parts[..|parts| - 1]);
    }
  }

  lemma OneMorePart(parts: seq<Normalized>, next: Normalized)
    requires parts != []
    ensures (parts + [next])[0] == parts[0]
    ensures CountSum(parts + [next]) == CountSum(parts) + KeyCount(next)
    ensures JoinedText(parts + [next]) == JoinedText(parts) + (if TextOf(next).Some? then TextOf(next).value else [])
    ensures AnyText(parts + [next]) == (AnyText(parts) || TextOf(next).Some?)
  {
    LastIsPart(parts, next);
  }

  lemma KeysMerge(first: Normalized, count: nat, joined: Str, any: bool, next: Normalized, codec: Codec)
    requires first.event.data.InputKey? && next.event.data.InputKey? && !EventOver(first.event) && !IsTruncated(first.event)
    requires first.event.redaction == Redaction(false, []) && (any || joined == []) && count + KeyCount(next) <= MAX_U64
    ensures
      var more := if TextOf(next).Some? then TextOf(next).value else [];
      Merge(CombinedKeys(first, count, joined, any), next, codec)
        == Into(CombinedKeys(first, count + KeyCount(next), joined + more, any || TextOf(next).Some?))
  {
    assert joined + [] == joined;
    assert TextOf(next).Some? ==> [] + TextOf(next).value == TextOf(next).value;
    var more := if TextOf(next).Some? then TextOf(next).value else [];
    var merged := Merge(CombinedKeys(first, count, joined, any), next, codec).event.event;
    var expected := CombinedKeys(first, count + KeyCount(next), joined + more, any || TextOf(next).Some?).event;
    assert merged.data == expected.data;
    assert merged.redaction == expected.redaction;
    assert merged.window == expected.window && merged.element == expected.element;
  }

  lemma KeysCombine(parts: seq<Normalized>, kind: PendingKind, codec: Codec)
    requires SameKind(parts, kind) && kind.Key?
    ensures parts[0].event.data.InputKey? && IsPart(parts[0]) && !IsTruncated(parts[0].event)
    ensures Combined(parts, codec) == CombinedKeys(parts[0], CountSum(parts), JoinedText(parts), AnyText(parts))
  {
    assert parts[0] in parts;
  }

  lemma SameKindGrows(parts: seq<Normalized>, next: Normalized, kind: PendingKind)
    requires SameKind(parts, kind) && IsPart(next) && KindOf(next) == Some(kind)
    ensures SameKind(parts + [next], kind) && (parts + [next])[0] == parts[0]
  {
  }

  lemma MergeExtendsKeys(parts: seq<Normalized>, next: Normalized, kind: PendingKind, codec: Codec)
    requires SameKind(parts, kind) && IsPart(next) && KindOf(next) == Some(kind) && kind.Key?
    requires CountSum(parts) + KeyCount(next) <= MAX_U64
    ensures Merge(Combined(parts, codec), next, codec) == Into(Combined(parts + [next], codec))
  {
    SameKindGrows(parts, next, kind);
    KeysCombine(parts, kind, codec);
    KeysCombine(parts + [next], kind, codec);
    OneMorePart(parts, next);
    if !AnyText(parts) {
      NoTextIsEmpty(parts);
    }
    KeysMerge(parts[0], CountSum(parts), JoinedText(parts), AnyText(parts), next, codec);
  }

  lemma ScrollsMerge(current: Normalized, next: Normalized, codec: Codec)
    requires current.event.data.InputScroll? && next.event.data.InputScroll? && !EventOver(current.event)
    requires KeyCount(current) + KeyCount(next) <= MAX_U64
    ensures
      var sum := codec.plus(AmountOf(current), AmountOf(next));
      var merged := MergedScroll(current, sum, KeyCount(current) + KeyCount(next));
      Merge(current, next, codec) == if codec.finite(sum) then Into(merged) else Spoiled(merged)
  {
  }

  lemma OneMoreAmount(parts: seq<Normalized>, next: Normalized, codec: Codec)
    requires parts != []
    ensures AmountSum(parts + [next], codec) == codec.plus(AmountSum(parts, codec), AmountOf(next))
  {
    LastIsPart(parts, next);
  }

  lemma MergeExtendsScrolls(parts: seq<Normalized>, next: Normalized, kind: PendingKind, codec: Codec)
    requires SameKind(parts, kind) && IsPart(next) && KindOf(next) == Some(kind) && kind.Scroll?
    requires CountSum(parts) + KeyCount(next) <= MAX_U64
    ensures
      var longer := Combined(parts + [next], codec);
      Merge(Combined(parts, codec), next, codec) == if codec.finite(AmountOf(longer)) then Into(longer) else Spoiled(longer)
  {
    assert parts[0] in parts;
    OneMorePart(parts, next);
    OneMoreAmount(parts, next, codec);
    ScrollsMerge(Combined(parts, codec), next, codec);
  }

  lemma MergeReplacesTitle(parts: seq<Normalized>, next: Normalized, kind: PendingKind, codec: Codec)
    requires SameKind(parts, kind) && IsPart(next) && KindOf(next) == Some(kind) && kind.TitleBurst?
    ensures Merge(Combined(parts, codec), next, codec) == Into(Combined(parts + [next], codec))
  {
    LastIsPart(parts, next);
    assert parts[0] in parts && parts[|parts| - 1] in parts;
    assert (parts + [next])[0] == parts[0];
  }

  lemma MergeOverflows(parts: seq<Normalized>, next: Normalized, kind: PendingKind, codec: Codec)
    requires SameKind(parts, kind) && IsPart(next) && KindOf(next) == Some(kind) && !kind.TitleBurst?
    requires CountSum(parts) + KeyCount(next) > MAX_U64
    ensures Merge(Combined(parts, codec), next, codec) == Refused
  {
    assert parts[0] in parts;
  }

  /**
    Merging one event at a time computes the closed form: truncation happens exactly when the
    whole text first exceeds the limit, dropped text never returns, counts and amounts keep
    adding up. The event is refused exactly when the count would not fit, and the group is
    spoiled exactly when it does and the amount is no longer finite.
   */
  lemma MergeExtendsCombined(parts: seq<Normalized>, next: Normalized, kind: PendingKind, codec: Codec)
    requires SameKind(parts, kind) && IsPart(next) && KindOf(next) == Some(kind)
    ensures
      var longer := Combined(parts + [next], codec);
      Merge(Combined(parts, codec), next, codec) ==
        if !kind.TitleBurst? && CountSum(parts) + KeyCount(next) > MAX_U64 then Refused
        else if kind.Scroll? && !codec.finite(AmountOf(longer)) then Spoiled(longer)
        else Into(longer)
  {
    if kind.TitleBurst? {
      MergeReplacesTitle(parts, next, kind, codec);
    } else if CountSum(parts) + KeyCount(next) > MAX_U64 {
      MergeOverflows(parts, next, kind, codec);
    } else if kind.Key? {
      MergeExtendsKeys(parts, next, kind, codec);
    } else {
      MergeExtendsScrolls(parts, next, kind, codec);
    }
  }

  // ---------------------------------------------------------------- what can be serialized

  lemma {:induction false} CountsAddUp(parts: seq<Normalized>)
    requires parts != []
    ensures CountSum(parts) >= KeyCount(parts[0])
  {
    if |parts| > 1 {
      CountsAddUp(parts[..|parts| - 1]);
    }
  }

  /** Only its count and its amount can keep a combined event from being serialized. */
  lemma CombinedSerializes(parts: seq<Normalized>, kind: PendingKind, codec: Codec)
    requires SameKind(parts, kind) && CountSum(parts) <= MAX_U64
    requires forall n :: n in parts ==> Serializable(n.event, codec)
    ensures Serializable(Combined(parts, codec).event, codec) <==> (kind.Scroll? ==> codec.finite(AmountOf(Combined(parts, codec))))
  {
    assert parts[0] in parts && parts[|parts| - 1] in parts;
    CountsAddUp(parts);
  }
}
