/** The event envelope and payloads, and the size limits every stored event obeys. */
module Schema {
  import opened Common

  /** UTF-8 text. */
  type Str = seq<byte>

  const TEXT_FIELD_MAX_BYTES: nat := 64 * 1024
  const CONTENT_SNAPSHOT_SAFETY_MAX_BYTES: nat := 64 * 1024
  const URL_TITLE_FIELD_MAX_BYTES: nat := 4 * 1024
  const SIZE_LIMIT_RULE := "size_limit"

  datatype App = App(name: Str, bundleId: Option<Str>, pid: Option<int>)

  datatype Window = Window(title: Option<Str>, id: Option<int>)

  datatype Element = Element(role: Option<Str>, title: Option<Str>, value: Option<Str>)

  datatype Redaction = Redaction(applied: bool, rules: seq<string>)

  datatype KeyKind = TextKey | Shortcut | Navigation | Delete | OtherKey

  datatype FieldKind = TextField | SearchField | UrlField | EmailField | NumberField | OtherField

  datatype ScrollDirection = Up | Down | Left | Right

  datatype ClipboardOrigin = CopyShortcut | UnknownOrigin

  /** A double, by its bits. What adding two of them gives, and which are finite, is left to a parameter where it matters. */
  datatype Double = Double(bits: nat)

  /** OCR lines of a snapshot; `jsonBytes` is the size of their serialized form. */
  datatype SnapshotLines = SnapshotLines(texts: seq<Str>, jsonBytes: nat)

  datatype EventData =
    | AppActivate
    | AppLaunch
    | AppTerminate
    | WindowFocus
    | WindowTitle(prevTitle: Option<Str>)
    | UiFocus(focusField: Option<FieldKind>)
    | UiClick(button: nat, clickCount: nat)
    | UiValue(valueField: Option<FieldKind>, valueLen: Option<nat>, valueText: Option<Str>)
    | InputKey(kind: KeyKind, modifiers: seq<nat>, count: nat, combo: Option<Str>, text: Option<Str>, field: Option<FieldKind>)
    | InputScroll(direction: ScrollDirection, amount: Double, scrolls: nat)
    | BrowserNavigate(url: Option<Str>, tabTitle: Option<Str>, mode: nat, transition: Option<nat>)
    | ClipboardCopy(origin: ClipboardOrigin, copyKind: nat, copySize: Option<nat>, copyText: Option<Str>)
    | ClipboardPaste(pasteKind: nat, pasteSize: Option<nat>, pasteText: Option<Str>, pasteField: Option<FieldKind>)
    | ContentSnapshot(snapshotText: Option<Str>, lines: Option<SnapshotLines>)

  datatype EventId = EventId(timestampMs: nat, random: nat)

  datatype Event = Event(
    version: nat, id: EventId, tsMs: int, monoNs: nat, source: Str, eventType: string,
    app: App, window: Option<Window>, element: Option<Element>, data: EventData, redaction: Redaction)

  predicate IsTruncated(e: Event) {
    SIZE_LIMIT_RULE in e.redaction.rules
  }

  function MarkTruncated(r: Redaction): Redaction {
    Redaction(true, if SIZE_LIMIT_RULE in r.rules then r.rules else [SIZE_LIMIT_RULE] + r.rules)
  }

  // ---------------------------------------------------------------- size limits

  predicate Over(value: Option<Str>, limit: nat) {
    value.Some? && |value.value| > limit
  }

  function Kept(value: Option<Str>, limit: nat): Option<Str> {
    if Over(value, limit) then None else value
  }

  predicate LinesOver(lines: Option<SnapshotLines>) {
    lines.Some? && lines.value.jsonBytes > CONTENT_SNAPSHOT_SAFETY_MAX_BYTES
  }

  predicate DataOver(d: EventData) {
    match d
    case WindowTitle(prev) => Over(prev, URL_TITLE_FIELD_MAX_BYTES)
    case UiValue(_, _, text) => Over(text, TEXT_FIELD_MAX_BYTES)
    case InputKey(_, _, _, _, text, _) => Over(text, TEXT_FIELD_MAX_BYTES)
    case BrowserNavigate(url, tabTitle, _, _) => Over(url, URL_TITLE_FIELD_MAX_BYTES) || Over(tabTitle, URL_TITLE_FIELD_MAX_BYTES)
    case ClipboardCopy(_, _, _, text) => Over(text, TEXT_FIELD_MAX_BYTES)
    case ClipboardPaste(_, _, text, _) => Over(text, TEXT_FIELD_MAX_BYTES)
    case ContentSnapshot(text, lines) => Over(text, CONTENT_SNAPSHOT_SAFETY_MAX_BYTES) || LinesOver(lines)
    case _ => false
  }

  function LimitedData(d: EventData): EventData {
    match d
    case WindowTitle(prev) => WindowTitle(Kept(prev, URL_TITLE_FIELD_MAX_BYTES))
    case UiValue(f, n, text) => UiValue(f, n, Kept(text, TEXT_FIELD_MAX_BYTES))
    case InputKey(k, m, n, c, text, f) => InputKey(k, m, n, c, Kept(text, TEXT_FIELD_MAX_BYTES), f)
    case BrowserNavigate(url, tabTitle, m, t) =>
      BrowserNavigate(Kept(url, URL_TITLE_FIELD_MAX_BYTES), Kept(tabTitle, URL_TITLE_FIELD_MAX_BYTES), m, t)
    case ClipboardCopy(o, k, n, text) => ClipboardCopy(o, k, n, Kept(text, TEXT_FIELD_MAX_BYTES))
    case ClipboardPaste(k, n, text, f) => ClipboardPaste(k, n, Kept(text, TEXT_FIELD_MAX_BYTES), f)
    case ContentSnapshot(text, lines) =>
      ContentSnapshot(Kept(text, CONTENT_SNAPSHOT_SAFETY_MAX_BYTES), if LinesOver(lines) then None else lines)
    case _ => d
  }

  predicate EventOver(e: Event) {
    || (e.window.Some? && Over(e.window.value.title, URL_TITLE_FIELD_MAX_BYTES))
    || (e.element.Some? && (Over(e.element.value.title, URL_TITLE_FIELD_MAX_BYTES) || Over(e.element.value.value, TEXT_FIELD_MAX_BYTES)))
    || DataOver(e.data)
  }

  /** The event without its oversized fields, marked when any was dropped. */
  function Limited(e: Event): (r: Event)
    ensures !EventOver(r)
    ensures !EventOver(e) ==> r == e
    ensures IsTruncated(r) <==> IsTruncated(e) || EventOver(e)
    ensures r.data == LimitedData(e.data) && r.monoNs == e.monoNs && r.eventType == e.eventType && r.app == e.app
  {
    e.(window := if e.window.None? then None
                 else Some(e.window.value.(title := Kept(e.window.value.title, URL_TITLE_FIELD_MAX_BYTES))),
       element := if e.element.None? then None
                  else Some(e.element.value.(title := Kept(e.element.value.title, URL_TITLE_FIELD_MAX_BYTES),
                                             value := Kept(e.element.value.value, TEXT_FIELD_MAX_BYTES))),
       data := LimitedData(e.data),
       redaction := if EventOver(e) then MarkTruncated(e.redaction) else e.redaction)
  }

  method DropOversized(value: Option<Str>, limit: nat) returns (kept: Option<Str>, dropped: bool)
    ensures kept == Kept(value, limit) && dropped == Over(value, limit)
  {
    if value.Some? && |value.value| > limit {
      return None, true;
    }
    return value, false;
  }

  /** Drops oversized fields one by one, remembering whether any was dropped. */
  method EnforceSizeLimits(event: Event) returns (e: Event)
    ensures e == Limited(event)
  {
    e := event;
    var truncated := false;
    if e.window.Some? {
      var title, dropped := DropOversized(e.window.value.title, URL_TITLE_FIELD_MAX_BYTES);
      e := e.(window := Some(e.window.value.(title := title)));
      truncated := truncated || dropped;
    }
    if e.element.Some? {
      var title, titleDropped := DropOversized(e.element.value.title, URL_TITLE_FIELD_MAX_BYTES);
      var value, valueDropped := DropOversized(e.element.value.value, TEXT_FIELD_MAX_BYTES);
      e := e.(element := Some(e.element.value.(title := title, value := value)));
      truncated := truncated || titleDropped || valueDropped;
    }
    var data, dropped := LimitData(e.data);
    e := e.(data := data);
    truncated := truncated || dropped;
    if truncated {
      e := e.(redaction := MarkTruncated(e.redaction));
    }
  }

  method LimitData(data: EventData) returns (d: EventData, truncated: bool)
    ensures d == LimitedData(data) && truncated == DataOver(data)
  {
    d := data;
    truncated := false;
    match data {
      case WindowTitle(prev) =>
        var kept, dropped := DropOversized(prev, URL_TITLE_FIELD_MAX_BYTES);
        d, truncated := WindowTitle(kept), dropped;
      case UiValue(_, _, text) =>
        var kept, dropped := DropOversized(text, TEXT_FIELD_MAX_BYTES);
        d, truncated := data.(valueText := kept), dropped;
      case InputKey(_, _, _, _, text, _) =>
        var kept, dropped := DropOversized(text, TEXT_FIELD_MAX_BYTES);
        d, truncated := data.(text := kept), dropped;
      case BrowserNavigate(url, tabTitle, _, _) =>
        var keptUrl, urlDropped := DropOversized(url, URL_TITLE_FIELD_MAX_BYTES);
        var keptTitle, titleDropped := DropOversized(tabTitle, URL_TITLE_FIELD_MAX_BYTES);
        d, truncated := data.(url := keptUrl, tabTitle := keptTitle), urlDropped || titleDropped;
      case ClipboardCopy(_, _, _, text) =>
        var kept, dropped := DropOversized(text, TEXT_FIELD_MAX_BYTES);
        d, truncated := data.(copyText := kept), dropped;
      case ClipboardPaste(_, _, text, _) =>
        var kept, dropped := DropOversized(text, TEXT_FIELD_MAX_BYTES);
        d, truncated := data.(pasteText := kept), dropped;
      case ContentSnapshot(text, lines) =>
        var kept, dropped := DropOversized(text, CONTENT_SNAPSHOT_SAFETY_MAX_BYTES);
        var linesDropped := lines.Some? && lines.value.jsonBytes > CONTENT_SNAPSHOT_SAFETY_MAX_BYTES;
        d, truncated := ContentSnapshot(kept, if linesDropped then None else lines), dropped || linesDropped;
      case _ =>
    }
  }
}
