/** The contract every event must meet before it is serialized: source, payload, attribution and fields. */
module EventContract {
  import opened Common
  import opened Schema

  const KNOWN_EVENT_TYPES: seq<string> := [
    "app.activate", "app.launch", "app.terminate", "window.focus", "window.title", "ui.focus", "ui.click",
    "ui.value", "input.key", "input.scroll", "browser.navigate", "clipboard.copy", "clipboard.paste", "content.snapshot"]

  function SchemaVersion(eventType: string): Option<nat> {
    if eventType !in KNOWN_EVENT_TYPES then None
    else if eventType == "content.snapshot" then Some(4) else Some(1)
  }

  /**
    What the machine and the libraries decide: sums of doubles and which doubles are finite, which
    texts are absolute URIs, which snapshots are well formed, and how long an event is when
    serialized. Nothing is assumed of any of them.
   */
  datatype Codec = Codec(plus: (Double, Double) -> Double, finite: Double -> bool,
                         absolute: Str -> bool, snapshot: Event -> bool, size: Event -> nat)

  const DOT: byte := 46
  const UNDERSCORE: byte := 95

  /** "Unknown" */
  const UNKNOWN_NAME: Str := [85, 110, 107, 110, 111, 119, 110]

  predicate LowerOrDigit(b: byte) {
    97 <= b <= 122 || 48 <= b <= 57
  }

  function FirstDot(s: Str): (at: nat)
    ensures at <= |s|
  {
    if s == [] || s[0] == DOT then 0 else 1 + FirstDot(s[1..])
  }

  /** A family and a name, of small letters and digits, with one dot between them. */
  predicate IsDotted(s: Str) {
    var at := FirstDot(s);
    && 0 < at && at + 1 < |s|
    && (forall i :: 0 <= i < at ==> LowerOrDigit(s[i]))
    && (forall i :: at < i < |s| ==> LowerOrDigit(s[i]) || s[i] == UNDERSCORE)
  }

  function TypeOf(d: EventData): string {
    match d
    case AppActivate => "app.activate"
    case AppLaunch => "app.launch"
    case AppTerminate => "app.terminate"
    case WindowFocus => "window.focus"
    case WindowTitle(_) => "window.title"
    case UiFocus(_) => "ui.focus"
    case UiClick(_, _) => "ui.click"
    case UiValue(_, _, _) => "ui.value"
    case InputKey(_, _, _, _, _, _) => "input.key"
    case InputScroll(_, _, _) => "input.scroll"
    case BrowserNavigate(_, _, _, _) => "browser.navigate"
    case ClipboardCopy(_, _, _, _) => "clipboard.copy"
    case ClipboardPaste(_, _, _, _) => "clipboard.paste"
    case ContentSnapshot(_, _) => "content.snapshot"
  }

  /** Which events name a window, and which an element in it. */
  predicate IsAttributed(e: Event) {
    var window, element := e.window.Some?, e.element.Some?;
    match e.data
    case AppActivate => !element
    case AppLaunch => !window && !element
    case AppTerminate => !window && !element
    case UiFocus(_) => window && element
    case UiClick(_, _) => window && element
    case UiValue(_, _, _) => window && element
    case ClipboardCopy(origin, _, size, text) =>
      if origin.CopyShortcut? then window && !element
      else !window && !element && e.app == App(UNKNOWN_NAME, None, None) && size.None? && text.None?
    case _ => window && !element
  }

  /** Modifiers are held by rank; they are serialized only in order and without duplicates. */
  predicate Ordered(modifiers: seq<nat>) {
    forall i, j :: 0 <= i < j < |modifiers| ==> modifiers[i] < modifiers[j]
  }

  /** Counts are positive 64-bit numbers and amounts are finite. */
  predicate FieldsFit(d: EventData, codec: Codec) {
    match d
    case InputKey(_, modifiers, count, _, _, _) => Ordered(modifiers) && 0 < count <= MAX_U64
    case InputScroll(_, amount, scrolls) => codec.finite(amount) && 0 < scrolls <= MAX_U64
    case UiClick(_, clicks) => 0 < clicks <= MAX_U64
    case _ => true
  }

  predicate ContentFits(e: Event, codec: Codec) {
    match e.data
    case BrowserNavigate(url, _, _, _) => if url.Some? then codec.absolute(url.value) else IsTruncated(e)
    case ContentSnapshot(_, _) => codec.snapshot(e)
    case _ => true
  }

  /** Whether an event can be serialized. */
  predicate Serializable(e: Event, codec: Codec) {
    && SchemaVersion(e.eventType) == Some(e.version)
    && IsDotted(e.source) && e.eventType == TypeOf(e.data)
    && IsAttributed(e) && ContentFits(e, codec) && FieldsFit(e.data, codec)
  }
}
