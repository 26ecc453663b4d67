/**
  The capture-time privacy boundary, applied again whenever the filter changes: an event may be
  dropped, lose text, be redacted and be cut to size, but never gets anything back.
 */
module FilterReload {
  import opened Common
  import opened Schema
  import opened UrlHosts

  datatype Scope = AllEvents | TextContent | Snapshot

  datatype Rule = Email | CreditCard | Token

  datatype Selectors = Selectors(app: App, title: Option<Str>, url: Option<Str>)

  datatype Pending = Pending(event: Event, selectors: Selectors)

  /** App rules and website lists per scope, an optional capture policy, and the configured redactors. */
  datatype Filter = Filter(apps: Scope -> App -> bool, includeOnly: Scope -> seq<string>, exclude: Scope -> seq<string>,
                           policy: Option<Selectors -> bool>, redactors: seq<Rule>)

  /**
    What a rule makes of a text and of OCR lines, whether it overlaps any of the lines, and the
    serialized size of lines. Nothing is assumed of any of them.
   */
  datatype Redactor = Redactor(clean: Rule -> Str -> Str, cleanLines: Rule -> seq<Str> -> seq<Str>,
                               touches: Rule -> seq<Str> -> bool, measure: seq<Str> -> nat, addresses: Addresses)

  // ---------------------------------------------------------------- who may pass

  function Ascii(s: string): Str {
    seq(|s|, i requires 0 <= i < |s| => (s[i] as int % 128) as byte)
  }

  /** Bytes read as characters, one for one; only ASCII text can be a URL. */
  function AsText(s: Str): string {
    seq(|s|, i requires 0 <= i < |s| => s[i] as int as char)
  }

  const BROWSERS: seq<string> := ["com.google.Chrome", "com.apple.Safari"]

  predicate IsBrowser(app: App) {
    app.bundleId == Some(Ascii(BROWSERS[0])) || app.bundleId == Some(Ascii(BROWSERS[1]))
  }

  predicate StartsWith(s: string, prefix: string) {
    prefix <= s
  }

  function HostIn(s: Selectors, r: Redactor): Option<string> {
    if s.url.Some? then ExtractUrlHost(AsText(s.url.value), r.addresses) else None
  }

  predicate AppAllowed(f: Filter, scope: Scope, app: App) {
    f.apps(AllEvents)(app) && (scope.AllEvents? || f.apps(scope)(app))
  }

  predicate HostAllowed(f: Filter, scope: Scope, host: Option<string>) {
    && host.Some?
    && HostIsAllowed(host.value, f.includeOnly(AllEvents), f.exclude(AllEvents))
    && (scope.AllEvents? || HostIsAllowed(host.value, f.includeOnly(scope), f.exclude(scope)))
  }

  /** An optional policy takes over when the URL is unavailable. */
  predicate UnavailableAllowed(f: Filter, host: Option<string>) {
    f.policy.Some? && host.None?
  }

  predicate SiteAllowed(f: Filter, scope: Scope, s: Selectors, host: Option<string>) {
    UnavailableAllowed(f, host) || !IsBrowser(s.app) || HostAllowed(f, scope, host)
  }

  /** Whether the filter lets an event with these selectors through at all. */
  predicate Admits(f: Filter, s: Selectors, eventType: string, r: Redactor) {
    var host := HostIn(s, r);
    && AppAllowed(f, AllEvents, s.app)
    && (f.policy.Some? ==> f.policy.value(s))
    && (StartsWith(eventType, "browser.") ==> SiteAllowed(f, AllEvents, s, host) && (host.Some? || UnavailableAllowed(f, host)))
    && (StartsWith(eventType, "content.") ==> AppAllowed(f, Snapshot, s.app) && SiteAllowed(f, Snapshot, s, host))
  }

  /** Whether it lets the event through only without its text. */
  predicate Suppresses(f: Filter, s: Selectors, r: Redactor) {
    var host := HostIn(s, r);
    !SiteAllowed(f, AllEvents, s, host) || !AppAllowed(f, TextContent, s.app) || !SiteAllowed(f, TextContent, s, host)
  }

  // ---------------------------------------------------------------- suppressing text

  function SuppressedData(d: EventData): EventData {
    match d
    case InputKey(_, _, _, _, _, _) => d.(text := None)
    case UiValue(_, _, _) => d.(valueText := None)
    case ClipboardCopy(_, _, _, _) => d.(copyText := None, copySize := None)
    case ClipboardPaste(_, _, _, _) => d.(pasteText := None, pasteSize := None)
    case _ => d
  }

  function Suppressed(e: Event): Event {
    e.(element := if e.element.Some? then Some(e.element.value.(value := None)) else None, data := SuppressedData(e.data))
  }

  // ---------------------------------------------------------------- redacting

  function RuleName(rule: Rule): string {
    match rule
    case Email => "email"
    case CreditCard => "credit_card"
    case Token => "token"
  }

  function CleanedIfAny(text: Option<Str>, rule: Rule, r: Redactor): Option<Str>
  {
    if text.Some? then Some(r.clean(rule)(text.value)) else None
  }

  predicate LinesTouched(lines: Option<SnapshotLines>, rule: Rule, r: Redactor) {
    lines.Some? && r.touches(rule)(lines.value.texts)
  }

  function CleanedLines(lines: Option<SnapshotLines>, rule: Rule, r: Redactor): Option<SnapshotLines> {
    if !LinesTouched(lines, rule, r) then lines
    else
      var cleaned := r.cleanLines(rule)(lines.value.texts);
      Some(SnapshotLines(cleaned, r.measure(cleaned)))
  }

  function CleanedData(d: EventData, rule: Rule, r: Redactor): EventData
  {
    match d
    case WindowTitle(prev) => WindowTitle(CleanedIfAny(prev, rule, r))
    case UiValue(f, n, text) => UiValue(f, n, CleanedIfAny(text, rule, r))
    case InputKey(k, m, n, c, text, f) => InputKey(k, m, n, c, CleanedIfAny(text, rule, r), f)
    case ClipboardCopy(o, k, n, text) => ClipboardCopy(o, k, n, CleanedIfAny(text, rule, r))
    case ClipboardPaste(k, n, text, f) => ClipboardPaste(k, n, CleanedIfAny(text, rule, r), f)
    case ContentSnapshot(text, lines) => ContentSnapshot(CleanedIfAny(text, rule, r), CleanedLines(lines, rule, r))
    case BrowserNavigate(url, title, m, t) => BrowserNavigate(CleanedIfAny(url, rule, r), CleanedIfAny(title, rule, r), m, t)
    case _ => d
  }

  function CleanedEvent(e: Event, rule: Rule, r: Redactor): Event
  {
    e.(app := e.app.(name := r.clean(rule)(e.app.name)),
       window := if e.window.Some? then Some(e.window.value.(title := CleanedIfAny(e.window.value.title, rule, r))) else None,
       element := if e.element.Some? then Some(e.element.value.(title := CleanedIfAny(e.element.value.title, rule, r),
                                                                value := CleanedIfAny(e.element.value.value, rule, r))) else None,
       data := CleanedData(e.data, rule, r))
  }

  /** A rule fires when it changes a text, or overlaps an OCR line. */
  predicate Fires(e: Event, rule: Rule, r: Redactor)
  {
    CleanedEvent(e, rule, r) != e || (e.data.ContentSnapshot? && LinesTouched(e.data.lines, rule, r))
  }

  datatype Redacting = Redacting(event: Event, fired: seq<string>)

  function WithFired(fired: seq<string>, name: string): seq<string> {
    if name in fired then fired else fired + [name]
  }

  /** The first n configured rules have been applied, each at most once. */
  function RedactedBy(e: Event, rules: seq<Rule>, n: nat, r: Redactor): Redacting
    requires n <= |rules|
  {
    if n == 0 then Redacting(e, e.redaction.rules)
    else
      var before, rule := RedactedBy(e, rules, n - 1, r), rules[n - 1];
      if rule in rules[..n - 1] then before
      else Redacting(CleanedEvent(before.event, rule, r),
                     if Fires(before.event, rule, r) then WithFired(before.fired, RuleName(rule)) else before.fired)
  }

  function Redacted(e: Event, rules: seq<Rule>, r: Redactor): Event
  {
    var done := RedactedBy(e, rules, |rules|, r);
    done.event.(redaction := Redaction(e.redaction.applied || done.fired != [], done.fired))
  }

  method RedactEvent(event: Event, rules: seq<Rule>, r: Redactor) returns (e: Event)
    ensures e == Redacted(event, rules, r)
  {
    e := event;
    var seen: set<Rule> := {};
    var fired := event.redaction.rules;
    for i := 0 to |rules|
      invariant seen == set k | 0 <= k < i :: rules[k]
      invariant Redacting(e, fired) == RedactedBy(event, rules, i, r)
    {
      var rule := rules[i];
      assert rule in rules[..i] <==> rule in seen;
      if rule !in seen {
        seen := seen + {rule};
        var changed := Fires(e, rule, r);
        e := CleanedEvent(e, rule, r);
        if changed && RuleName(rule) !in fired {
          fired := fired + [RuleName(rule)];
        }
      }
    }
    e := e.(redaction := Redaction(event.redaction.applied || fired != [], fired));
  }

  // ---------------------------------------------------------------- one filter, and one after another

  function Tightened(e: Event, s: Selectors, f: Filter, r: Redactor): Event
  {
    Limited(Redacted(if Suppresses(f, s, r) then Suppressed(e) else e, f.redactors, r))
  }

  function Reprocessed(p: Pending, f: Filter, r: Redactor): Option<Pending>
  {
    if Admits(f, p.selectors, p.event.eventType, r) then Some(p.(event := Tightened(p.event, p.selectors, f, r))) else None
  }

  method Reprocess(p: Pending, f: Filter, r: Redactor) returns (kept: Option<Pending>)
    ensures kept == Reprocessed(p, f, r)
  {
    var event, app := p.event, p.selectors.app;
    if !AppAllowed(f, AllEvents, app) {
      return None;
    }
    if f.policy.Some? && !f.policy.value(p.selectors) {
      return None;
    }
    var host := HostIn(p.selectors, r);
    var unavailable := f.policy.Some? && host.None?;
    var globalAllowed := SiteAllowed(f, AllEvents, p.selectors, host);
    if StartsWith(event.eventType, "browser.") && (!globalAllowed || (host.None? && !unavailable)) {
      return None;
    }
    if !globalAllowed || !AppAllowed(f, TextContent, app) || !SiteAllowed(f, TextContent, p.selectors, host) {
      event := Suppressed(event);
    }
    if StartsWith(event.eventType, "content.") && (!AppAllowed(f, Snapshot, app) || !SiteAllowed(f, Snapshot, p.selectors, host)) {
      return None;
    }
    event := RedactEvent(event, f.redactors, r);
    event := EnforceSizeLimits(event);
    return Some(Pending(event, p.selectors));
  }

  /** The event after the first n of a series of filters. */
  function AfterFilters(p: Pending, fs: seq<Filter>, n: nat, r: Redactor): Option<Pending>
    requires n <= |fs|
  {
    if n == 0 then Some(p)
    else
      var before := AfterFilters(p, fs, n - 1, r);
      if before.None? then None else Reprocessed(before.value, fs[n - 1], r)
  }

  // ---------------------------------------------------------------- what a filter leaves alone

  /** The optional content of an event. */
  datatype Field = WindowTitleField | ElementTitleField | ElementValueField | BodyField | BodySizeField
                 | SnapshotTextField | SnapshotLinesField | PreviousTitleField | UrlTextField | TabTitleField

  const TEXT_FIELDS: set<Field> := {ElementValueField, BodyField, BodySizeField}

  predicate HasData(d: EventData, field: Field) {
    match d
    case WindowTitle(prev) => field.PreviousTitleField? && prev.Some?
    case UiValue(_, _, text) => field.BodyField? && text.Some?
    case InputKey(_, _, _, _, text, _) => field.BodyField? && text.Some?
    case ClipboardCopy(_, _, size, text) => (field.BodyField? && text.Some?) || (field.BodySizeField? && size.Some?)
    case ClipboardPaste(_, size, text, _) => (field.BodyField? && text.Some?) || (field.BodySizeField? && size.Some?)
    case ContentSnapshot(text, lines) => (field.SnapshotTextField? && text.Some?) || (field.SnapshotLinesField? && lines.Some?)
    case BrowserNavigate(url, title, _, _) => (field.UrlTextField? && url.Some?) || (field.TabTitleField? && title.Some?)
    case _ => false
  }

  predicate Has(e: Event, field: Field) {
    || (field.WindowTitleField? && e.window.Some? && e.window.value.title.Some?)
    || (field.ElementTitleField? && e.element.Some? && e.element.value.title.Some?)
    || (field.ElementValueField? && e.element.Some? && e.element.value.value.Some?)
    || HasData(e.data, field)
  }

  /** What no filter changes: identity, time, type and size of a clipboard body that is kept. */
  predicate SameEvent(a: Event, b: Event) {
    a.id == b.id && a.tsMs == b.tsMs && a.monoNs == b.monoNs && a.source == b.source && a.eventType == b.eventType && a.version == b.version
  }

  lemma SuppressedIs(e: Event, field: Field)
    ensures SameEvent(e, Suppressed(e)) && (Has(Suppressed(e), field) <==> Has(e, field) && field !in TEXT_FIELDS)
  {
  }

  lemma CleanedIs(e: Event, rule: Rule, r: Redactor, field: Field)
    ensures SameEvent(e, CleanedEvent(e, rule, r)) && (Has(CleanedEvent(e, rule, r), field) <==> Has(e, field))
  {
  }

  lemma LimitedIs(e: Event, field: Field)
    ensures SameEvent(e, Limited(e)) && (Has(Limited(e), field) ==> Has(e, field))
  {
  }

  lemma {:induction false} RedactedByIs(e: Event, rules: seq<Rule>, n: nat, r: Redactor, field: Field)
    requires n <= |rules|
    ensures
      var done := RedactedBy(e, rules, n, r);
      SameEvent(e, done.event) && (Has(done.event, field) <==> Has(e, field))
  {
    if n > 0 {
      RedactedByIs(e, rules, n - 1, r, field);
      CleanedIs(RedactedBy(e, rules, n - 1, r).event, rules[n - 1], r, field);
    }
  }

  lemma RedactedIs(e: Event, rules: seq<Rule>, r: Redactor, field: Field)
    ensures SameEvent(e, Redacted(e, rules, r)) && (Has(Redacted(e, rules, r), field) <==> Has(e, field))
  {
    RedactedByIs(e, rules, |rules|, r, field);
  }

  /** What the filter leaves of a field: nothing appears, and a suppressed text is gone. */
  predicate Left(e: Event, s: Selectors, f: Filter, r: Redactor, field: Field) {
    Has(e, field) && !(Suppresses(f, s, r) && field in TEXT_FIELDS)
  }

  lemma TightenedIs(e: Event, s: Selectors, f: Filter, r: Redactor, field: Field)
    ensures
      var t := Tightened(e, s, f, r);
      && SameEvent(e, t) && !EventOver(t)
      && (Has(t, field) ==> Left(e, s, f, r, field))
      && (!IsTruncated(t) ==> (Has(t, field) <==> Left(e, s, f, r, field)))
  {
    var suppressed := if Suppresses(f, s, r) then Suppressed(e) else e;
    SuppressedIs(e, field);
    var redacted := Redacted(suppressed, f.redactors, r);
    RedactedIs(suppressed, f.redactors, r, field);
    LimitedIs(redacted, field);
  }

  // ---------------------------------------------------------------- a series of filters

  /** The event the first n filters make of another, were they all to admit it. */
  function Chain(e: Event, s: Selectors, fs: seq<Filter>, n: nat, r: Redactor): Event
    requires n <= |fs|
  {
    if n == 0 then e else Tightened(Chain(e, s, fs, n - 1, r), s, fs[n - 1], r)
  }

  predicate AllAdmit(p: Pending, fs: seq<Filter>, n: nat, r: Redactor)
    requires n <= |fs|
  {
    n == 0 || (AllAdmit(p, fs, n - 1, r) && Admits(fs[n - 1], p.selectors, p.event.eventType, r))
  }

  predicate AnySuppresses(p: Pending, fs: seq<Filter>, n: nat, r: Redactor)
    requires n <= |fs|
  {
    n > 0 && (AnySuppresses(p, fs, n - 1, r) || Suppresses(fs[n - 1], p.selectors, r))
  }

  lemma {:induction false} ChainIsSame(e: Event, s: Selectors, fs: seq<Filter>, n: nat, r: Redactor)
    requires n <= |fs|
    ensures SameEvent(e, Chain(e, s, fs, n, r))
  {
    if n > 0 {
      ChainIsSame(e, s, fs, n - 1, r);
      TightenedIs(Chain(e, s, fs, n - 1, r), s, fs[n - 1], r, BodyField);
    }
  }

  /**
    An event survives a series of filters exactly when every one of them admits its original
    selectors; what survives is then what the chain of tightenings makes of it.
   */
  lemma {:induction false} SurvivesExactly(p: Pending, fs: seq<Filter>, n: nat, r: Redactor)
    requires n <= |fs|
    ensures AfterFilters(p, fs, n, r) ==
      if AllAdmit(p, fs, n, r) then Some(Pending(Chain(p.event, p.selectors, fs, n, r), p.selectors)) else None
  {
    if n > 0 {
      SurvivesExactly(p, fs, n - 1, r);
      ChainIsSame(p.event, p.selectors, fs, n - 1, r);
    }
  }

  /** A truncated event stays marked. */
  lemma {:induction false} TruncationStays(e: Event, s: Selectors, f: Filter, r: Redactor)
    ensures IsTruncated(e) ==> IsTruncated(Tightened(e, s, f, r))
  {
    var suppressed := if Suppresses(f, s, r) then Suppressed(e) else e;
    FiredKeeps(suppressed, f.redactors, |f.redactors|, r);
  }

  /** Everything said of an event of the chain and one field, together. */
  predicate ChainLeaves(e: Event, t: Event, suppressed: bool, field: Field) {
    var left := Has(e, field) && !(suppressed && field in TEXT_FIELDS);
    (Has(t, field) ==> left) && (!IsTruncated(t) ==> (Has(t, field) <==> left))
  }

  lemma LeavesStep(e: Event, t: Event, suppressed: bool, s: Selectors, f: Filter, r: Redactor, field: Field)
    requires ChainLeaves(e, t, suppressed, field)
    ensures ChainLeaves(e, Tightened(t, s, f, r), suppressed || Suppresses(f, s, r), field)
  {
    TightenedIs(t, s, f, r, field);
    TruncationStays(t, s, f, r);
  }

  lemma {:induction false} ChainLeavesAll(p: Pending, fs: seq<Filter>, n: nat, r: Redactor, field: Field)
    requires n <= |fs|
    ensures ChainLeaves(p.event, Chain(p.event, p.selectors, fs, n, r), AnySuppresses(p, fs, n, r), field)
  {
    if n > 0 {
      ChainLeavesAll(p, fs, n - 1, r, field);
      LeavesStep(p.event, Chain(p.event, p.selectors, fs, n - 1, r), AnySuppresses(p, fs, n - 1, r), p.selectors, fs[n - 1], r, field);
    }
  }

  /**
    Nothing comes back: a field the survivor has, the original had, and no filter of the series
    suppressed it. If nothing was ever cut to size the survivor has all such fields.
   */
  lemma NothingComesBack(p: Pending, fs: seq<Filter>, n: nat, r: Redactor, field: Field)
    requires n <= |fs|
    ensures
      var q := AfterFilters(p, fs, n, r);
      var left := Has(p.event, field) && !(AnySuppresses(p, fs, n, r) && field in TEXT_FIELDS);
      q.Some? ==>
        (Has(q.value.event, field) ==> left) && (!IsTruncated(q.value.event) ==> (Has(q.value.event, field) <==> left))
  {
    SurvivesExactly(p, fs, n, r);
    ChainLeavesAll(p, fs, n, r, field);
  }

  /** A later event has nothing the earlier one had not, and keeps its size mark. */
  predicate Tighter(earlier: Event, later: Event, field: Field) {
    (Has(later, field) ==> Has(earlier, field)) && (IsTruncated(earlier) ==> IsTruncated(later))
  }

  lemma TightenedTightens(a: Event, b: Event, s: Selectors, f: Filter, r: Redactor, field: Field)
    requires Tighter(a, b, field)
    ensures Tighter(a, Tightened(b, s, f, r), field)
  {
    TightenedIs(b, s, f, r, field);
    TruncationStays(b, s, f, r);
  }

  lemma {:induction false} ChainTightens(e: Event, s: Selectors, fs: seq<Filter>, m: nat, n: nat, r: Redactor, field: Field)
    requires m <= n <= |fs|
    ensures Tighter(Chain(e, s, fs, m, r), Chain(e, s, fs, n, r), field)
  {
    if m < n {
      ChainTightens(e, s, fs, m, n - 1, r, field);
      TightenedTightens(Chain(e, s, fs, m, r), Chain(e, s, fs, n - 1, r), s, fs[n - 1], r, field);
    }
  }

  lemma EarlierAdmit(p: Pending, fs: seq<Filter>, m: nat, n: nat, r: Redactor)
    requires m <= n <= |fs| && AllAdmit(p, fs, n, r)
    ensures AllAdmit(p, fs, m, r)
  {
    AllAdmitMeans(p, fs, m, r);
    AllAdmitMeans(p, fs, n, r);
    InLonger(fs, m, n);
  }

  lemma InLonger(fs: seq<Filter>, m: nat, n: nat)
    requires m <= n <= |fs|
    ensures forall f :: f in fs[..m] ==> f in fs[..n]
  {
  }

  /** What any filter of the series has suppressed or cut away stays away: reloading only tightens. */
  lemma GoneStaysGone(p: Pending, fs: seq<Filter>, m: nat, n: nat, r: Redactor, field: Field)
    requires m <= n <= |fs| && AfterFilters(p, fs, n, r).Some?
    ensures AfterFilters(p, fs, m, r).Some?
    ensures Tighter(AfterFilters(p, fs, m, r).value.event, AfterFilters(p, fs, n, r).value.event, field)
  {
    SurvivesExactly(p, fs, n, r);
    EarlierAdmit(p, fs, m, n, r);
    SurvivesExactly(p, fs, m, r);
    ChainTightens(p.event, p.selectors, fs, m, n, r, field);
  }

  /** The survivor is the same event, its selectors are untouched, and after any filter it is within every size limit. */
  lemma SurvivorIsTheSameEvent(p: Pending, fs: seq<Filter>, n: nat, r: Redactor)
    requires n <= |fs|
    ensures
      var q := AfterFilters(p, fs, n, r);
      q.Some? ==>
        q.value.selectors == p.selectors && SameEvent(p.event, q.value.event) && (n > 0 ==> !EventOver(q.value.event))
  {
    SurvivesExactly(p, fs, n, r);
    ChainIsSame(p.event, p.selectors, fs, n, r);
  }

  lemma {:induction false} AllAdmitMeans(p: Pending, fs: seq<Filter>, n: nat, r: Redactor)
    requires n <= |fs|
    ensures AllAdmit(p, fs, n, r) <==> forall f :: f in fs[..n] ==> Admits(f, p.selectors, p.event.eventType, r)
    ensures AnySuppresses(p, fs, n, r) <==> exists f :: f in fs[..n] && Suppresses(f, p.selectors, r)
  {
    if n > 0 {
      AllAdmitMeans(p, fs, n - 1, r);
      assert fs[..n] == fs[..n - 1] + [fs[n - 1]];
    }
  }

  /** Survival and suppression depend on which filters were applied, not on their order or how often. */
  lemma OrderDoesNotMatter(p: Pending, fs: seq<Filter>, gs: seq<Filter>, r: Redactor)
    requires forall f :: f in fs <==> f in gs
    ensures AfterFilters(p, fs, |fs|, r).Some? <==> AfterFilters(p, gs, |gs|, r).Some?
    ensures AnySuppresses(p, fs, |fs|, r) <==> AnySuppresses(p, gs, |gs|, r)
  {
    SurvivesExactly(p, fs, |fs|, r);
    SurvivesExactly(p, gs, |gs|, r);
    AllAdmitMeans(p, fs, |fs|, r);
    AllAdmitMeans(p, gs, |gs|, r);
    assert fs[..|fs|] == fs && gs[..|gs|] == gs;
  }

  // ---------------------------------------------------------------- the list of fired rules

  predicate NoDuplicates(s: seq<string>) {
    forall i, j :: 0 <= i < j < |s| ==> s[i] != s[j]
  }

  /** The earlier list stands in the later one, whole and in order, from position k on. */
  predicate StandsAt(earlier: seq<string>, later: seq<string>, k: nat) {
    && k + |earlier| <= |later| && (forall i :: 0 <= i < |earlier| ==> later[k + i] == earlier[i])
    && k <= 1 && (k == 1 ==> later[0] == SIZE_LIMIT_RULE && SIZE_LIMIT_RULE !in earlier)
  }

  lemma {:induction false} FiredKeeps(e: Event, rules: seq<Rule>, n: nat, r: Redactor)
    requires n <= |rules|
    ensures
      var fired := RedactedBy(e, rules, n, r).fired;
      StandsAt(e.redaction.rules, fired, 0) && (NoDuplicates(e.redaction.rules) ==> NoDuplicates(fired))
    ensures forall i :: |e.redaction.rules| <= i < |RedactedBy(e, rules, n, r).fired| ==>
      RedactedBy(e, rules, n, r).fired[i] in {"email", "credit_card", "token"}
  {
    if n > 0 {
      FiredKeeps(e, rules, n - 1, r);
    }
  }

  /** Every earlier rule kept in order, at most the size limit put before them, none repeated, the mark never taken back. */
  predicate RulesKept(a: Redaction, b: Redaction, k: nat) {
    StandsAt(a.rules, b.rules, k) && (NoDuplicates(a.rules) ==> NoDuplicates(b.rules)) && (a.applied ==> b.applied)
  }

  lemma LimitedKeepsRules(e: Event) returns (k: nat)
    ensures RulesKept(e.redaction, Limited(e).redaction, k)
  {
    k := if EventOver(e) && !IsTruncated(e) then 1 else 0;
  }

  lemma RedactedKeepsRules(e: Event, rules: seq<Rule>, r: Redactor)
    ensures RulesKept(e.redaction, Redacted(e, rules, r).redaction, 0)
  {
    FiredKeeps(e, rules, |rules|, r);
  }

  lemma RulesKeptTransitive(a: Redaction, b: Redaction, c: Redaction, j: nat, k: nat)
    requires RulesKept(a, b, j) && RulesKept(b, c, k)
    ensures RulesKept(a, c, j + k)
  {
    assert j == 1 ==> b.rules[0] in b.rules;
    assert forall i :: 0 <= i < |a.rules| ==> a.rules[i] == b.rules[j + i];
  }

  /** What one filter does to the list. */
  lemma TightenedKeepsRules(e: Event, s: Selectors, f: Filter, r: Redactor) returns (k: nat)
    ensures RulesKept(e.redaction, Tightened(e, s, f, r).redaction, k)
  {
    var suppressed := if Suppresses(f, s, r) then Suppressed(e) else e;
    var redacted := Redacted(suppressed, f.redactors, r);
    RedactedKeepsRules(suppressed, f.redactors, r);
    k := LimitedKeepsRules(redacted);
    RulesKeptTransitive(e.redaction, redacted.redaction, Limited(redacted).redaction, 0, k);
  }

  lemma RulesKeptStep(first: Redaction, before: Event, s: Selectors, f: Filter, r: Redactor, j: nat) returns (k: nat)
    requires RulesKept(first, before.redaction, j)
    ensures RulesKept(first, Tightened(before, s, f, r).redaction, k)
  {
    var i := TightenedKeepsRules(before, s, f, r);
    RulesKeptTransitive(first, before.redaction, Tightened(before, s, f, r).redaction, j, i);
    k := j + i;
  }

  lemma {:induction false} ChainKeepsRules(e: Event, s: Selectors, fs: seq<Filter>, n: nat, r: Redactor) returns (k: nat)
    requires n <= |fs|
    ensures RulesKept(e.redaction, Chain(e, s, fs, n, r).redaction, k)
  {
    k := 0;
    if n > 0 {
      var j := ChainKeepsRules(e, s, fs, n - 1, r);
      k := RulesKeptStep(e.redaction, Chain(e, s, fs, n - 1, r), s, fs[n - 1], r, j);
    }
  }

  /** Over a whole series too: no rule that fired is forgotten, reordered or listed twice. */
  lemma RulesAreKept(p: Pending, fs: seq<Filter>, n: nat, r: Redactor) returns (k: nat)
    requires n <= |fs|
    ensures AfterFilters(p, fs, n, r).Some? ==> RulesKept(p.event.redaction, AfterFilters(p, fs, n, r).value.event.redaction, k)
  {
    SurvivesExactly(p, fs, n, r);
    k := ChainKeepsRules(p.event, p.selectors, fs, n, r);
  }
}
