/**
  Append-order pages: one bounded read of the interval (cursor, upper bound], answered
  by a Page of consecutive live rows or by a Gap that names what can no longer be read.
 */
module ContextPages {
  import opened Common
  import opened AppendStore

  const MAX_PAGE_ROWS: nat := 256

  datatype Anchor = Anchor(id: string, ts: Stamp)

  datatype Cursor = Cursor(identity: string, sequence: nat, observedHead: nat, anchor: Option<Anchor>)

  datatype Request = Request(cursor: Option<Cursor>, upper: Option<Cursor>, limit: nat)

  datatype Range = Range(after: nat, through: nat)

  datatype GapReason = RetentionOrDeletion | StoreChanged | ContinuityUnknown

  datatype Gap = Gap(reason: GapReason, affected: Range, resume: Cursor, upper: Cursor)

  datatype Text = Absent | Value(text: seq<byte>) | Omitted(bytes: nat)

  datatype Observation = Observation(
    sequence: nat, id: string, ts: Stamp,
    source: Text, eventType: Text, bundleId: Text, appName: Text, windowTitle: Text,
    pid: Option<int>, windowId: Option<int>)

  datatype Page = Page(
    observations: seq<Observation>, next: Cursor, upper: Cursor, hasMore: bool, coverage: Range)

  datatype PageResult = PageOf(page: Page) | GapOf(gap: Gap) | Incompatible(version: int)

  datatype ReadError = InvalidRequest(reason: string) | InvalidTimestamp(raw: string)

  // ---------------------------------------------------------------- rows and anchors

  function ReadAnchor(rows: map<nat, Row>, sequence: nat): Result<Option<Anchor>, ReadError> {
    if sequence !in rows then Ok(None)
    else match rows[sequence].ts
      case Malformed(raw) => Err(InvalidTimestamp(raw))
      case Rfc3339(_, _, _) => Ok(Some(Anchor(rows[sequence].id, Canonical(rows[sequence].ts))))
  }

  function Position(rows: map<nat, Row>, identity: string, sequence: nat, head: nat): Result<Cursor, ReadError> {
    var anchor :- ReadAnchor(rows, sequence);
    Ok(Cursor(identity, sequence, head, anchor))
  }

  /** An anchor whose row is gone is accepted only when retention explains the absence. */
  function AnchorMatches(rows: map<nat, Row>, cursor: Cursor, cutoff: int): Result<bool, ReadError> {
    match cursor.anchor
    case None => Ok(true)
    case Some(expected) =>
      var actual :- ReadAnchor(rows, cursor.sequence);
      match expected.ts
      case Malformed(raw) => Err(InvalidTimestamp(raw))
      case Rfc3339(instant, _, _) =>
        Ok(if actual.Some? then actual.value == expected else instant < cutoff)
  }

  function BoundedText(column: Option<seq<byte>>): Text {
    match column
    case None => Absent
    case Some(text) => if |text| <= MAX_TEXT_BYTES then Value(text) else Omitted(|text|)
  }

  function Observe(sequence: nat, row: Row): Observation {
    Observation(
      sequence, row.id, Canonical(row.ts),
      BoundedText(row.surface.source), BoundedText(row.surface.eventType), BoundedText(row.surface.bundleId),
      BoundedText(row.surface.appName), BoundedText(row.surface.windowTitle),
      row.surface.pid, row.surface.windowId)
  }

  /** The SQL selection: present sequences in (after, through], ascending, at most `limit`. */
  function Select(rows: map<nat, Row>, after: nat, through: nat, limit: nat): seq<nat>
    decreases through - after
  {
    if after >= through || limit == 0 then []
    else if after + 1 in rows then [after + 1] + Select(rows, after + 1, through, limit - 1)
    else Select(rows, after + 1, through, limit)
  }

  // ---------------------------------------------------------------- specification of one range read

  datatype SlotKind = Vacant | Unreadable | Expired | Live

  /** What a reader finds at one sequence number. */
  function Kind(rows: map<nat, Row>, s: nat, cutoff: int): SlotKind {
    if s !in rows then Vacant
    else if rows[s].ts.Malformed? then Unreadable
    else if rows[s].ts.instant < cutoff then Expired
    else Live
  }

  /** The last sequence of the unbroken run of `Kind(at)` slots that starts at `at`, not past `bound`. */
  function RunEnd(rows: map<nat, Row>, at: nat, bound: nat, cutoff: int): (end: nat)
    requires at <= bound
    ensures at <= end <= bound
    ensures forall s :: at <= s <= end ==> Kind(rows, s, cutoff) == Kind(rows, at, cutoff)
    ensures end == bound || Kind(rows, end + 1, cutoff) != Kind(rows, at, cutoff)
    ensures at in rows ==> forall s :: at <= s <= end ==> s in rows
    decreases bound - at
  {
    if at < bound && Kind(rows, at + 1, cutoff) == Kind(rows, at, cutoff)
    then RunEnd(rows, at + 1, bound, cutoff)
    else at
  }

  function Observations(rows: map<nat, Row>, after: nat, through: nat): (os: seq<Observation>)
    requires after <= through
    requires forall s :: after < s <= through ==> s in rows
    ensures |os| == through - after
    ensures forall i :: 0 <= i < |os| ==> os[i] == Observe(after + 1 + i, rows[after + 1 + i])
    decreases through - after
  {
    if after == through then []
    else Observations(rows, after, through - 1) + [Observe(through, rows[through])]
  }

  function UnavailableRange(rows: map<nat, Row>, start: Cursor, upper: Cursor, through: nat): Result<PageResult, ReadError> {
    var resume :- Position(rows, upper.identity, through, upper.observedHead);
    Ok(GapOf(Gap(RetentionOrDeletion, Range(start.sequence, through), resume, upper)))
  }

  function LivePage(rows: map<nat, Row>, start: Cursor, upper: Cursor, through: nat): Result<PageResult, ReadError>
    requires start.sequence <= through
    requires forall s :: start.sequence < s <= through ==> s in rows
  {
    var next :- Position(rows, upper.identity, through, upper.observedHead);
    Ok(PageOf(Page(
      Observations(rows, start.sequence, through), next, upper, through < upper.sequence,
      Range(start.sequence, through))))
  }

  /**
    The reference answer: the interval splits into maximal runs of slots of one kind, and
    a read returns its first run, with the row limit applied to runs of rows only. A row
    whose time cannot be read fails the call exactly when the read reaches it.
   */
  function FirstRun(rows: map<nat, Row>, start: Cursor, upper: Cursor, limit: nat, cutoff: int): Result<PageResult, ReadError>
    requires 1 <= limit
  {
    if start.sequence >= upper.sequence then LivePage(rows, start, upper, start.sequence)
    else
      var at := start.sequence + 1;
      var bound := Min(upper.sequence, start.sequence + limit);
      var kind := Kind(rows, at, cutoff);
      if kind == Vacant then UnavailableRange(rows, start, upper, RunEnd(rows, at, upper.sequence, cutoff))
      else if kind == Unreadable then Err(InvalidTimestamp(rows[at].ts.raw))
      else
        var end := RunEnd(rows, at, bound, cutoff);
        if end < bound && Kind(rows, end + 1, cutoff) == Unreadable then Err(InvalidTimestamp(rows[end + 1].ts.raw))
        else if kind == Expired then UnavailableRange(rows, start, upper, end)
        else LivePage(rows, start, upper, end)
  }

  /** The head of a selection is the first present sequence; the tail is the selection after it. */
  lemma {:induction false} SelectHead(rows: map<nat, Row>, after: nat, through: nat, limit: nat)
    requires 0 < limit
    ensures
      var rest := Select(rows, after, through, limit);
      if rest == [] then forall s :: after < s <= through ==> s !in rows
      else
        && after < rest[0] <= through && rest[0] in rows
        && (forall s :: after < s < rest[0] ==> s !in rows)
        && rest[1..] == Select(rows, rest[0], through, limit - 1)
    decreases through - after
  {
    if after >= through || after + 1 in rows {
    } else {
      SelectHead(rows, after + 1, through, limit);
    }
  }

  /** A run is the only stretch from `at` that is uniform and cannot be extended. */
  lemma {:induction false} RunEndUnique(rows: map<nat, Row>, at: nat, bound: nat, cutoff: int, end: nat)
    requires at <= end <= bound
    requires forall s :: at <= s <= end ==> Kind(rows, s, cutoff) == Kind(rows, at, cutoff)
    requires end == bound || Kind(rows, end + 1, cutoff) != Kind(rows, at, cutoff)
    ensures RunEnd(rows, at, bound, cutoff) == end
    decreases end - at
  {
    if at < end {
      assert Kind(rows, at + 1, cutoff) == Kind(rows, at, cutoff);
      RunEndUnique(rows, at + 1, bound, cutoff, end);
    }
  }

  // ---------------------------------------------------------------- the reader

  /** What the scan holds after reading (from, after]: one kind of row, observed when live. */
  ghost predicate Collected(rows: map<nat, Row>, from: nat, after: nat, cutoff: int, expired: bool, os: seq<Observation>) {
    && from <= after
    && (forall s :: from < s <= after ==> s in rows)
    && (forall s :: from < s <= after ==> Kind(rows, s, cutoff) == (if expired then Expired else Live))
    && (if expired then os == [] && from < after else os == Observations(rows, from, after))
  }

  /** Reading one more row of the same kind keeps the collection complete. */
  lemma CollectedExtends(
    rows: map<nat, Row>, from: nat, after: nat, cutoff: int, expired: bool, os: seq<Observation>, expired': bool)
    requires Collected(rows, from, after, cutoff, expired, os)
    requires Kind(rows, after + 1, cutoff) == (if expired' then Expired else Live)
    requires from < after ==> expired == expired'
    ensures Collected(rows, from, after + 1, cutoff, expired',
                      if expired' then [] else os + [Observe(after + 1, rows[after + 1])])
  {
  }

  /** Where the scan may stop, the reference answer is already decided by what it collected. */
  lemma ScanConcludes(
    rows: map<nat, Row>, start: Cursor, upper: Cursor, limit: nat, cutoff: int,
    after: nat, expired: bool, os: seq<Observation>)
    requires 1 <= limit
    requires Collected(rows, start.sequence, after, cutoff, expired, os)
    requires start.sequence < after <= Min(upper.sequence, start.sequence + limit)
    requires after == Min(upper.sequence, start.sequence + limit)
             || Kind(rows, after + 1, cutoff) != (if expired then Expired else Live)
    ensures FirstRun(rows, start, upper, limit, cutoff) ==
            if after < Min(upper.sequence, start.sequence + limit) && Kind(rows, after + 1, cutoff) == Unreadable
            then Err(InvalidTimestamp(rows[after + 1].ts.raw))
            else if expired then UnavailableRange(rows, start, upper, after)
            else LivePage(rows, start, upper, after)
  {
    assert Kind(rows, start.sequence + 1, cutoff) == (if expired then Expired else Live);
    RunEndUnique(rows, start.sequence + 1, Min(upper.sequence, start.sequence + limit), cutoff, after);
  }

  /** An interval that opens on vacant slots is answered by the whole vacancy. */
  lemma VacancyConcludes(rows: map<nat, Row>, start: Cursor, upper: Cursor, limit: nat, cutoff: int, through: nat)
    requires 1 <= limit
    requires start.sequence < through <= upper.sequence
    requires forall s :: start.sequence < s <= through ==> s !in rows
    requires through == upper.sequence || through + 1 in rows
    ensures FirstRun(rows, start, upper, limit, cutoff) == UnavailableRange(rows, start, upper, through)
  {
    RunEndUnique(rows, start.sequence + 1, upper.sequence, cutoff, through);
  }

  // ---------------------------------------------------------------- the reader

  /** Walks the selected rows once and stops at the first change of availability. */
  method ReadRange(rows: map<nat, Row>, start: Cursor, upper: Cursor, limit: nat, cutoff: int)
    returns (r: Result<PageResult, ReadError>)
    requires 1 <= limit
    ensures r == FirstRun(rows, start, upper, limit, cutoff)
  {
    var remaining := Select(rows, start.sequence, upper.sequence, limit);
    var observations: seq<Observation> := [];
    var after := start.sequence;
    var expired := false;
    ghost var budget: nat := limit;
    ghost var cut := false;
    while remaining != []
      invariant start.sequence <= after && after + budget == start.sequence + limit
      invariant start.sequence < after ==> after <= upper.sequence
      invariant remaining == Select(rows, after, upper.sequence, budget)
      invariant Collected(rows, start.sequence, after, cutoff, expired, observations)
      decreases |remaining|
    {
      SelectHead(rows, after, upper.sequence, budget);
      var sequence := remaining[0];
      remaining := remaining[1..];
      if sequence != after + 1 {
        assert Kind(rows, after + 1, cutoff) == Vacant;
        if observations == [] && !expired {
          VacancyConcludes(rows, start, upper, limit, cutoff, sequence - 1);
          return UnavailableRange(rows, start, upper, sequence - 1);
        }
        cut := true;
        break;
      }
      var row := rows[sequence];
      if row.ts.Malformed? {
        if after > start.sequence {
          ScanConcludes(rows, start, upper, limit, cutoff, after, expired, observations);
        }
        return Err(InvalidTimestamp(row.ts.raw));
      }
      if row.ts.instant < cutoff {
        if observations != [] {
          cut := true;
          break;
        }
        CollectedExtends(rows, start.sequence, after, cutoff, expired, observations, true);
        expired := true;
      } else {
        if expired {
          cut := true;
          break;
        }
        CollectedExtends(rows, start.sequence, after, cutoff, expired, observations, false);
        observations := observations + [Observe(sequence, row)];
      }
      after := sequence;
      budget := budget - 1;
    }
    if !cut && after < upper.sequence && 0 < budget {
      SelectHead(rows, after, upper.sequence, budget);
      assert Kind(rows, after + 1, cutoff) == Vacant;
    }
    if start.sequence < after {
      ScanConcludes(rows, start, upper, limit, cutoff, after, expired, observations);
    }
    if expired {
      return UnavailableRange(rows, start, upper, after);
    }
    if observations == [] && after < upper.sequence {
      VacancyConcludes(rows, start, upper, limit, cutoff, upper.sequence);
      return UnavailableRange(rows, start, upper, upper.sequence);
    }
    return LivePage(rows, start, upper, after);
  }

  // ---------------------------------------------------------------- one request

  function Provided(request: Request): (cs: seq<Cursor>)
    ensures forall c :: c in cs <==> Some(c) == request.cursor || Some(c) == request.upper
  {
    (if request.cursor.Some? then [request.cursor.value] else []) +
    (if request.upper.Some? then [request.upper.value] else [])
  }

  predicate WellFormedCursor(c: Cursor) {
    && IsIdentity(c.identity)
    && c.sequence <= c.observedHead <= MAX_I64
    && (c.anchor.Some? ==> c.sequence != 0 && IsEventId(c.anchor.value.id) && c.anchor.value.ts.Rfc3339?)
  }

  predicate IsValidRequest(request: Request) {
    && 1 <= request.limit <= MAX_PAGE_ROWS
    && (request.cursor.Some? ==> WellFormedCursor(request.cursor.value))
    && (request.upper.Some? ==> WellFormedCursor(request.upper.value))
    && (request.cursor.Some? && request.upper.Some? ==>
          && request.cursor.value.identity == request.upper.value.identity
          && request.cursor.value.sequence <= request.upper.value.sequence)
  }

  /** Rejects a request before any row is read. */
  method ValidateRequest(request: Request) returns (error: Option<ReadError>)
    ensures error == None <==> IsValidRequest(request)
    ensures error.Some? ==> error.value.InvalidRequest?
  {
    if !(1 <= request.limit <= MAX_PAGE_ROWS) {
      return Some(InvalidRequest("limit is outside the page row budget"));
    }
    var provided := Provided(request);
    for i := 0 to |provided|
      invariant forall j :: 0 <= j < i ==> WellFormedCursor(provided[j])
    {
      var c := provided[i];
      if !IsIdentity(c.identity) || c.sequence > c.observedHead || c.observedHead > MAX_I64
         || (c.sequence == 0 && c.anchor.Some?)
      {
        return Some(InvalidRequest("malformed cursor"));
      }
      if c.anchor.Some? {
        if !IsEventId(c.anchor.value.id) {
          return Some(InvalidRequest("malformed cursor anchor"));
        }
        if c.anchor.value.ts.Malformed? {
          return Some(InvalidRequest("malformed cursor anchor timestamp"));
        }
      }
    }
    if request.cursor.Some? && request.upper.Some?
       && (request.cursor.value.identity != request.upper.value.identity
           || request.cursor.value.sequence > request.upper.value.sequence)
    {
      return Some(InvalidRequest("cursor and upper bound do not match"));
    }
    return None;
  }

  /** Why a cursor cannot be continued in this snapshot, if it cannot. */
  function Discontinuity(w: World, c: Cursor): Result<Option<GapReason>, ReadError> {
    if c.identity != w.identity then Ok(Some(StoreChanged))
    else if c.observedHead > w.head then Ok(Some(ContinuityUnknown))
    else
      var matches :- AnchorMatches(w.rows, c, w.cutoff);
      Ok(if matches then None else Some(ContinuityUnknown))
  }

  function FirstDiscontinuity(w: World, cs: seq<Cursor>): Result<Option<GapReason>, ReadError> {
    if cs == [] then Ok(None)
    else
      var reason :- Discontinuity(w, cs[0]);
      if reason.Some? then Ok(reason) else FirstDiscontinuity(w, cs[1..])
  }

  function StartOf(w: World, request: Request): Cursor {
    match request.cursor
    case Some(c) => c
    case None => Cursor(w.identity, 0, w.head, None)
  }

  function LostGap(w: World, request: Request, reason: GapReason, current: Cursor): PageResult {
    var start := StartOf(w, request);
    GapOf(Gap(reason,
              Range(start.sequence, if request.upper.Some? then request.upper.value.sequence else start.observedHead),
              Cursor(w.identity, 0, w.head, None), current))
  }

  /** The answer to a valid request in one snapshot, given the version the reader opened. */
  function Answer(w: World, readerVersion: int, request: Request): Result<PageResult, ReadError>
    requires 1 <= request.limit
  {
    if readerVersion != SCHEMA_VERSION then Ok(Incompatible(readerVersion))
    else if w.version != SCHEMA_VERSION then Ok(Incompatible(w.version))
    else
      var current :- Position(w.rows, w.identity, w.head, w.head);
      var reason :- FirstDiscontinuity(w, Provided(request));
      if reason.Some? then Ok(LostGap(w, request, reason.value, current))
      else FirstRun(w.rows, StartOf(w, request), if request.upper.Some? then request.upper.value else current,
                    request.limit, w.cutoff)
  }

  /** Reads one page in the snapshot `w` with a reader that found schema `readerVersion`. */
  method ReadContextPageAt(w: World, readerVersion: int, request: Request) returns (r: Result<PageResult, ReadError>)
    ensures IsValidRequest(request) ==> r == Answer(w, readerVersion, request)
    ensures !IsValidRequest(request) ==> r.Err? && r.error.InvalidRequest?
  {
    var invalid := ValidateRequest(request);
    if invalid.Some? {
      return Err(invalid.value);
    }
    if readerVersion != SCHEMA_VERSION {
      return Ok(Incompatible(readerVersion));
    }
    if w.version != SCHEMA_VERSION {
      return Ok(Incompatible(w.version));
    }
    var current :- Position(w.rows, w.identity, w.head, w.head);
    var start := StartOf(w, request);
    var upper := if request.upper.Some? then request.upper.value else current;
    var cursors := Provided(request);
    while cursors != []
      invariant FirstDiscontinuity(w, Provided(request)) == FirstDiscontinuity(w, cursors)
      decreases |cursors|
    {
      var reason :- Discontinuity(w, cursors[0]);
      if reason.Some? {
        return Ok(LostGap(w, request, reason.value, current));
      }
      cursors := cursors[1..];
    }
    r := ReadRange(w.rows, start, upper, request.limit, w.cutoff);
  }

  // ---------------------------------------------------------------- the adopted prefix

  function Prefix(page: Page, rows: nat): Page
    requires 1 <= rows <= |page.observations|
  {
    if rows == |page.observations| then page
    else
      var last := page.observations[rows - 1];
      page.(observations := page.observations[..rows],
            next := page.next.(sequence := last.sequence, anchor := Some(Anchor(last.id, last.ts))),
            coverage := page.coverage.(through := last.sequence),
            hasMore := last.sequence < page.upper.sequence)
  }

  /** A page held by the wire owner, who may shorten it in place. */
  class PageBuffer {
    var observations: seq<Observation>
    var next: Cursor
    var upper: Cursor
    var hasMore: bool
    var coverage: Range

    function Contents(): Page
      reads this
    {
      Page(observations, next, upper, hasMore, coverage)
    }

    constructor (page: Page)
      ensures Contents() == page
    {
      observations := page.observations;
      next := page.next;
      upper := page.upper;
      hasMore := page.hasMore;
      coverage := page.coverage;
    }

    /** Adopts the first `rows` observations; rows and progress advance together. */
    method RetainPrefix(rows: nat) returns (error: Option<ReadError>)
      modifies this
      ensures error == None <==> rows == |old(observations)| || 1 <= rows <= |old(observations)|
      ensures error.Some? ==> Contents() == old(Contents())
      ensures error == None && rows > 0 ==> Contents() == Prefix(old(Contents()), rows)
      ensures error == None && rows == 0 ==> Contents() == old(Contents())
    {
      if rows == |observations| {
        return None;
      }
      if rows == 0 || rows > |observations| {
        return Some(InvalidRequest("invalid page prefix"));
      }
      observations := observations[..rows];
      var last := observations[rows - 1];
      next := next.(sequence := last.sequence, anchor := Some(Anchor(last.id, last.ts)));
      coverage := coverage.(through := last.sequence);
      hasMore := last.sequence < upper.sequence;
      return None;
    }
  }

  // ---------------------------------------------------------------- what one answer means

  /** Every slot in (after, through] is of one kind. */
  ghost predicate Uniform(rows: map<nat, Row>, after: nat, through: nat, cutoff: int, kind: SlotKind) {
    && (forall s :: after < s <= through ==> Kind(rows, s, cutoff) == kind)
    && (forall s :: after < s <= through ==> (s in rows <==> kind != Vacant))
  }

  /** The page is exactly its coverage: every sequence in it, all live, in order, and nothing else. */
  ghost predicate PageIsExact(rows: map<nat, Row>, cutoff: int, page: Page) {
    && page.coverage.after <= page.coverage.through
    && |page.observations| == page.coverage.through - page.coverage.after
    && Uniform(rows, page.coverage.after, page.coverage.through, cutoff, Live)
    && (forall i :: 0 <= i < |page.observations| ==>
          page.observations[i] == Observe(page.coverage.after + 1 + i, rows[page.coverage.after + 1 + i]))
  }

  ghost predicate GapIsTruthful(rows: map<nat, Row>, cutoff: int, gap: Gap) {
    || Uniform(rows, gap.affected.after, gap.affected.through, cutoff, Vacant)
    || Uniform(rows, gap.affected.after, gap.affected.through, cutoff, Expired)
  }

  lemma RunIsUniform(rows: map<nat, Row>, at: nat, bound: nat, cutoff: int)
    requires 1 <= at <= bound
    ensures Uniform(rows, at - 1, RunEnd(rows, at, bound, cutoff), cutoff, Kind(rows, at, cutoff))
  {
    forall s | at <= s <= RunEnd(rows, at, bound, cutoff)
      ensures s in rows <==> Kind(rows, at, cutoff) != Vacant
    {
      assert Kind(rows, s, cutoff) == Kind(rows, at, cutoff);
    }
  }

  /** The three shapes a successful range read can take, and the one way it can fail. */
  lemma FirstRunShape(rows: map<nat, Row>, start: Cursor, upper: Cursor, limit: nat, cutoff: int) returns (end: nat)
    requires 1 <= limit && start.sequence < upper.sequence
    ensures start.sequence < end <= upper.sequence
    ensures
      var r := FirstRun(rows, start, upper, limit, cutoff);
      || (end in rows && rows[end].ts.Malformed? && r == Err(InvalidTimestamp(rows[end].ts.raw)))
      || (r == UnavailableRange(rows, start, upper, end)
          && (Uniform(rows, start.sequence, end, cutoff, Vacant) || Uniform(rows, start.sequence, end, cutoff, Expired)))
      || (Uniform(rows, start.sequence, end, cutoff, Live) && end <= start.sequence + limit
          && r == LivePage(rows, start, upper, end))
  {
    var at := start.sequence + 1;
    var bound := Min(upper.sequence, start.sequence + limit);
    if Kind(rows, at, cutoff) == Vacant {
      end := RunEnd(rows, at, upper.sequence, cutoff);
      RunIsUniform(rows, at, upper.sequence, cutoff);
    } else if Kind(rows, at, cutoff) == Unreadable {
      end := at;
    } else {
      end := RunEnd(rows, at, bound, cutoff);
      RunIsUniform(rows, at, bound, cutoff);
      if end < bound && Kind(rows, end + 1, cutoff) == Unreadable {
        end := end + 1;
      }
    }
  }

  lemma LivePageIsExact(rows: map<nat, Row>, start: Cursor, upper: Cursor, cutoff: int, end: nat)
    requires start.sequence <= end <= upper.sequence && Uniform(rows, start.sequence, end, cutoff, Live)
    ensures
      match LivePage(rows, start, upper, end)
      case Err(e) => end in rows && rows[end].ts == Malformed(e.raw)
      case Ok(PageOf(page)) =>
        && PageIsExact(rows, cutoff, page)
        && page.coverage == Range(start.sequence, end)
        && page.next.sequence == end
        && page.upper == upper
        && (page.hasMore <==> page.next.sequence < upper.sequence)
        && Position(rows, upper.identity, end, upper.observedHead) == Ok(page.next)
      case _ => false
  {
  }

  /**
    Soundness and progress of one read. A Page holds exactly the rows it covers, a Gap is
    wholly absent or wholly expired, either one moves forward unless the scan is already at
    its bound, and neither leaves the requested interval. It fails only on a row whose
    stored time cannot be parsed.
   */
  lemma RangeIsSoundAndAdvances(rows: map<nat, Row>, start: Cursor, upper: Cursor, limit: nat, cutoff: int)
    requires 1 <= limit && start.sequence <= upper.sequence
    ensures
      match FirstRun(rows, start, upper, limit, cutoff)
      case Err(e) => e.InvalidTimestamp? && exists s :: start.sequence <= s <= upper.sequence && s in rows && rows[s].ts == Malformed(e.raw)
      case Ok(PageOf(page)) =>
        && PageIsExact(rows, cutoff, page)
        && page.coverage.after == start.sequence
        && page.coverage.through == page.next.sequence <= upper.sequence
        && (start.sequence < page.coverage.through || start.sequence == upper.sequence)
        && |page.observations| <= limit
        && page.upper == upper
        && (page.hasMore <==> page.next.sequence < upper.sequence)
        && Position(rows, upper.identity, page.next.sequence, upper.observedHead) == Ok(page.next)
      case Ok(GapOf(gap)) =>
        && gap.reason == RetentionOrDeletion
        && GapIsTruthful(rows, cutoff, gap)
        && gap.affected.after == start.sequence < gap.affected.through == gap.resume.sequence <= upper.sequence
        && gap.upper == upper
        && Position(rows, upper.identity, gap.resume.sequence, upper.observedHead) == Ok(gap.resume)
      case Ok(Incompatible(_)) => false
  {
    if start.sequence == upper.sequence {
      LivePageIsExact(rows, start, upper, cutoff, start.sequence);
    } else {
      var end := FirstRunShape(rows, start, upper, limit, cutoff);
      if Uniform(rows, start.sequence, end, cutoff, Live) {
        LivePageIsExact(rows, start, upper, cutoff, end);
      }
    }
  }

  /**
    Shortening a page in memory is the same as having read fewer rows: `retain_prefix(k)`
    equals, field for field, the answer to the same request with limit k.
   */
  lemma PrefixIsSmallerRead(
    rows: map<nat, Row>, start: Cursor, upper: Cursor, limit: nat, cutoff: int, page: Page, k: nat)
    requires 1 <= limit && start.sequence <= upper.sequence
    requires FirstRun(rows, start, upper, limit, cutoff) == Ok(PageOf(page))
    requires 1 <= k <= |page.observations|
    ensures FirstRun(rows, start, upper, k, cutoff) == Ok(PageOf(Prefix(page, k)))
  {
    RangeIsSoundAndAdvances(rows, start, upper, limit, cutoff);
    var end := start.sequence + k;
    forall s | start.sequence < s <= end
      ensures s in rows && Kind(rows, s, cutoff) == Live
    {
    }
    var os := Observations(rows, start.sequence, end);
    ScanConcludes(rows, start, upper, k, cutoff, end, false, os);
    PrefixFields(rows, start, upper, cutoff, page, k);
  }

  lemma PrefixFields(rows: map<nat, Row>, start: Cursor, upper: Cursor, cutoff: int, page: Page, k: nat)
    requires PageIsExact(rows, cutoff, page) && 1 <= k <= |page.observations|
    requires page.coverage.after == start.sequence
    requires Position(rows, upper.identity, page.next.sequence, upper.observedHead) == Ok(page.next)
    requires page.coverage.through == page.next.sequence && page.upper == upper
    requires page.hasMore <==> page.next.sequence < upper.sequence
    requires forall s :: start.sequence < s <= start.sequence + k ==> s in rows
    ensures LivePage(rows, start, upper, start.sequence + k) == Ok(PageOf(Prefix(page, k)))
  {
    var end := start.sequence + k;
    assert Kind(rows, end, cutoff) == Live;
    assert Prefix(page, k).observations == Observations(rows, start.sequence, end);
  }
}
