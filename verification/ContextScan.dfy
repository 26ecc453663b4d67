/**
  A whole scan: a client follows next and resume cursors to a fixed upper bound while the
  recorder appends, retention purges and the clock advances between its calls.
 */
module ContextScan {
  import opened Common
  import opened AppendStore
  import opened ContextPages

  // ---------------------------------------------------------------- cursor continuity

  /** A cursor this store handed out, or could have handed out, by now. */
  ghost predicate Issued(w: World, c: Cursor) {
    && c.identity == w.identity
    && c.sequence <= c.observedHead <= w.head
    && (c.anchor.Some? ==>
          && c.sequence != 0
          && IsEventId(c.anchor.value.id)
          && c.anchor.value.ts.Rfc3339?
          && (if c.sequence in w.rows
              then c.anchor.value == Anchor(w.rows[c.sequence].id, Canonical(w.rows[c.sequence].ts))
              else c.anchor.value.ts.instant < w.cutoff))
  }

  lemma IssuedStays(w: World, w': World, c: Cursor)
    requires WriterContract(w) && Later(w, w') && Issued(w, c)
    ensures Issued(w', c)
  {
  }

  /** Positions taken in a snapshot are issued by it, with or without a surviving row. */
  lemma PositionIsIssued(w: World, sequence: nat, head: nat)
    requires WriterContract(w) && sequence <= head <= w.head
    ensures Position(w.rows, w.identity, sequence, head).Ok?
    ensures Issued(w, Position(w.rows, w.identity, sequence, head).value)
  {
  }

  lemma IssuedIsWellFormed(w: World, c: Cursor)
    requires WriterContract(w) && Issued(w, c)
    ensures WellFormedCursor(c)
    ensures Discontinuity(w, c) == Ok(None)
  {
  }

  /** Only the unread interval, never the cursors, can have been lost. */
  lemma IssuedRequestContinues(w: World, request: Request)
    requires WriterContract(w)
    requires 1 <= request.limit <= MAX_PAGE_ROWS
    requires request.cursor.Some? ==> Issued(w, request.cursor.value)
    requires request.upper.Some? ==> Issued(w, request.upper.value)
    requires request.cursor.Some? && request.upper.Some? ==>
      request.cursor.value.sequence <= request.upper.value.sequence
    ensures IsValidRequest(request)
    ensures Position(w.rows, w.identity, w.head, w.head).Ok?
    ensures
      var current := Position(w.rows, w.identity, w.head, w.head).value;
      Answer(w, SCHEMA_VERSION, request) ==
      FirstRun(w.rows, StartOf(w, request), if request.upper.Some? then request.upper.value else current,
               request.limit, w.cutoff)
  {
    var cs := Provided(request);
    forall c | c in cs
      ensures WellFormedCursor(c) && Discontinuity(w, c) == Ok(None)
    {
      IssuedIsWellFormed(w, c);
    }
    NoDiscontinuity(w, cs);
    PositionIsIssued(w, w.head, w.head);
  }

  lemma {:induction false} NoDiscontinuity(w: World, cs: seq<Cursor>)
    requires forall c :: c in cs ==> Discontinuity(w, c) == Ok(None)
    ensures FirstDiscontinuity(w, cs) == Ok(None)
  {
    if cs != [] {
      assert cs[0] in cs;
      NoDiscontinuity(w, cs[1..]);
    }
  }

  /** Rows may vanish for any reason and the cutoff may move either way. */
  ghost predicate RowsOnlyVanish(w: World, w': World) {
    && w'.identity == w.identity
    && w.head <= w'.head
    && (forall s :: s in w'.rows && s <= w.head ==> s in w.rows && w'.rows[s] == w.rows[s])
    && (forall s :: s in w'.rows ==> w'.rows[s].ts.Rfc3339?)
  }

  /**
    Exactly when an issued cursor survives deletions that retention need not explain: its
    anchor row is still there, or the anchor is older than the cutoff now in force.
   */
  lemma ContinuityExactly(w: World, w': World, c: Cursor)
    requires WriterContract(w) && Issued(w, c) && RowsOnlyVanish(w, w')
    ensures Discontinuity(w', c) == Ok(None) <==>
            c.anchor == None || c.sequence in w'.rows || c.anchor.value.ts.instant < w'.cutoff
    ensures Discontinuity(w', c) != Ok(None) ==> Discontinuity(w', c) == Ok(Some(ContinuityUnknown))
  {
  }

  /** Lengthening retention after a purge moves the cutoff back and makes an honest cursor unknown. */
  lemma LongerRetentionBreaksACursor(identity: string)
    requires IsIdentity(identity)
    ensures exists w: World, purged: World, w': World, c: Cursor, gone ::
      && WriterContract(w) && Issued(w, c)
      && Purged(w, purged, gone)
      && w' == purged.(cutoff := purged.cutoff - 1)
      && Discontinuity(purged, c) == Ok(None)
      && Discontinuity(w', c) == Ok(Some(ContinuityUnknown))
  {
    var surface := Surface(None, None, None, None, None, None, None);
    var row := Row("evt_01J00000000000000000000000", Rfc3339(9, 0, 0), surface);
    var w := World(SCHEMA_VERSION, identity, 1, map[1 := row], 10);
    var purged := w.(rows := w.rows - {1});
    var w' := purged.(cutoff := 9);
    var c := Cursor(identity, 1, 1, Some(Anchor(row.id, row.ts)));
    assert WriterContract(w) && Issued(w, c);
    assert Purged(w, purged, {1});
    assert 1 !in purged.rows;
    assert Discontinuity(purged, c) == Ok(None);
    assert w' == purged.(cutoff := purged.cutoff - 1);
    assert Discontinuity(w', c) == Ok(Some(ContinuityUnknown));
  }

  // ---------------------------------------------------------------- one step of a scan

  /** One call of a scan: the snapshot it sees, its row limit, and how many rows the wire keeps (0: all). */
  datatype Call = Call(world: World, limit: nat, keep: nat)

  datatype Segment = Covered(range: Range, observations: seq<Observation>) | Missing(range: Range)

  datatype Progress = Progress(segment: Segment, next: Cursor, upper: Cursor)

  function Adopted(page: Page, keep: nat): Page {
    if 1 <= keep <= |page.observations| then Prefix(page, keep) else page
  }

  /** What the client records and where it continues; `None` when the scan cannot go on. */
  function Step(cursor: Option<Cursor>, upper: Cursor, call: Call): Option<Progress>
    requires 1 <= call.limit
  {
    match Answer(call.world, SCHEMA_VERSION, Request(cursor, Some(upper), call.limit))
    case Ok(PageOf(page)) =>
      var page := Adopted(page, call.keep);
      Some(Progress(Covered(page.coverage, page.observations), page.next, page.upper))
    case Ok(GapOf(gap)) =>
      if gap.reason == RetentionOrDeletion then Some(Progress(Missing(gap.affected), gap.resume, gap.upper)) else None
    case _ => None
  }

  ghost predicate SegmentIsTrue(w: World, segment: Segment) {
    match segment
    case Covered(range, os) =>
      && range.after <= range.through
      && |os| == range.through - range.after
      && Uniform(w.rows, range.after, range.through, w.cutoff, Live)
      && (forall i :: 0 <= i < |os| ==> os[i] == Observe(range.after + 1 + i, w.rows[range.after + 1 + i]))
    case Missing(range) =>
      || Uniform(w.rows, range.after, range.through, w.cutoff, Vacant)
      || Uniform(w.rows, range.after, range.through, w.cutoff, Expired)
  }

  function SequenceOf(cursor: Option<Cursor>): nat {
    if cursor.Some? then cursor.value.sequence else 0
  }

  ghost predicate Ready(w: World, cursor: Option<Cursor>, upper: Cursor) {
    && WriterContract(w)
    && Issued(w, upper)
    && (cursor.Some? ==> Issued(w, cursor.value))
    && SequenceOf(cursor) <= upper.sequence
  }

  ghost predicate GoodCall(call: Call) {
    1 <= call.limit <= MAX_PAGE_ROWS
  }

  /** A step that is sound in its snapshot, starts where it should, and leaves the client able to go on. */
  ghost predicate GoodStep(w: World, from: nat, upper: Cursor, p: Progress) {
    && SegmentIsTrue(w, p.segment)
    && p.upper == upper
    && p.segment.range.after == from
    && p.segment.range.through == p.next.sequence
    && (from < p.next.sequence || from == upper.sequence)
    && Ready(w, Some(p.next), upper)
  }

  /** A position reached inside the interval is one a client may go on from. */
  lemma StaysReady(w: World, next: Cursor, upper: Cursor)
    requires WriterContract(w) && Issued(w, upper) && next.sequence <= upper.sequence
    requires Position(w.rows, upper.identity, next.sequence, upper.observedHead) == Ok(next)
    ensures Ready(w, Some(next), upper)
  {
    PositionIsIssued(w, next.sequence, upper.observedHead);
  }

  lemma RangeStepIsGood(w: World, start: Cursor, upper: Cursor, limit: nat)
    requires WriterContract(w) && Issued(w, upper) && start.sequence <= upper.sequence && 1 <= limit
    ensures
      match FirstRun(w.rows, start, upper, limit, w.cutoff)
      case Ok(PageOf(page)) =>
        GoodStep(w, start.sequence, upper, Progress(Covered(page.coverage, page.observations), page.next, page.upper))
      case Ok(GapOf(gap)) =>
        gap.reason == RetentionOrDeletion &&
        GoodStep(w, start.sequence, upper, Progress(Missing(gap.affected), gap.resume, gap.upper))
      case _ => false
  {
    RangeIsSoundAndAdvances(w.rows, start, upper, limit, w.cutoff);
    match FirstRun(w.rows, start, upper, limit, w.cutoff) {
      case Ok(PageOf(page)) => StaysReady(w, page.next, upper);
      case Ok(GapOf(gap)) => StaysReady(w, gap.resume, upper);
      case _ =>
    }
  }

  /** Every call of a scan succeeds, tells the truth about its snapshot, moves on, and stays ready. */
  lemma StepSucceeds(cursor: Option<Cursor>, upper: Cursor, call: Call)
    requires GoodCall(call) && Ready(call.world, cursor, upper)
    ensures Step(cursor, upper, call).Some?
    ensures GoodStep(call.world, SequenceOf(cursor), upper, Step(cursor, upper, call).value)
  {
    var w := call.world;
    var request := Request(cursor, Some(upper), call.limit);
    IssuedRequestContinues(w, request);
    var start := StartOf(w, request);
    RangeStepIsGood(w, start, upper, call.limit);
    var answer := FirstRun(w.rows, start, upper, call.limit, w.cutoff);
    if answer.value.PageOf? && 1 <= call.keep <= |answer.value.page.observations| {
      PrefixIsSmallerRead(w.rows, start, upper, call.limit, w.cutoff, answer.value.page, call.keep);
      RangeStepIsGood(w, start, upper, call.keep);
    }
  }

  // ---------------------------------------------------------------- the whole scan

  /** The segments recorded by a client that follows its cursors through `calls`. */
  function Follow(cursor: Option<Cursor>, upper: Cursor, calls: seq<Call>): seq<Segment>
    requires forall i :: 0 <= i < |calls| ==> GoodCall(calls[i])
    decreases |calls|
  {
    if calls == [] then []
    else
      assert GoodCall(calls[0]);
      match Step(cursor, upper, calls[0])
      case None => []
      case Some(p) => [p.segment] + Follow(Some(p.next), p.upper, calls[1..])
  }

  /** The snapshots seen by successive calls, each reached from the one before by store steps. */
  ghost predicate Evolving(w: World, calls: seq<Call>)
    decreases |calls|
  {
    calls == [] ||
    (Later(w, calls[0].world) && WriterContract(calls[0].world) && GoodCall(calls[0]) && Evolving(calls[0].world, calls[1..]))
  }

  function FinalWorld(w: World, calls: seq<Call>): World
    decreases |calls|
  {
    if calls == [] then w else FinalWorld(calls[0].world, calls[1..])
  }

  /** Ranges laid end to end from `start`, each advancing until the bound is reached. */
  ghost predicate Tiles(start: nat, upper: nat, segments: seq<Segment>)
    decreases |segments|
  {
    segments == [] ||
    (var range := segments[0].range;
     && range.after == start
     && range.through <= upper
     && (start < range.through || start == range.through == upper)
     && Tiles(range.through, upper, segments[1..]))
  }

  function Reached(start: nat, segments: seq<Segment>): nat
    decreases |segments|
  {
    if segments == [] then start else Reached(segments[0].range.through, segments[1..])
  }

  function Delivered(segments: seq<Segment>): seq<Observation> {
    if segments == [] then []
    else (if segments[0].Covered? then segments[0].observations else []) + Delivered(segments[1..])
  }

  lemma {:induction false} EvolvingIsLater(w: World, calls: seq<Call>)
    requires WriterContract(w) && Evolving(w, calls)
    ensures Later(w, FinalWorld(w, calls))
    ensures forall i :: 0 <= i < |calls| ==> GoodCall(calls[i])
    ensures calls != [] ==> Later(calls[0].world, FinalWorld(w, calls))
    decreases |calls|
  {
    if calls != [] {
      EvolvingIsLater(calls[0].world, calls[1..]);
      LaterTransitive(w, calls[0].world, FinalWorld(w, calls));
      assert forall i :: 0 < i < |calls| ==> calls[i] == calls[1..][i - 1];
    }
  }

  lemma ReadyStays(w: World, w': World, cursor: Option<Cursor>, upper: Cursor)
    requires Ready(w, cursor, upper) && Later(w, w') && WriterContract(w')
    ensures Ready(w', cursor, upper)
  {
    IssuedStays(w, w', upper);
    if cursor.Some? {
      IssuedStays(w, w', cursor.value);
    }
  }

  /** No call fails, and the recorded ranges tile the scanned interval left to right. */
  lemma {:induction false} ScanTiles(w: World, cursor: Option<Cursor>, upper: Cursor, calls: seq<Call>)
    requires Ready(w, cursor, upper) && Evolving(w, calls)
    requires forall i :: 0 <= i < |calls| ==> GoodCall(calls[i])
    ensures |Follow(cursor, upper, calls)| == |calls|
    ensures Tiles(SequenceOf(cursor), upper.sequence, Follow(cursor, upper, calls))
    ensures forall i :: 0 <= i < |calls| ==> SegmentIsTrue(calls[i].world, Follow(cursor, upper, calls)[i])
    decreases |calls|
  {
    if calls != [] {
      ReadyStays(w, calls[0].world, cursor, upper);
      StepSucceeds(cursor, upper, calls[0]);
      var p := Step(cursor, upper, calls[0]).value;
      ScanTiles(calls[0].world, Some(p.next), upper, calls[1..]);
      var rest := Follow(Some(p.next), upper, calls[1..]);
      assert Follow(cursor, upper, calls) == [p.segment] + rest;
      assert Follow(cursor, upper, calls)[1..] == rest;
      forall i | 0 < i < |calls|
        ensures SegmentIsTrue(calls[i].world, Follow(cursor, upper, calls)[i])
      {
        assert SegmentIsTrue(calls[1..][i - 1].world, rest[i - 1]);
      }
    }
  }

  /** Each range advances, so a scan of n sequences needs at most n calls. */
  lemma {:induction false} TilesReach(start: nat, upper: nat, segments: seq<Segment>)
    requires start <= upper && Tiles(start, upper, segments)
    ensures start <= Reached(start, segments) <= upper
    ensures upper - start <= |segments| ==> Reached(start, segments) == upper
    decreases |segments|
  {
    if segments != [] {
      TilesReach(segments[0].range.through, upper, segments[1..]);
    }
  }

  ghost predicate StrictlyAscending(os: seq<Observation>, after: nat, through: nat) {
    && (forall i :: 0 <= i < |os| ==> after < os[i].sequence <= through)
    && (forall i, j :: 0 <= i < j < |os| ==> os[i].sequence < os[j].sequence)
  }

  /** A row that is still present and unexpired when the scan is over. */
  predicate Survives(w: World, s: nat) {
    s in w.rows && w.rows[s].ts.Rfc3339? && w.cutoff <= w.rows[s].ts.instant
  }

  lemma SegmentDelivers(w: World, segment: Segment, later: World)
    requires WriterContract(w) && Later(w, later)
    requires SegmentIsTrue(w, segment) && segment.range.after <= segment.range.through <= w.head
    ensures StrictlyAscending(Delivered([segment]), segment.range.after, segment.range.through)
    ensures forall s :: segment.range.after < s <= segment.range.through && Survives(later, s) ==>
      Observe(s, later.rows[s]) in Delivered([segment])
  {
    var os := if segment.Covered? then segment.observations else [];
    assert Delivered([segment]) == os + Delivered([]) == os;
    forall s | segment.range.after < s <= segment.range.through && Survives(later, s)
      ensures Observe(s, later.rows[s]) in Delivered([segment])
    {
      assert s in w.rows && w.rows[s] == later.rows[s];
      assert Kind(w.rows, s, w.cutoff) == Live;
      assert segment.Covered?;
      assert os[s - segment.range.after - 1] == Observe(s, w.rows[s]);
    }
  }

  /** Every survivor in (start, end] is among the observations, which ascend strictly within that range. */
  ghost predicate DeliversAll(os: seq<Observation>, start: nat, end: nat, final: World) {
    && start <= end
    && StrictlyAscending(os, start, end)
    && (forall s :: start < s <= end && Survives(final, s) ==> Observe(s, final.rows[s]) in os)
  }

  lemma DeliveriesJoin(a: seq<Observation>, b: seq<Observation>, start: nat, mid: nat, end: nat, final: World)
    requires DeliversAll(a, start, mid, final) && DeliversAll(b, mid, end, final)
    ensures DeliversAll(a + b, start, end, final)
  {
  }

  lemma FirstDelivers(w: World, segment: Segment, rest: seq<Segment>, start: nat, end: nat, final: World)
    requires WriterContract(w) && Later(w, final)
    requires SegmentIsTrue(w, segment) && segment.range.after == start && start <= segment.range.through <= w.head
    requires DeliversAll(Delivered(rest), segment.range.through, end, final)
    ensures DeliversAll(Delivered([segment] + rest), start, end, final)
  {
    SegmentDelivers(w, segment, final);
    DeliveredSplits(segment, rest);
    DeliveriesJoin(Delivered([segment]), Delivered(rest), start, segment.range.through, end, final);
  }

  /** The first call of a scan: what it records, and a scan that goes on from there. */
  lemma FirstCall(w: World, cursor: Option<Cursor>, upper: Cursor, calls: seq<Call>) returns (p: Progress)
    requires Ready(w, cursor, upper) && Evolving(w, calls) && calls != []
    requires forall i :: 0 <= i < |calls| ==> GoodCall(calls[i])
    ensures GoodStep(calls[0].world, SequenceOf(cursor), upper, p)
    ensures SequenceOf(cursor) <= p.next.sequence <= calls[0].world.head
    ensures forall i :: 0 <= i < |calls[1..]| ==> GoodCall(calls[1..][i])
    ensures Follow(cursor, upper, calls) == [p.segment] + Follow(Some(p.next), upper, calls[1..])
    ensures Evolving(calls[0].world, calls[1..]) && Later(calls[0].world, FinalWorld(w, calls))
  {
    ReadyStays(w, calls[0].world, cursor, upper);
    StepSucceeds(cursor, upper, calls[0]);
    EvolvingIsLater(w, calls);
    p := Step(cursor, upper, calls[0]).value;
  }

  lemma {:induction false} ScanDelivers(w: World, cursor: Option<Cursor>, upper: Cursor, calls: seq<Call>)
    requires Ready(w, cursor, upper) && Evolving(w, calls)
    requires forall i :: 0 <= i < |calls| ==> GoodCall(calls[i])
    ensures
      var segments := Follow(cursor, upper, calls);
      DeliversAll(Delivered(segments), SequenceOf(cursor), Reached(SequenceOf(cursor), segments), FinalWorld(w, calls))
    decreases |calls|
  {
    if calls != [] {
      var w1 := calls[0].world;
      var p := FirstCall(w, cursor, upper, calls);
      var rest := Follow(Some(p.next), upper, calls[1..]);
      ScanDelivers(w1, Some(p.next), upper, calls[1..]);
      FirstDelivers(w1, p.segment, rest, SequenceOf(cursor), Reached(p.next.sequence, rest), FinalWorld(w, calls));
    }
  }

  lemma DeliveredSplits(segment: Segment, rest: seq<Segment>)
    ensures Delivered([segment] + rest) == Delivered([segment]) + Delivered(rest)
  {
    assert ([segment] + rest)[1..] == rest;
    assert [segment][1..] == [];
  }

  /**
    The scan theorem. Whatever the recorder, retention and the clock do between calls, and
    however the wire shortens pages: no call fails, every range is true of the snapshot it was
    read in, the ranges tile the interval, it ends
    within as many calls as the interval has sequences, observations arrive in strictly
    ascending order, and every row in the scanned part that survives to the end has been
    delivered, unchanged and, by the order, exactly once.
   */
  lemma WholeScan(w: World, cursor: Option<Cursor>, upper: Cursor, calls: seq<Call>)
    requires Ready(w, cursor, upper) && Evolving(w, calls)
    requires forall i :: 0 <= i < |calls| ==> GoodCall(calls[i])
    ensures
      var segments := Follow(cursor, upper, calls);
      var start := SequenceOf(cursor);
      var end := Reached(start, segments);
      && |segments| == |calls|
      && Tiles(start, upper.sequence, segments)
      && (forall i :: 0 <= i < |calls| ==> SegmentIsTrue(calls[i].world, segments[i]))
      && (upper.sequence - start <= |calls| ==> end == upper.sequence)
      && end <= upper.sequence
      && DeliversAll(Delivered(segments), start, end, FinalWorld(w, calls))
  {
    ScanTiles(w, cursor, upper, calls);
    TilesReach(SequenceOf(cursor), upper.sequence, Follow(cursor, upper, calls));
    ScanDelivers(w, cursor, upper, calls);
  }

  /** A scan that starts with no cursor and takes its bound from the first snapshot is ready. */
  lemma FreshScanIsReady(w: World)
    requires WriterContract(w)
    ensures Position(w.rows, w.identity, w.head, w.head).Ok?
    ensures Ready(w, None, Position(w.rows, w.identity, w.head, w.head).value)
  {
    PositionIsIssued(w, w.head, w.head);
  }
}
