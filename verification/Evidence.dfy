/**
  Selected evidence: one text field of one event, read in bounded chunks that never split
  a character, shortened again by the wire, and put back together by the client.
 */
module Evidence {
  import opened Common
  import opened AppendStore
  import opened Utf8

  const MAX_EVIDENCE_BYTES: nat := 64 * 1024

  /** The selected column or JSON value of the addressed row, as SQLite types it. */
  datatype Field = NullField | TextField(bytes: seq<byte>) | OtherField

  datatype Request = Request(
    identity: string, sequence: nat, eventId: string, observedAt: Stamp,
    start: nat, end: Option<nat>, maxBytes: nat)

  datatype Content = Absent | Text(
    text: seq<byte>, start: nat, end: nat, total: nat, remaining: Option<(nat, nat)>)

  datatype EvidenceResult = Selected(content: Content, observedAt: Stamp) | Expired | Denied | Incompatible(version: int)

  datatype EvidenceError = InvalidRequest(reason: string) | InvalidTimestamp | Corrupt(reason: string)

  predicate IsValidRequest(q: Request) {
    && (q.end.Some? ==> q.start <= q.end.value <= MAX_I64)
    && q.start <= MAX_I64
    && 4 <= q.maxBytes <= MAX_EVIDENCE_BYTES
    && 1 <= q.sequence <= MAX_I64
    && q.observedAt.Rfc3339?
  }

  /** The row at the requested place is the requested event, seen at the requested time. */
  predicate IsRequestedEvent(row: Row, q: Request) {
    row.id == q.eventId && row.ts.Rfc3339? && q.observedAt.Rfc3339? && row.ts.instant == q.observedAt.instant
  }

  /** The request names exactly one stored, unexpired event of this store. */
  predicate Authorized(w: World, q: Request) {
    && q.identity == w.identity
    && q.sequence in w.rows
    && IsRequestedEvent(w.rows[q.sequence], q)
    && w.cutoff <= q.observedAt.instant
  }

  /** A well-formed request to a store of the reader's own version: what is answered depends on the rows. */
  predicate ReachesTheRows(w: World, readerVersion: int, q: Request) {
    IsValidRequest(q) && readerVersion == SCHEMA_VERSION && w.version == SCHEMA_VERSION
  }

  // ---------------------------------------------------------------- one chunk

  function RequestedEnd(q: Request, total: nat): nat {
    if q.end.Some? then q.end.value else total
  }

  /**
    The reference answer for bytes [start, end) of a valid text under a byte budget: the
    longest whole-character prefix of the budgeted window, refused when the range itself
    begins or ends inside a character.
   */
  function Chunk(text: seq<byte>, start: nat, end: nat, budget: nat): Result<Content, EvidenceError> {
    if start > |text| || end > |text| || start > end then Err(InvalidRequest("evidence range exceeds field"))
    else if start == end then Ok(Text([], start, start, |text|, None))
    else if !Boundary(text, start) then Err(InvalidRequest("evidence range splits UTF-8"))
    else
      var stop := Min(start + budget, end);
      var at := LastBoundary(text, stop);
      if at < stop && stop == end then Err(InvalidRequest("evidence range splits UTF-8"))
      else Ok(Text(text[start..at], start, at, |text|, if at < end then Some((at, end)) else None))
  }

  /** A position inside a character of a valid text holds a continuation byte. */
  lemma {:induction false} InsideCharacterIsTail(text: seq<byte>, at: nat)
    requires Valid(text) && at < |text| && !Boundary(text, at)
    ensures Width(text[at]) == 0
    decreases |text|
  {
    var width := Decode(text).width;
    DecodePrefix(text, |text|);
    assert Boundary(text, 0) by { assert text[..0] == []; }
    if at < width {
      assert IsTail(text[at]);
    } else {
      BoundaryShift(text, width, at - width);
      InsideCharacterIsTail(text[width..], at - width);
    }
  }

  lemma ScanInsideCharacter(text: seq<byte>, start: nat, stop: nat)
    requires Valid(text) && start < stop <= |text| && !Boundary(text, start)
    ensures FromUtf8(text[start..stop]) == Scan(0, Broken)
  {
    InsideCharacterIsTail(text, start);
    assert text[start..stop][0] == text[start];
  }

  lemma ScanFromBoundary(text: seq<byte>, start: nat, stop: nat)
    requires Valid(text) && start < stop <= |text| && Boundary(text, start)
    ensures FromUtf8(text[start..stop]) == Scan(
      LastBoundary(text, stop) - start,
      if LastBoundary(text, stop) == stop then Clean else Incomplete)
    ensures start <= LastBoundary(text, stop) && stop - LastBoundary(text, stop) <= 3
  {
    var suffix := text[start..];
    assert suffix[..stop - start] == text[start..stop];
    ValidSuffix(text, start);
    WindowScan(suffix, stop - start);
    LastBoundarySuffix(text, start, stop, FromUtf8(text[start..stop]).validUpTo);
    assert LastBoundary(text, stop) == start + FromUtf8(text[start..stop]).validUpTo;
  }

  /** What validating the window says about boundaries of the whole text. */
  lemma ScanOfWindow(text: seq<byte>, start: nat, stop: nat)
    requires Valid(text) && start < stop <= |text|
    ensures Boundary(text, start) ==>
      FromUtf8(text[start..stop]) == Scan(
        LastBoundary(text, stop) - start,
        if LastBoundary(text, stop) == stop then Clean else Incomplete)
    ensures Boundary(text, start) ==> start <= LastBoundary(text, stop) && stop - LastBoundary(text, stop) <= 3
    ensures !Boundary(text, start) ==> FromUtf8(text[start..stop]) == Scan(0, Broken)
  {
    if Boundary(text, start) {
      ScanFromBoundary(text, start, stop);
    } else {
      ScanInsideCharacter(text, start, stop);
    }
  }

  /** Drops a character cut off by the budget; refuses every other flaw. */
  method TrimToCharacters(window: seq<byte>, wanted: nat) returns (bytes: Option<seq<byte>>)
    ensures bytes == Trimmed(window, wanted)
  {
    var scan := FromUtf8(window);
    if scan.status == Clean {
      assert window[..scan.validUpTo] == window;
      return Some(window);
    }
    if scan.status == Incomplete && |window| < wanted {
      return Some(window[..scan.validUpTo]);
    }
    return None;
  }

  function Trimmed(window: seq<byte>, wanted: nat): Option<seq<byte>> {
    var scan := FromUtf8(window);
    if scan.status == Clean || (scan.status == Incomplete && |window| < wanted)
    then Some(window[..scan.validUpTo]) else None
  }

  function ChunkOf(text: seq<byte>, start: nat, end: nat, bytes: Option<seq<byte>>): Result<Content, EvidenceError> {
    match bytes
    case None => Err(InvalidRequest("evidence range splits UTF-8"))
    case Some(b) =>
      var at := start + |b|;
      Ok(Text(b, start, at, |text|, if at < end then Some((at, end)) else None))
  }

  lemma TrimmedWindow(text: seq<byte>, start: nat, end: nat, stop: nat)
    requires Valid(text) && Boundary(text, start) && start < stop <= end <= |text|
    ensures
      var at := LastBoundary(text, stop);
      Trimmed(text[start..stop], end - start) ==
      if at < stop && stop == end then None else Some(text[start..at])
  {
    ScanOfWindow(text, start, stop);
    SliceOfSlice(text, start, stop, LastBoundary(text, stop) - start);
  }

  /** The reference chunk is what trimming the byte window gives. */
  lemma ChunkFromWindow(text: seq<byte>, start: nat, end: nat, budget: nat, stop: nat)
    requires Valid(text) && start <= end <= |text| && 4 <= budget && stop == Min(start + budget, end)
    ensures Chunk(text, start, end, budget) == ChunkOf(text, start, end, Trimmed(text[start..stop], end - start))
  {
    if start == end {
      assert text[start..stop] == [];
    } else if Boundary(text, start) {
      TrimmedWindow(text, start, end, stop);
    } else {
      ScanOfWindow(text, start, stop);
    }
  }

  lemma SliceOfSlice(text: seq<byte>, start: nat, stop: nat, n: nat)
    requires start + n <= stop <= |text|
    ensures text[start..stop][..n] == text[start..start + n]
  {
  }

  /** Reads the requested bytes of one selected field in one snapshot. */
  method ReadEvidenceAt(w: World, readerVersion: int, q: Request, field: Field)
    returns (r: Result<EvidenceResult, EvidenceError>)
    ensures !IsValidRequest(q) ==> r.Err? && r.error.InvalidRequest?
    ensures (r.Ok? && r.value.Incompatible?) <==> IsValidRequest(q) && !ReachesTheRows(w, readerVersion, q)
    ensures r.Ok? && r.value.Incompatible? ==>
      r.value.version == (if readerVersion != SCHEMA_VERSION then readerVersion else w.version) != SCHEMA_VERSION
    ensures r == Ok(Denied) <==>
      ReachesTheRows(w, readerVersion, q) &&
      (q.identity != w.identity ||
       (q.sequence in w.rows && w.rows[q.sequence].ts.Rfc3339? && !IsRequestedEvent(w.rows[q.sequence], q)))
    ensures r == Ok(Expired) <==>
      ReachesTheRows(w, readerVersion, q) && q.identity == w.identity &&
      (q.sequence !in w.rows || (IsRequestedEvent(w.rows[q.sequence], q) && w.rows[q.sequence].ts.instant < w.cutoff))
    ensures r == Err(InvalidTimestamp) <==>
      ReachesTheRows(w, readerVersion, q) && q.identity == w.identity &&
      q.sequence in w.rows && w.rows[q.sequence].ts.Malformed?
    ensures r.Ok? && r.value.Selected? ==> Authorized(w, q)
    ensures ReachesTheRows(w, readerVersion, q) && Authorized(w, q) ==>
      match field
      case NullField => r == Ok(Selected(Absent, Canonical(w.rows[q.sequence].ts)))
      case OtherField => r.Err? && r.error.Corrupt?
      case TextField(text) => Valid(text) ==>
        (r.Err? || (r.value.Selected? && r.value.observedAt == Canonical(w.rows[q.sequence].ts))) &&
        Chunk(text, q.start, RequestedEnd(q, |text|), q.maxBytes) ==
        if r.Ok? then Ok(r.value.content) else Err(r.error)
  {
    if (q.end.Some? && (q.start > q.end.value || q.end.value > MAX_I64))
       || q.start > MAX_I64 || !(4 <= q.maxBytes <= MAX_EVIDENCE_BYTES)
       || q.sequence == 0 || q.sequence > MAX_I64
    {
      return Err(InvalidRequest("invalid evidence range or budget"));
    }
    if q.observedAt.Malformed? {
      return Err(InvalidRequest("invalid evidence timestamp"));
    }
    if readerVersion != SCHEMA_VERSION {
      return Ok(Incompatible(readerVersion));
    }
    if w.version != SCHEMA_VERSION {
      return Ok(Incompatible(w.version));
    }
    if w.identity != q.identity {
      return Ok(Denied);
    }
    if q.sequence !in w.rows {
      return Ok(Expired);
    }
    var row := w.rows[q.sequence];
    if row.ts.Malformed? {
      return Err(InvalidTimestamp);
    }
    if row.id != q.eventId || row.ts.instant != q.observedAt.instant {
      return Ok(Denied);
    }
    if row.ts.instant < w.cutoff {
      return Ok(Expired);
    }
    match field {
      case NullField =>
        return Ok(Selected(Absent, Canonical(row.ts)));
      case OtherField =>
        return Err(Corrupt("selected evidence field is not text"));
      case TextField(text) =>
        var content :- ReadChunk(text, q.start, q.end, q.maxBytes);
        return Ok(Selected(content, Canonical(row.ts)));
    }
  }

  /** The byte window, its validation, and the truncation of a character cut off by the budget. */
  method ReadChunk(text: seq<byte>, start: nat, end: Option<nat>, maxBytes: nat) returns (r: Result<Content, EvidenceError>)
    requires end.Some? ==> start <= end.value
    requires 4 <= maxBytes
    ensures Valid(text) ==> r == Chunk(text, start, if end.Some? then end.value else |text|, maxBytes)
    ensures r.Err? ==> r.error.InvalidRequest?
  {
    var total := |text|;
    var requestedEnd := if end.Some? then end.value else total;
    if requestedEnd > total || start > total {
      return Err(InvalidRequest("evidence range exceeds field"));
    }
    var toRead := Min(maxBytes, if end.Some? then end.value - start else maxBytes);
    var stop := Min(start + toRead, total);
    assert stop == Min(start + maxBytes, requestedEnd);
    if Valid(text) {
      ChunkFromWindow(text, start, requestedEnd, maxBytes, stop);
    }
    var bytes := TrimToCharacters(text[start..stop], requestedEnd - start);
    return ChunkOf(text, start, requestedEnd, bytes);
  }

  // ---------------------------------------------------------------- the wire step

  function Shortened(c: Content, prefix: nat): Content
    requires c.Text? ==> prefix <= |c.text|
  {
    match c
    case Absent => Absent
    case Text(text, start, end, total, remaining) =>
      var requestedEnd := if remaining.Some? then remaining.value.1 else end;
      var end := start + prefix;
      Text(text[..prefix], start, end, total, if end < requestedEnd then Some((end, requestedEnd)) else None)
  }

  /** Byte positions at which the characters of a text begin, counted from `base`. */
  function CharStarts(text: seq<byte>, base: nat): seq<nat>
    requires Valid(text)
    decreases |text|
  {
    if text == [] then []
    else [base] + CharStarts(text[Decode(text).width..], base + Decode(text).width)
  }

  ghost predicate Ascending(positions: seq<nat>) {
    forall i, j :: 0 <= i < j < |positions| ==> positions[i] < positions[j]
  }

  /** The character starts are exactly the boundaries before the end, in order. */
  lemma {:induction false} StartsAreBoundaries(text: seq<byte>, base: nat)
    requires Valid(text)
    ensures Ascending(CharStarts(text, base))
    ensures forall at :: at in CharStarts(text, base) <==> base <= at < base + |text| && Boundary(text, at - base)
    decreases |text|
  {
    if text != [] {
      var width := Decode(text).width;
      var rest := text[width..];
      var tail := CharStarts(rest, base + width);
      StartsAreBoundaries(rest, base + width);
      assert CharStarts(text, base) == [base] + tail;
      assert Boundary(text, 0) by { assert text[..0] == []; }
      forall at | base <= at < base + |text|
        ensures at in CharStarts(text, base) <==> Boundary(text, at - base)
      {
        if base + width <= at {
          BoundaryShift(text, width, at - base - width);
        } else if base < at {
          NoBoundaryInsideCharacter(text, at - base);
        }
      }
      forall j | 0 < j < |CharStarts(text, base)|
        ensures base < CharStarts(text, base)[j]
      {
        assert tail[j - 1] in tail;
      }
    }
  }

  type Encoder = Content -> seq<byte>

  predicate Fits(encode: Encoder, c: Content) {
    |encode(c)| <= MAX_EVIDENCE_BYTES
  }

  function InnerBoundaries(text: seq<byte>): seq<nat>
    requires Valid(text)
  {
    if text == [] then [] else CharStarts(text, 0)[1..]
  }

  function TextOf(c: Content): seq<byte> {
    if c.Text? then c.text else []
  }

  /** A longer whole-character prefix never encodes shorter. */
  ghost predicate GrowsWithText(encode: Encoder, c: Content)
    requires Valid(TextOf(c))
  {
    var bs := InnerBoundaries(TextOf(c));
    c.Text? ==> forall i, j :: 0 <= i <= j < |bs| && bs[i] <= |c.text| && bs[j] <= |c.text| ==>
      |encode(Shortened(c, bs[i]))| <= |encode(Shortened(c, bs[j]))|
  }

  /** A shortened answer keeps a non-empty run of whole characters, or the text as it was read. */
  ghost predicate IsKeep(c: Content, kept: nat) {
    kept == |TextOf(c)| || (0 < kept < |TextOf(c)| && Boundary(TextOf(c), kept))
  }

  /** Binary search for the last candidate that fits; `index` is its place. */
  method LastFitting(c: Content, candidates: seq<nat>, encode: Encoder) returns (best: Option<seq<byte>>, ghost index: nat)
    requires forall i :: 0 <= i < |candidates| && c.Text? ==> candidates[i] <= |c.text|
    ensures best.Some? ==>
      index < |candidates| && best.value == encode(Shortened(c, candidates[index])) && |best.value| <= MAX_EVIDENCE_BYTES
    ensures best == None && candidates != [] ==> !Fits(encode, Shortened(c, candidates[0]))
    ensures best.Some? && index + 1 < |candidates| ==> !Fits(encode, Shortened(c, candidates[index + 1]))
  {
    var low, high := 0, |candidates|;
    best := None;
    index := 0;
    while low < high
      invariant 0 <= low <= high <= |candidates|
      invariant high < |candidates| ==> !Fits(encode, Shortened(c, candidates[high]))
      invariant best == None ==> low == 0
      invariant best.Some? ==> 0 < low && index == low - 1
      invariant best.Some? ==> best.value == encode(Shortened(c, candidates[index])) && |best.value| <= MAX_EVIDENCE_BYTES
    {
      var mid := low + (high - low) / 2;
      var bytes := encode(Shortened(c, candidates[mid]));
      if |bytes| <= MAX_EVIDENCE_BYTES {
        best := Some(bytes);
        index := mid;
        low := mid + 1;
      } else {
        high := mid;
      }
    }
  }

  /**
    Fits a chunk into the wire budget: the largest whole-character prefix when encodings
    grow with the text, never one over the budget, and nothing only when the one-character
    prefix does not fit either.
   */
  method FitEvidence(c: Content, encode: Encoder) returns (best: Option<seq<byte>>, ghost kept: nat)
    requires Valid(TextOf(c))
    ensures best.Some? ==> IsKeep(c, kept) && best.value == encode(Shortened(c, kept)) && |best.value| <= MAX_EVIDENCE_BYTES
    ensures Fits(encode, Shortened(c, |TextOf(c)|)) ==> best.Some? && kept == |TextOf(c)|
    ensures best.Some? && GrowsWithText(encode, c) ==>
      forall at :: kept < at < |TextOf(c)| && Boundary(TextOf(c), at) ==> !Fits(encode, Shortened(c, at))
    ensures best == None ==> !Fits(encode, Shortened(c, |TextOf(c)|))
    ensures best == None && InnerBoundaries(TextOf(c)) != [] ==>
      InnerBoundaries(TextOf(c))[0] <= |TextOf(c)| && !Fits(encode, Shortened(c, InnerBoundaries(TextOf(c))[0]))
  {
    var text := TextOf(c);
    var full := encode(Shortened(c, |text|));
    if |full| <= MAX_EVIDENCE_BYTES {
      return Some(full), |text|;
    }
    var boundaries := InnerBoundaries(text);
    InnerBoundariesAreKeeps(c);
    ghost var index;
    best, index := LastFitting(c, boundaries, encode);
    kept := 0;
    if best.Some? {
      kept := boundaries[index];
      assert IsKeep(c, kept);
      if GrowsWithText(encode, c) {
        LargerKeepsDoNotFit(c, encode, boundaries, index);
      }
    }
  }

  lemma LargerKeepsDoNotFit(c: Content, encode: Encoder, boundaries: seq<nat>, index: nat)
    requires Valid(TextOf(c)) && boundaries == InnerBoundaries(TextOf(c)) && index < |boundaries|
    requires forall i :: 0 <= i < |boundaries| ==> boundaries[i] <= |TextOf(c)|
    requires GrowsWithText(encode, c)
    requires index + 1 < |boundaries| ==> !Fits(encode, Shortened(c, boundaries[index + 1]))
    ensures forall at :: boundaries[index] < at < |TextOf(c)| && Boundary(TextOf(c), at) ==> !Fits(encode, Shortened(c, at))
  {
    InnerBoundariesAreKeeps(c);
    forall at | boundaries[index] < at < |TextOf(c)| && Boundary(TextOf(c), at)
      ensures !Fits(encode, Shortened(c, at))
    {
      assert at in boundaries;
      var j := PlaceAfter(boundaries, index, at);
      assert |encode(Shortened(c, boundaries[index + 1]))| <= |encode(Shortened(c, boundaries[j]))|;
    }
  }

  lemma PlaceAfter(positions: seq<nat>, index: nat, at: nat) returns (j: nat)
    requires Ascending(positions) && index < |positions| && positions[index] < at && at in positions
    ensures index < j < |positions| && positions[j] == at
  {
    assert forall i :: 0 <= i < index ==> positions[i] < positions[index];
    j :| j < |positions| && positions[j] == at;
  }

  lemma InnerBoundariesAreKeeps(c: Content)
    requires Valid(TextOf(c))
    ensures
      var bs := InnerBoundaries(TextOf(c));
      && Ascending(bs)
      && (forall i :: 0 <= i < |bs| ==> 0 < bs[i] < |TextOf(c)| && IsKeep(c, bs[i]))
      && (forall at :: 0 < at < |TextOf(c)| && Boundary(TextOf(c), at) ==> at in bs)
  {
    var text := TextOf(c);
    if text != [] {
      StartsAreBoundaries(text, 0);
      var starts := CharStarts(text, 0);
      assert starts[0] == 0;
      var bs := InnerBoundaries(text);
      forall i | 0 <= i < |bs|
        ensures 0 < bs[i] < |text| && IsKeep(c, bs[i])
      {
        assert starts[i + 1] in starts;
      }
      forall at | 0 < at < |text| && Boundary(text, at)
        ensures at in bs
      {
        assert at in starts;
        var i :| 0 <= i < |starts| && starts[i] == at;
        assert bs[i - 1] == at;
      }
    }
  }

  // ---------------------------------------------------------------- putting chunks back together

  /** A range that begins and ends between characters is never refused, and each read of it advances. */
  lemma AlignedChunk(text: seq<byte>, start: nat, end: nat, budget: nat)
    requires Valid(text) && Boundary(text, start) && Boundary(text, end) && start <= end && 4 <= budget
    ensures Chunk(text, start, end, budget).Ok?
    ensures
      var c := Chunk(text, start, end, budget).value;
      IsPiece(text, start, end, c) && Boundary(text, c.end) && |c.text| <= budget
  {
    if start < end {
      ScanOfWindow(text, start, Min(start + budget, end));
    } else {
      assert text[start..start] == [];
    }
  }

  /** One answer to bytes [start, end): whole characters from `start`, and what is left to ask for. */
  ghost predicate IsPiece(text: seq<byte>, start: nat, end: nat, c: Content) {
    && c.Text? && c.start == start && start <= c.end <= end <= |text|
    && c.text == text[start..c.end]
    && (start < end ==> start < c.end)
    && c.remaining == (if c.end < end then Some((c.end, end)) else None)
  }

  lemma ShortenedPiece(text: seq<byte>, start: nat, end: nat, full: Content, kept: nat)
    requires IsPiece(text, start, end, full) && IsKeep(full, kept)
    ensures IsPiece(text, start, end, Shortened(full, kept)) && Shortened(full, kept).end == start + kept
  {
    SliceOfSlice(text, start, full.end, kept);
  }

  /** The bytes between two boundaries of a valid text are valid text. */
  lemma SliceIsValid(text: seq<byte>, start: nat, end: nat)
    requires start <= end <= |text| && Boundary(text, start) && Boundary(text, end)
    ensures Valid(text[start..end])
  {
    BoundarySuffix(text, start, end);
    assert text[start..][..end - start] == text[start..end];
  }

  lemma ShortenedIsValid(text: seq<byte>, start: nat, end: nat, full: Content, kept: nat)
    requires IsPiece(text, start, end, full) && Boundary(text, start) && Boundary(text, full.end) && IsKeep(full, kept)
    ensures Boundary(text, Shortened(full, kept).end) && Valid(Shortened(full, kept).text)
  {
    var stop := start + kept;
    ShortenedPiece(text, start, end, full, kept);
    if kept < |full.text| {
      KeptBoundary(text, start, full.end, kept);
    }
    SliceIsValid(text, start, stop);
  }

  /** A boundary inside a slice that begins at one is a boundary of the whole text. */
  lemma KeptBoundary(text: seq<byte>, start: nat, end: nat, kept: nat)
    requires start <= end <= |text| && Boundary(text, start) && Boundary(text, end) && kept <= end - start
    requires Boundary(text[start..end], kept)
    ensures Boundary(text, start + kept)
  {
    var stop := start + kept;
    assert text[start..end][..kept] == text[start..stop];
    assert text[start..][..kept] == text[start..stop];
    BoundarySuffix(text, start, stop);
  }

  /** The answers a client collects when it asks for each `remaining` range in turn. */
  ghost predicate Conversation(text: seq<byte>, start: nat, end: nat, budget: nat, answers: seq<Content>)
    requires Valid(text)
    decreases |answers|
  {
    answers == [] ||
    (exists kept ::
       && Chunk(text, start, end, budget).Ok?
       && IsKeep(Chunk(text, start, end, budget).value, kept)
       && answers[0] == Shortened(Chunk(text, start, end, budget).value, kept)
       && answers[0].Text?
       && match answers[0].remaining
          case None => |answers| == 1
          case Some(range) => Conversation(text, range.0, range.1, budget, answers[1..]))
  }

  function Assembled(answers: seq<Content>): seq<byte> {
    if answers == [] then [] else TextOf(answers[0]) + Assembled(answers[1..])
  }

  function EndOf(start: nat, answers: seq<Content>): nat {
    if answers == [] || !answers[|answers| - 1].Text? then start else answers[|answers| - 1].end
  }

  /** Pieces laid end to end from `start`, each asking for what the one before it left. */
  ghost predicate Pieces(text: seq<byte>, start: nat, end: nat, answers: seq<Content>)
    decreases |answers|
  {
    answers != [] && IsPiece(text, start, end, answers[0]) && Valid(answers[0].text) &&
    (|answers| > 1 ==> answers[0].end < end && Pieces(text, answers[0].end, end, answers[1..]))
  }

  lemma {:induction false} ConversationIsPieces(text: seq<byte>, start: nat, end: nat, budget: nat, answers: seq<Content>)
    requires Valid(text) && Boundary(text, start) && Boundary(text, end) && start <= end && 4 <= budget
    requires answers != [] && Conversation(text, start, end, budget, answers)
    ensures Pieces(text, start, end, answers)
    decreases |answers|
  {
    AlignedChunk(text, start, end, budget);
    var full := Chunk(text, start, end, budget).value;
    var kept :| IsKeep(full, kept) && answers[0] == Shortened(full, kept);
    ShortenedPiece(text, start, end, full, kept);
    ShortenedIsValid(text, start, end, full, kept);
    if |answers| > 1 {
      ConversationIsPieces(text, answers[0].end, end, budget, answers[1..]);
    }
  }

  lemma {:induction false} PiecesAreText(text: seq<byte>, start: nat, end: nat, answers: seq<Content>)
    requires Pieces(text, start, end, answers)
    ensures forall i :: 0 <= i < |answers| ==> answers[i].Text? && Valid(answers[i].text) && (start < end ==> answers[i].text != [])
    decreases |answers|
  {
    if |answers| > 1 {
      var rest := answers[1..];
      PiecesAreText(text, answers[0].end, end, rest);
      assert forall i :: 0 < i < |answers| ==> answers[i] == rest[i - 1];
    }
  }

  lemma {:induction false} PiecesAssemble(text: seq<byte>, start: nat, end: nat, answers: seq<Content>)
    requires Pieces(text, start, end, answers)
    ensures start <= EndOf(start, answers) <= end
    ensures Assembled(answers) == text[start..EndOf(start, answers)]
    ensures answers[|answers| - 1].remaining == None <==> EndOf(start, answers) == end
    ensures start < end ==> |answers| <= end - start
    decreases |answers|
  {
    var rest := answers[1..];
    assert Assembled(answers) == answers[0].text + Assembled(rest);
    if rest != [] {
      PiecesAssemble(text, answers[0].end, end, rest);
      var last := EndOf(start, answers);
      assert last == EndOf(answers[0].end, rest);
      assert text[start..last] == text[start..answers[0].end] + text[answers[0].end..last];
    }
  }

  /**
    Reassembly. Whatever prefixes the wire keeps, the answers to an aligned range are valid
    text, each but an empty range's is non-empty, their concatenation is exactly the bytes
    read so far, and the conversation is over exactly when the whole range has been read,
    which takes at most as many answers as the range has bytes.
   */
  lemma Reassembly(text: seq<byte>, start: nat, end: nat, budget: nat, answers: seq<Content>)
    requires Valid(text) && Boundary(text, start) && Boundary(text, end) && start <= end && 4 <= budget
    requires answers != [] && Conversation(text, start, end, budget, answers)
    ensures forall i :: 0 <= i < |answers| ==> answers[i].Text? && Valid(answers[i].text) && (start < end ==> answers[i].text != [])
    ensures start <= EndOf(start, answers) <= end
    ensures Assembled(answers) == text[start..EndOf(start, answers)]
    ensures answers[|answers| - 1].remaining == None <==> EndOf(start, answers) == end
    ensures start < end ==> |answers| <= end - start
  {
    ConversationIsPieces(text, start, end, budget, answers);
    PiecesAreText(text, start, end, answers);
    PiecesAssemble(text, start, end, answers);
  }

  // ---------------------------------------------------------------- any range at all

  /**
    Exactly which ranges are refused: those that do not lie in the text, those that begin
    inside a character, and those that end inside one within the budget.
   */
  lemma RefusedExactly(text: seq<byte>, start: nat, end: nat, budget: nat)
    requires Valid(text) && 4 <= budget
    ensures Chunk(text, start, end, budget).Err? <==>
      end > |text| || start > end ||
      (start < end && (!Boundary(text, start) || (!Boundary(text, end) && end <= start + budget)))
  {
    if start < end <= |text| && Boundary(text, start) {
      ScanOfWindow(text, start, Min(start + budget, end));
    }
  }

  /** Whatever range is asked for, no answer splits a character. */
  lemma NoCharacterIsSplit(text: seq<byte>, start: nat, end: nat, budget: nat)
    requires Valid(text) && 4 <= budget && Chunk(text, start, end, budget).Ok?
    ensures
      var c := Chunk(text, start, end, budget).value;
      && Valid(c.text) && |c.text| <= budget && c.text == text[start..c.end] && c.end <= end
      && (start < end ==> start < c.end && Boundary(text, start) && Boundary(text, c.end))
  {
    if start < end {
      ScanOfWindow(text, start, Min(start + budget, end));
      SliceIsValid(text, start, LastBoundary(text, Min(start + budget, end)));
    } else {
      assert text[start..start] == [];
    }
  }
}
