/** The bounded response: the largest prefix of a page whose encoding fits the wire budget. */
module ContextRead {
  import opened Common
  import opened AppendStore
  import opened ContextPages

  const MAX_PAGE_BYTES: nat := 512 * 1024

  type Encoder = Page -> seq<byte>

  predicate Fits(encode: Encoder, page: Page) {
    |encode(page)| <= MAX_PAGE_BYTES
  }

  /** Proper prefixes never encode shorter when they hold more rows. */
  ghost predicate GrowsWithRows(encode: Encoder, page: Page) {
    forall i, j :: 1 <= i <= j < |page.observations| ==> |encode(Prefix(page, i))| <= |encode(Prefix(page, j))|
  }

  /**
    Fits a page into the wire budget without reading the store again. `kept` is the number
    of rows in the returned encoding.
   */
  method FitPage(page: Page, encode: Encoder) returns (best: Option<seq<byte>>, ghost kept: nat)
    ensures Fits(encode, page) ==> best == Some(encode(page)) && kept == |page.observations|
    ensures best.Some? ==> |best.value| <= MAX_PAGE_BYTES
    ensures best.Some? && !Fits(encode, page) ==>
      1 <= kept < |page.observations| && best.value == encode(Prefix(page, kept))
    ensures best.Some? && !Fits(encode, page) && GrowsWithRows(encode, page) ==>
      forall j :: kept < j <= |page.observations| ==> !Fits(encode, Prefix(page, j))
    ensures best == None ==> !Fits(encode, page)
    ensures best == None && |page.observations| > 0 ==> !Fits(encode, Prefix(page, 1))
    ensures best.Some? && |page.observations| > 0 && GrowsWithRows(encode, page) && !Fits(encode, page) ==>
      Fits(encode, Prefix(page, 1))
  {
    var full := encode(page);
    if |full| <= MAX_PAGE_BYTES {
      return Some(full), |page.observations|;
    }
    var low := 1;
    var high := |page.observations|;
    best := None;
    kept := 0;
    while low < high
      invariant 1 <= low && (low <= high || |page.observations| == 0)
      invariant high <= |page.observations|
      invariant 0 < high < |page.observations| ==> !Fits(encode, Prefix(page, high))
      invariant best == None ==> low == 1
      invariant best.Some? ==> 1 <= kept == low - 1 < |page.observations|
      invariant best.Some? ==> best.value == encode(Prefix(page, kept)) && |best.value| <= MAX_PAGE_BYTES
    {
      var count := low + (high - low) / 2;
      var prefix := new PageBuffer(page);
      var error := prefix.RetainPrefix(count);
      assert error == None;
      var bytes := encode(prefix.Contents());
      if |bytes| <= MAX_PAGE_BYTES {
        best := Some(bytes);
        kept := count;
        low := count + 1;
      } else {
        high := count;
      }
    }
    if best.Some? && GrowsWithRows(encode, page) {
      forall j | kept < j <= |page.observations|
        ensures !Fits(encode, Prefix(page, j))
      {
        if j < |page.observations| {
          assert |encode(Prefix(page, high))| <= |encode(Prefix(page, j))|;
        }
      }
      assert |encode(Prefix(page, 1))| <= |encode(Prefix(page, kept))|;
    }
  }

  /** A stored time that cannot be read makes the store corrupt; an answer too long to send leaves it unavailable. */
  datatype Reply = PageBytes(bytes: seq<byte>) | GapBytes(bytes: seq<byte>) | WrongSchema(version: int)
                 | StoreCorrupt | Rejected | Unavailable

  /** What a client is told: either the whole answer, or the answer to the same request with a smaller limit. */
  ghost predicate HonestReply(
    w: World, readerVersion: int, request: Request, encode: Encoder, encodeGap: Gap -> seq<byte>, reply: Reply)
    requires 1 <= request.limit
  {
    match reply
    case PageBytes(bytes) =>
      |bytes| <= MAX_PAGE_BYTES &&
      exists limit, page ::
        && 1 <= limit <= request.limit
        && Answer(w, readerVersion, request.(limit := limit)) == Ok(PageOf(page))
        && bytes == encode(page)
    case GapBytes(bytes) =>
      |bytes| <= MAX_PAGE_BYTES &&
      exists gap :: Answer(w, readerVersion, request) == Ok(GapOf(gap)) && bytes == encodeGap(gap)
    case WrongSchema(version) => Answer(w, readerVersion, request) == Ok(Incompatible(version))
    case StoreCorrupt => Answer(w, readerVersion, request).Err? && Answer(w, readerVersion, request).error.InvalidTimestamp?
    case Rejected => false
    case Unavailable =>
      match Answer(w, readerVersion, request)
      case Err(_) => false
      case Ok(PageOf(page)) =>
        !Fits(encode, page) && (|page.observations| > 0 ==> !Fits(encode, Prefix(page, 1)))
      case Ok(GapOf(gap)) => |encodeGap(gap)| > MAX_PAGE_BYTES
      case Ok(Incompatible(_)) => false
  }

  /** Reads once, then answers with the page or with the largest prefix that fits. */
  method RespondPage(w: World, readerVersion: int, request: Request, encode: Encoder, encodeGap: Gap -> seq<byte>)
    returns (reply: Reply)
    ensures IsValidRequest(request) ==> HonestReply(w, readerVersion, request, encode, encodeGap, reply)
    ensures !IsValidRequest(request) ==> reply == Rejected
  {
    var result := ReadContextPageAt(w, readerVersion, request);
    match result {
      case Err(InvalidRequest(_)) =>
        if IsValidRequest(request) {
          AnswerIsNotInvalid(w, readerVersion, request);
        }
        return Rejected;
      case Err(InvalidTimestamp(_)) =>
        return StoreCorrupt;
      case Ok(Incompatible(version)) =>
        return WrongSchema(version);
      case Ok(GapOf(gap)) =>
        var bytes := encodeGap(gap);
        if |bytes| > MAX_PAGE_BYTES {
          return Unavailable;
        }
        return GapBytes(bytes);
      case Ok(PageOf(page)) =>
        var best, kept := FitPage(page, encode);
        if best == None {
          return Unavailable;
        }
        if Fits(encode, page) {
          assert request.(limit := request.limit) == request;
          return PageBytes(best.value);
        }
        AnswerPrefix(w, readerVersion, request, page, kept);
        assert Answer(w, readerVersion, request.(limit := kept)) == Ok(PageOf(Prefix(page, kept)));
        return PageBytes(best.value);
    }
  }

  lemma {:induction false} DiscontinuityIsNotInvalid(w: World, cs: seq<Cursor>)
    ensures FirstDiscontinuity(w, cs).Err? ==> FirstDiscontinuity(w, cs).error.InvalidTimestamp?
  {
    if cs != [] {
      DiscontinuityIsNotInvalid(w, cs[1..]);
    }
  }

  lemma AnswerIsNotInvalid(w: World, readerVersion: int, request: Request)
    requires 1 <= request.limit
    ensures Answer(w, readerVersion, request).Err? ==> Answer(w, readerVersion, request).error.InvalidTimestamp?
  {
    DiscontinuityIsNotInvalid(w, Provided(request));
  }

  /** Every prefix of a page answer is itself the answer to the request with that limit. */
  lemma AnswerPrefix(w: World, readerVersion: int, request: Request, page: Page, k: nat)
    requires IsValidRequest(request)
    requires Answer(w, readerVersion, request) == Ok(PageOf(page))
    requires 1 <= k <= |page.observations|
    ensures k <= request.limit
    ensures Answer(w, readerVersion, request.(limit := k)) == Ok(PageOf(Prefix(page, k)))
  {
    var current := Position(w.rows, w.identity, w.head, w.head).value;
    var start := StartOf(w, request);
    var upper := if request.upper.Some? then request.upper.value else current;
    DiscontinuityDetected(w, Provided(request));
    assert start.sequence <= upper.sequence;
    RangeIsSoundAndAdvances(w.rows, start, upper, request.limit, w.cutoff);
    PrefixIsSmallerRead(w.rows, start, upper, request.limit, w.cutoff, page, k);
    assert Provided(request.(limit := k)) == Provided(request);
  }

  /** A request that passes the continuity check holds only cursors at or below the current head. */
  lemma {:induction false} DiscontinuityDetected(w: World, cs: seq<Cursor>)
    requires FirstDiscontinuity(w, cs) == Ok(None)
    ensures forall i :: 0 <= i < |cs| ==> cs[i].identity == w.identity && cs[i].observedHead <= w.head
  {
    if cs != [] {
      DiscontinuityDetected(w, cs[1..]);
      assert forall i :: 0 < i < |cs| ==> cs[i] == cs[1..][i - 1];
    }
  }
}
