/**
  Event queries over the live store and the set-aside stores: a loop of bounded pages with a
  lexicographic cursor, proved equal to the one unbounded query it replaces.
 */
module Query {
  import opened Common

  const MIN_PAGE_ROWS: nat := 64

  /** What decoding a stored row gives. */
  datatype Decoded = Known(event: nat) | UnknownType | Undecodable

  /** Timestamps and ids are compared as text; integers stand for their places in that order. */
  datatype StoredRow = StoredRow(ts: int, mono: int, id: int, content: Decoded)

  /** A row of the union, with the position of the store it came from. */
  datatype Ranked = Ranked(row: StoredRow, rank: nat)

  datatype Cursor = Cursor(ts: int, mono: int, id: int, rank: nat)

  datatype QueryResult = QueryResult(events: seq<nat>, skipped: nat)

  datatype QueryError = UndecodableRow | NumericOverflow(field: string)

  type Filter = StoredRow -> bool

  // ---------------------------------------------------------------- the SQL of one page

  function CursorOf(r: Ranked): Cursor {
    Cursor(r.row.ts, r.row.mono, r.row.id, r.rank)
  }

  /** The four-way condition of the page query. */
  predicate After(c: Cursor, r: Ranked) {
    || r.row.ts > c.ts
    || (r.row.ts == c.ts && r.row.mono > c.mono)
    || (r.row.ts == c.ts && r.row.mono == c.mono && r.row.id > c.id)
    || (r.row.ts == c.ts && r.row.mono == c.mono && r.row.id == c.id && r.rank > c.rank)
  }

  function Union(sources: seq<seq<StoredRow>>): seq<Ranked> {
    if sources == [] then []
    else Union(sources[..|sources| - 1]) + Rank(sources[|sources| - 1], |sources| - 1)
  }

  function Rank(source: seq<StoredRow>, rank: nat): seq<Ranked> {
    if source == [] then [] else [Ranked(source[0], rank)] + Rank(source[1..], rank)
  }

  predicate Selected(r: Ranked, admits: Filter, cursor: Option<Cursor>) {
    admits(r.row) && (cursor.Some? ==> After(cursor.value, r))
  }

  function Where(rows: seq<Ranked>, admits: Filter, cursor: Option<Cursor>): seq<Ranked> {
    if rows == [] then []
    else if Selected(rows[0], admits, cursor) then [rows[0]] + Where(rows[1..], admits, cursor)
    else Where(rows[1..], admits, cursor)
  }

  /** ORDER BY ts, mono_ns, id, source_rank. */
  predicate Before(a: Ranked, b: Ranked) {
    if a.row.ts != b.row.ts then a.row.ts < b.row.ts
    else if a.row.mono != b.row.mono then a.row.mono < b.row.mono
    else if a.row.id != b.row.id then a.row.id < b.row.id
    else a.rank < b.rank
  }

  function Insert(r: Ranked, s: seq<Ranked>): seq<Ranked> {
    if s == [] || Before(r, s[0]) then [r] + s else [s[0]] + Insert(r, s[1..])
  }

  function OrderBy(rows: seq<Ranked>): seq<Ranked> {
    if rows == [] then [] else Insert(rows[0], OrderBy(rows[1..]))
  }

  function Max(a: int, b: int): int {
    if a < b then b else a
  }

  function Take<T>(s: seq<T>, n: Option<nat>): seq<T> {
    if n.Some? && n.value < |s| then s[..n.value] else s
  }

  /** SELECT … FROM (union) WHERE … ORDER BY … LIMIT n. */
  function PageRows(sources: seq<seq<StoredRow>>, admits: Filter, cursor: Option<Cursor>, limit: Option<nat>): seq<Ranked> {
    Take(OrderBy(Where(Union(sources), admits, cursor)), limit)
  }

  // ---------------------------------------------------------------- the simple query

  /** Every admitted row of every store, in order. */
  function AllRows(sources: seq<seq<StoredRow>>, admits: Filter): seq<Ranked> {
    OrderBy(Where(Union(sources), admits, None))
  }

  predicate Full(limit: Option<nat>, acc: QueryResult) {
    limit.Some? && |acc.events| >= limit.value
  }

  /** One ordered pass that stops as soon as enough known events have been collected. */
  function Collect(rows: seq<Ranked>, limit: Option<nat>, acc: QueryResult): Result<QueryResult, QueryError>
    decreases |rows|
  {
    if Full(limit, acc) || rows == [] then Ok(acc)
    else
      var next :- Absorb(acc, rows[0]);
      Collect(rows[1..], limit, next)
  }

  function Absorb(acc: QueryResult, r: Ranked): Result<QueryResult, QueryError> {
    match r.row.content
    case Known(event) => Ok(acc.(events := acc.events + [event]))
    case UnknownType =>
      if acc.skipped == MAX_U64 then Err(NumericOverflow("skipped_unknown_types"))
      else Ok(acc.(skipped := acc.skipped + 1))
    case Undecodable => Err(UndecodableRow)
  }

  function KnownEvents(rows: seq<Ranked>): seq<nat> {
    if rows == [] then []
    else if rows[0].row.content.Known? then [rows[0].row.content.event] + KnownEvents(rows[1..])
    else KnownEvents(rows[1..])
  }

  function UnknownCount(rows: seq<Ranked>): nat {
    if rows == [] then 0 else (if rows[0].row.content.UnknownType? then 1 else 0) + UnknownCount(rows[1..])
  }

  /** How many rows a query consumes: up to and including the row that fills the limit. */
  function Consumed(rows: seq<Ranked>, limit: Option<nat>): (n: nat)
    ensures n <= |rows|
  {
    if limit == Some(0) || rows == [] then 0
    else 1 + Consumed(rows[1..], if limit.Some? && rows[0].row.content.Known? then Some(limit.value - 1) else limit)
  }

  predicate Readable(rows: seq<Ranked>) {
    forall r :: r in rows ==> !r.row.content.Undecodable?
  }

  function Left(limit: Option<nat>, acc: QueryResult): Option<nat>
    requires limit.Some? ==> |acc.events| <= limit.value
  {
    if limit.Some? then Some(limit.value - |acc.events|) else None
  }

  /** What collecting from `used` makes of `acc`, and when it can. */
  ghost predicate Summarizes(used: seq<Ranked>, acc: QueryResult, r: Result<QueryResult, QueryError>) {
    && (r.Ok? <==> Readable(used) && acc.skipped + UnknownCount(used) <= MAX_U64)
    && (r.Ok? ==> r.value == QueryResult(acc.events + KnownEvents(used), acc.skipped + UnknownCount(used)))
  }

  lemma SummaryStep(first: Ranked, used: seq<Ranked>, acc: QueryResult, r: Result<QueryResult, QueryError>)
    requires acc.skipped <= MAX_U64
    requires match Absorb(acc, first)
             case Err(_) => r.Err?
             case Ok(next) => Summarizes(used, next, r)
    ensures Summarizes([first] + used, acc, r)
  {
    var whole := [first] + used;
    assert whole[1..] == used;
    assert forall r :: r in whole <==> r == first || r in used;
    if first.row.content.Known? {
      assert acc.events + KnownEvents(whole) == (acc.events + [first.row.content.event]) + KnownEvents(used);
    }
  }

  /**
    What the query returns, in its own terms: the known events among the consumed rows, which
    are the first `limit` known rows in order, and the number of unknown rows passed over
    before the stopping point. It fails exactly when an undecodable row, or an uncountable
    number of unknown ones, comes before that point.
   */
  lemma {:induction false} CollectMeaning(rows: seq<Ranked>, limit: Option<nat>, acc: QueryResult)
    requires limit.Some? ==> |acc.events| <= limit.value
    requires acc.skipped <= MAX_U64
    ensures
      var used := rows[..Consumed(rows, Left(limit, acc))];
      Summarizes(used, acc, Collect(rows, limit, acc)) && KnownEvents(used) == Take(KnownEvents(rows), Left(limit, acc))
    decreases |rows|
  {
    var left := Left(limit, acc);
    KnownConsumed(rows, left);
    var used := rows[..Consumed(rows, left)];
    if Full(limit, acc) || rows == [] {
      assert used == [];
      assert acc.events + [] == acc.events;
    } else {
      var rest := rows[1..];
      if Absorb(acc, rows[0]).Ok? {
        var next := Absorb(acc, rows[0]).value;
        CollectMeaning(rest, limit, next);
        assert used == [rows[0]] + rest[..Consumed(rest, Left(limit, next))];
        SummaryStep(rows[0], rest[..Consumed(rest, Left(limit, next))], acc, Collect(rows, limit, acc));
      } else {
        assert used == [rows[0]] + used[1..];
        SummaryStep(rows[0], used[1..], acc, Collect(rows, limit, acc));
      }
    }
  }

  lemma {:induction false} KnownConsumed(rows: seq<Ranked>, left: Option<nat>)
    ensures KnownEvents(rows[..Consumed(rows, left)]) == Take(KnownEvents(rows), left)
    decreases |rows|
  {
    if left != Some(0) && rows != [] {
      var rest := rows[1..];
      var left' := if left.Some? && rows[0].row.content.Known? then Some(left.value - 1) else left;
      KnownConsumed(rest, left');
      assert rows[..Consumed(rows, left)][1..] == rest[..Consumed(rest, left')];
    }
  }

  // ---------------------------------------------------------------- order and cursors

  ghost predicate Ordered(s: seq<Ranked>) {
    forall i, j :: 0 <= i < j < |s| ==> Before(s[i], s[j])
  }

  /** Ids are primary keys: no two rows of the union share their whole sort key. */
  ghost predicate Distinct(rows: seq<Ranked>) {
    forall i, j :: 0 <= i < j < |rows| ==> CursorOf(rows[i]) != CursorOf(rows[j])
  }

  /** The four-way condition is the strict lexicographic order on the sort key. */
  lemma CursorIsLexicographic(a: Ranked, b: Ranked)
    ensures After(CursorOf(a), b) <==> Before(a, b)
    ensures !Before(a, a)
    ensures CursorOf(a) != CursorOf(b) ==> Before(a, b) || Before(b, a)
    ensures Before(a, b) ==> !Before(b, a)
  {
  }

  lemma {:induction false} InsertOrdered(r: Ranked, s: seq<Ranked>)
    requires Ordered(s) && forall x :: x in s ==> CursorOf(x) != CursorOf(r)
    ensures Ordered(Insert(r, s))
    ensures forall x :: x in Insert(r, s) <==> x == r || x in s
    decreases |s|
  {
    if s != [] && !Before(r, s[0]) {
      assert s[0] in s;
      InsertOrdered(r, s[1..]);
      var tail := Insert(r, s[1..]);
      assert s == [s[0]] + s[1..];
      forall j | 0 <= j < |tail|
        ensures Before(s[0], tail[j])
      {
        assert tail[j] in tail;
      }
    }
  }

  lemma {:induction false} OrderByOrdered(rows: seq<Ranked>)
    requires Distinct(rows)
    ensures Ordered(OrderBy(rows))
    ensures forall x :: x in OrderBy(rows) <==> x in rows
    decreases |rows|
  {
    if rows != [] {
      assert rows == [rows[0]] + rows[1..];
      forall x | x in rows[1..]
        ensures CursorOf(x) != CursorOf(rows[0])
      {
        var i :| 0 <= i < |rows[1..]| && rows[1..][i] == x;
        assert rows[i + 1] == x;
      }
      OrderByOrdered(rows[1..]);
      InsertOrdered(rows[0], OrderBy(rows[1..]));
    }
  }

  lemma {:induction false} WhereDistinct(rows: seq<Ranked>, admits: Filter, cursor: Option<Cursor>)
    requires Distinct(rows)
    ensures Distinct(Where(rows, admits, cursor))
    ensures forall x :: x in Where(rows, admits, cursor) <==> x in rows && Selected(x, admits, cursor)
    decreases |rows|
  {
    if rows != [] {
      assert rows == [rows[0]] + rows[1..];
      WhereDistinct(rows[1..], admits, cursor);
      var tail := Where(rows[1..], admits, cursor);
      forall j | 0 <= j < |tail|
        ensures CursorOf(rows[0]) != CursorOf(tail[j])
      {
        assert tail[j] in rows[1..];
        var i :| 0 <= i < |rows[1..]| && rows[1..][i] == tail[j];
        assert rows[i + 1] == tail[j];
      }
    }
  }

  /** The rows after a cursor. */
  function Beyond(s: seq<Ranked>, c: Cursor): seq<Ranked> {
    if s == [] then []
    else if After(c, s[0]) then [s[0]] + Beyond(s[1..], c)
    else Beyond(s[1..], c)
  }

  /** Once one row of an ordered list is after the cursor, so are all that follow it. */
  lemma {:induction false} BeyondOrdered(s: seq<Ranked>, c: Cursor)
    requires Ordered(s)
    requires s != [] && After(c, s[0])
    ensures Beyond(s, c) == s
    decreases |s|
  {
    if |s| > 1 {
      assert Before(s[0], s[1]);
      BeyondOrdered(s[1..], c);
    }
  }

  lemma {:induction false} BeyondInsert(r: Ranked, s: seq<Ranked>, c: Cursor)
    requires Ordered(s)
    ensures Beyond(Insert(r, s), c) == if After(c, r) then Insert(r, Beyond(s, c)) else Beyond(s, c)
    decreases |s|
  {
    if s == [] || Before(r, s[0]) {
      assert ([r] + s)[1..] == s;
      if s != [] && After(c, r) {
        BeyondOrdered(s, c);
      }
    } else {
      assert ([s[0]] + Insert(r, s[1..]))[1..] == Insert(r, s[1..]);
      BeyondInsert(r, s[1..], c);
      if After(c, s[0]) {
        BeyondOrdered(s, c);
        assert ([s[0]] + Beyond(s[1..], c))[1..] == Beyond(s[1..], c);
      }
    }
  }

  /** Filtering by the cursor before sorting, as SQL does, is cutting the sorted list. */
  lemma {:induction false} CursorCommutes(rows: seq<Ranked>, admits: Filter, c: Cursor)
    requires Distinct(rows)
    ensures OrderBy(Where(rows, admits, Some(c))) == Beyond(OrderBy(Where(rows, admits, None)), c)
    decreases |rows|
  {
    if rows != [] {
      assert Distinct(rows[1..]);
      CursorCommutes(rows[1..], admits, c);
      WhereDistinct(rows[1..], admits, None);
      OrderByOrdered(Where(rows[1..], admits, None));
      if admits(rows[0].row) {
        var tail := Where(rows[1..], admits, None);
        assert ([rows[0]] + tail)[1..] == tail;
        BeyondInsert(rows[0], OrderBy(tail), c);
        var tail' := Where(rows[1..], admits, Some(c));
        assert ([rows[0]] + tail')[1..] == tail';
      }
    }
  }

  lemma {:induction false} BeyondIsSuffix(s: seq<Ranked>, i: nat)
    requires Ordered(s) && i < |s|
    ensures Beyond(s, CursorOf(s[i])) == s[i + 1..]
    decreases i
  {
    var c := CursorOf(s[i]);
    CursorIsLexicographic(s[i], s[0]);
    if i == 0 {
      if |s| > 1 {
        assert Before(s[0], s[1]);
        BeyondOrdered(s[1..], c);
      }
    } else {
      assert Before(s[0], s[i]);
      BeyondIsSuffix(s[1..], i - 1);
      assert s[1..][i - 1 + 1..] == s[i + 1..];
    }
  }

  /** The rows of a page: the next ones of the whole ordered result, nothing skipped or repeated. */
  lemma PageIsNextRows(sources: seq<seq<StoredRow>>, admits: Filter, done: nat, cursor: Option<Cursor>, limit: Option<nat>)
    requires Distinct(Union(sources)) && done <= |AllRows(sources, admits)|
    requires cursor == if done == 0 then None else Some(CursorOf(AllRows(sources, admits)[done - 1]))
    ensures PageRows(sources, admits, cursor, limit) == Take(AllRows(sources, admits)[done..], limit)
  {
    var all := AllRows(sources, admits);
    if done == 0 {
      assert all[0..] == all;
    } else {
      WhereDistinct(Union(sources), admits, None);
      OrderByOrdered(Where(Union(sources), admits, None));
      CursorCommutes(Union(sources), admits, cursor.value);
      BeyondIsSuffix(all, done - 1);
    }
  }

  // ---------------------------------------------------------------- the paging loop

  /** Absorbs the rows of one page, stopping where the limit is reached. `rows` is all that is left to read. */
  method AbsorbPage(page: seq<Ranked>, limit: Option<nat>, acc: QueryResult, start: Option<Cursor>, ghost rows: seq<Ranked>)
    returns (r: Result<QueryResult, QueryError>, cursor: Option<Cursor>, pageCount: nat)
    requires page <= rows && !Full(limit, acc)
    ensures pageCount <= |page|
    ensures cursor == if pageCount == 0 then start else Some(CursorOf(page[pageCount - 1]))
    ensures Collect(rows, limit, acc) == if r.Ok? then Collect(rows[pageCount..], limit, r.value) else r
    ensures r.Ok? && pageCount < |page| ==> Full(limit, r.value)
    ensures page != [] ==> r.Err? || 0 < pageCount
  {
    var result := acc;
    cursor := start;
    pageCount := 0;
    assert rows[0..] == rows;
    while pageCount < |page|
      invariant pageCount <= |page|
      invariant cursor == if pageCount == 0 then start else Some(CursorOf(page[pageCount - 1]))
      invariant Collect(rows, limit, acc) == Collect(rows[pageCount..], limit, result)
      invariant !Full(limit, result)
    {
      var row := page[pageCount];
      assert rows[pageCount..][0] == row && rows[pageCount..][1..] == rows[pageCount + 1..];
      pageCount := pageCount + 1;
      cursor := Some(CursorOf(row));
      var absorbed := Absorb(result, row);
      if absorbed.Err? {
        return Err(absorbed.error), cursor, pageCount;
      }
      result := absorbed.value;
      if Full(limit, result) {
        return Ok(result), cursor, pageCount;
      }
    }
    return Ok(result), cursor, pageCount;
  }

  lemma TakeIsPrefix(all: seq<Ranked>, done: nat, limit: Option<nat>)
    requires done <= |all|
    ensures Take(all[done..], limit) <= all[done..]
    ensures limit == None || |Take(all[done..], limit)| < limit.value ==> |Take(all[done..], limit)| == |all| - done
  {
  }

  /** Where the loop stands after `count` rows of a page that began at `done`. */
  lemma PageAdvances(all: seq<Ranked>, done: nat, page: seq<Ranked>, count: nat)
    requires done <= |all| && page <= all[done..] && count <= |page|
    ensures all[done..][count..] == all[done + count..]
    ensures count > 0 ==> page[count - 1] == all[done + count - 1]
  {
  }

  /**
    Collects events page by page. On a store that does not change during the query the
    answer is that of one ordered pass over all admitted rows.
   */
  method Run(sources: seq<seq<StoredRow>>, admits: Filter, limit: Option<nat>) returns (r: Result<QueryResult, QueryError>)
    requires Distinct(Union(sources))
    ensures r == if limit.Some? && limit.value > MAX_I64 then Err(NumericOverflow("limit"))
                 else Collect(AllRows(sources, admits), limit, QueryResult([], 0))
  {
    var result := QueryResult([], 0);
    var cursor: Option<Cursor> := None;
    ghost var all := AllRows(sources, admits);
    ghost var done := 0;
    assert all[0..] == all;
    while true
      invariant done <= |all|
      invariant cursor == if done == 0 then None else Some(CursorOf(all[done - 1]))
      invariant limit.Some? && limit.value > MAX_I64 ==> result == QueryResult([], 0)
      invariant Collect(all, limit, QueryResult([], 0)) == Collect(all[done..], limit, result)
      decreases |all| - done
    {
      if Full(limit, result) {
        break;
      }
      var pageRows := if limit.Some? then Some(Max(limit.value - |result.events|, MIN_PAGE_ROWS)) else None;
      if pageRows.Some? && pageRows.value > MAX_I64 {
        return Err(NumericOverflow("limit"));
      }
      var page := PageRows(sources, admits, cursor, pageRows);
      PageIsNextRows(sources, admits, done, cursor, pageRows);
      TakeIsPrefix(all, done, pageRows);
      var absorbed, last, pageCount := AbsorbPage(page, limit, result, cursor, all[done..]);
      if absorbed.Err? {
        return absorbed;
      }
      result := absorbed.value;
      cursor := last;
      PageAdvances(all, done, page, pageCount);
      done := done + pageCount;
      if pageRows == None || pageCount < pageRows.value {
        break;
      }
    }
    return Ok(result);
  }
}
