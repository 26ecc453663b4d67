/**
  The append history of the active store, reduced to what a reader can see in one
  snapshot, and the ways that history may change between two snapshots.
 */
module AppendStore {
  import opened Common

  const SCHEMA_VERSION: int := 8
  const MAX_TEXT_BYTES: nat := 1024

  /**
    An event time as stored. `instant` orders times, `offset` is the zone the writer
    used, `spelling` stands for the freedom RFC 3339 leaves in writing the same time.
   */
  datatype Stamp = Malformed(raw: string) | Rfc3339(instant: int, offset: int, spelling: nat)

  function Canonical(t: Stamp): Stamp {
    if t.Rfc3339? then t.(spelling := 0) else t
  }

  datatype Surface = Surface(
    source: Option<seq<byte>>, eventType: Option<seq<byte>>, bundleId: Option<seq<byte>>,
    appName: Option<seq<byte>>, windowTitle: Option<seq<byte>>, pid: Option<int>, windowId: Option<int>)

  datatype Row = Row(id: string, ts: Stamp, surface: Surface)

  /** One read snapshot: the events table, its AUTOINCREMENT head, and the retention cutoff in force. */
  datatype World = World(version: int, identity: string, head: nat, rows: map<nat, Row>, cutoff: int)

  predicate IsEventId(id: string) {
    |id| == 30 && "evt_" <= id
  }

  predicate IsHexDigit(c: char) {
    '0' <= c <= '9' || 'a' <= c <= 'f' || 'A' <= c <= 'F'
  }

  predicate IsIdentity(identity: string) {
    |identity| == 32 && forall i :: 0 <= i < |identity| ==> IsHexDigit(identity[i])
  }

  predicate IsRow(row: Row) {
    IsEventId(row.id) && row.ts.Rfc3339?
  }

  /** What the writer keeps true of every store it owns. */
  ghost predicate WriterContract(w: World) {
    && w.version == SCHEMA_VERSION
    && IsIdentity(w.identity)
    && w.head <= MAX_I64
    && (forall s :: s in w.rows ==> 1 <= s <= w.head && IsRow(w.rows[s]))
  }

  // ---------------------------------------------------------------- how a store changes

  /** AUTOINCREMENT may skip numbers but never reuses one. */
  ghost predicate Appended(w: World, w': World, s: nat, row: Row) {
    && w.head < s <= MAX_I64
    && IsRow(row)
    && w' == w.(head := s, rows := w.rows[s := row])
  }

  /** Retention removes any of the rows that are older than the cutoff. */
  ghost predicate Purged(w: World, w': World, gone: set<nat>) {
    && (forall s :: s in gone && s in w.rows ==> w.rows[s].ts.Rfc3339? && w.rows[s].ts.instant < w.cutoff)
    && w' == w.(rows := w.rows - gone)
  }

  ghost predicate ClockAdvanced(w: World, w': World) {
    && w.cutoff <= w'.cutoff
    && w' == w.(cutoff := w'.cutoff)
  }

  ghost predicate StoreStep(w: World, w': World) {
    || (exists s, row :: Appended(w, w', s, row))
    || (exists gone :: Purged(w, w', gone))
    || ClockAdvanced(w, w')
  }

  ghost predicate StoreRun(ws: seq<World>) {
    |ws| > 0 && forall i :: 0 <= i < |ws| - 1 ==> StoreStep(ws[i], ws[i + 1])
  }

  /** The net effect of any number of store steps on what an earlier reader saw. */
  ghost predicate Later(w: World, w': World) {
    && w'.version == w.version
    && w'.identity == w.identity
    && w.head <= w'.head
    && w.cutoff <= w'.cutoff
    && (forall s :: s in w'.rows && s <= w.head ==> s in w.rows && w'.rows[s] == w.rows[s])
    && (forall s :: s in w.rows && s !in w'.rows ==> w.rows[s].ts.Rfc3339? && w.rows[s].ts.instant < w'.cutoff)
  }

  lemma StepIsLater(w: World, w': World)
    requires WriterContract(w) && StoreStep(w, w')
    ensures WriterContract(w') && Later(w, w')
  {
    if s, row :| Appended(w, w', s, row) {
    } else if gone :| Purged(w, w', gone) {
      forall s | s in w.rows && s !in w'.rows
        ensures w.rows[s].ts.Rfc3339? && w.rows[s].ts.instant < w'.cutoff
      {
        assert s in gone;
      }
    }
  }

  lemma LaterTransitive(a: World, b: World, c: World)
    requires WriterContract(a) && WriterContract(b) && Later(a, b) && Later(b, c)
    ensures Later(a, c)
  {
    forall s | s in a.rows && s !in c.rows
      ensures a.rows[s].ts.Rfc3339? && a.rows[s].ts.instant < c.cutoff
    {
      if s in b.rows {
        assert b.rows[s] == a.rows[s];
      }
    }
  }

  /** However appends, purges and clock advances interleave, the end is `Later` than the beginning. */
  lemma {:induction false} RunIsLater(ws: seq<World>)
    requires StoreRun(ws) && WriterContract(ws[0])
    ensures WriterContract(ws[|ws| - 1]) && Later(ws[0], ws[|ws| - 1])
    decreases |ws|
  {
    if |ws| > 1 {
      StepIsLater(ws[0], ws[1]);
      var rest := ws[1..];
      forall i | 0 <= i < |rest| - 1
        ensures StoreStep(rest[i], rest[i + 1])
      {
        assert StoreStep(ws[i + 1], ws[i + 2]);
      }
      RunIsLater(rest);
      assert rest[|rest| - 1] == ws[|ws| - 1];
      LaterTransitive(ws[0], ws[1], ws[|ws| - 1]);
    }
  }
}
