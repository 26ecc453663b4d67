/**
  The stored pause: commands write it at any moment, the recorder reads it, judges it by the clock
  and clears it once it is over, in separate steps.
 */
module PauseCells {
  import opened Common

  const PAUSE_INDEFINITE: string := "infinity"

  /** The time a stored text names, if it names one (RFC 3339). */
  type Deadlines = string -> Option<int>

  /** What the writer accepts. */
  predicate Readable(value: Option<string>, deadlines: Deadlines) {
    value.None? || value.value == PAUSE_INDEFINITE || deadlines(value.value).Some?
  }

  /** A pause that has not run out. */
  predicate Live(value: Option<string>, clock: int, deadlines: Deadlines) {
    value.Some? && (value.value == PAUSE_INDEFINITE ||
                    (deadlines(value.value).Some? && clock < deadlines(value.value).value))
  }

  // ---------------------------------------------------------------- the stored row

  class PauseRow {
    var pausedUntil: Option<string>

    constructor (stored: Option<string>)
      ensures pausedUntil == stored
    {
      pausedUntil := stored;
    }

    method SetPausedUntil(value: Option<string>, deadlines: Deadlines) returns (ok: bool)
      modifies this
      ensures ok == Readable(value, deadlines)
      ensures pausedUntil == if ok then value else old(pausedUntil)
    {
      if value.Some? && value.value != PAUSE_INDEFINITE && deadlines(value.value).None? {
        return false;
      }
      pausedUntil := value;
      return true;
    }

    method ClearExpiredPause(expired: string) returns (cleared: bool)
      modifies this
      ensures cleared == (old(pausedUntil) == Some(expired))
      ensures pausedUntil == if cleared then None else old(pausedUntil)
    {
      cleared := pausedUntil == Some(expired);
      if cleared {
        pausedUntil := None;
      }
    }

    /** Everything that commands do between the recorder's read and its next step. */
    method Interfere(writes: seq<Option<string>>, deadlines: Deadlines)
      modifies this
      ensures pausedUntil == AfterWrites(old(pausedUntil), writes, deadlines)
    {
      var i := 0;
      assert writes[0..] == writes;
      while i < |writes|
        invariant i <= |writes|
        invariant AfterWrites(pausedUntil, writes[i..], deadlines) == AfterWrites(old(pausedUntil), writes, deadlines)
      {
        assert writes[i..][0] == writes[i] && writes[i..][1..] == writes[i + 1..];
        var _ := SetPausedUntil(writes[i], deadlines);
        i := i + 1;
      }
    }

    /** Judges what was read; an expired pause is cleared unless a command has replaced it meanwhile. */
    method NormalizePauseRequest(read: Option<string>, clock: int, writes: seq<Option<string>>, works: bool, deadlines: Deadlines)
      returns (requested: Option<bool>)
      modifies this
      ensures
        var atClear := AfterWrites(old(pausedUntil), writes, deadlines);
        && requested == Answer(PauseRead(read, clock, if works then Some(atClear) else None, deadlines))
        && pausedUntil == if works && IsOver(read, clock, deadlines) && atClear == read then None else atClear
    {
      Interfere(writes, deadlines);
      if read.None? {
        return Some(false);
      }
      if read.value == PAUSE_INDEFINITE {
        return Some(true);
      }
      var deadline := deadlines(read.value);
      if deadline.None? {
        return None;
      }
      if clock < deadline.value {
        return Some(true);
      }
      if !works {
        return None;
      }
      var cleared := ClearExpiredPause(read.value);
      return Some(!cleared);
    }
  }

  function AfterWrites(cell: Option<string>, writes: seq<Option<string>>, deadlines: Deadlines): Option<string>
    decreases |writes|
  {
    if writes == [] then cell
    else AfterWrites(if Readable(writes[0], deadlines) then writes[0] else cell, writes[1..], deadlines)
  }

  /**
    What one poll sees: the text it read, the time it was judged at, and what was stored when it
    came to clear it, or nothing if the store failed then.
   */
  datatype PauseRead = PauseRead(read: Option<string>, clock: int, atClear: Option<Option<string>>, deadlines: Deadlines)

  predicate IsOver(read: Option<string>, clock: int, deadlines: Deadlines) {
    && read.Some? && read.value != PAUSE_INDEFINITE
    && deadlines(read.value).Some? && deadlines(read.value).value <= clock
  }

  /** Whether a pause is asked for, or nothing if that cannot be told. */
  function Answer(r: PauseRead): Option<bool> {
    if IsOver(r.read, r.clock, r.deadlines) then if r.atClear.None? then None else Some(r.atClear.value != r.read)
    else if Readable(r.read, r.deadlines) then Some(r.read.Some?)
    else None
  }

  // ---------------------------------------------------------------- one poll among other writers

  datatype Phase = Idle | Read(value: Option<string>) | Over(text: string) | Answered(requested: Option<bool>)

  datatype Poll = Poll(cell: Option<string>, clock: int, phase: Phase)

  /** Commands set the cell and time passes at any moment; the recorder reads, judges and clears. */
  datatype Step = SetBy(value: Option<string>) | Pass(elapsed: nat) | ReadCell | Judge | Clear(works: bool)

  function Judged(value: Option<string>, clock: int, deadlines: Deadlines): Phase {
    if IsOver(value, clock, deadlines) then Over(value.value)
    else Answered(if Readable(value, deadlines) then Some(value.Some?) else None)
  }

  function Cleared(p: Poll, works: bool): Poll
    requires p.phase.Over?
  {
    if !works then p.(phase := Answered(None))
    else if p.cell == Some(p.phase.text) then p.(cell := None, phase := Answered(Some(false)))
    else p.(phase := Answered(Some(true)))
  }

  function Next(p: Poll, step: Step, deadlines: Deadlines): Poll {
    match step
    case SetBy(value) => if Readable(value, deadlines) then p.(cell := value) else p
    case Pass(elapsed) => p.(clock := p.clock + elapsed)
    case ReadCell => if p.phase.Idle? then p.(phase := Read(p.cell)) else p
    case Judge => if p.phase.Read? then p.(phase := Judged(p.phase.value, p.clock, deadlines)) else p
    case Clear(works) => if p.phase.Over? then Cleared(p, works) else p
  }

  /** The poll after the first n steps. */
  function After(p: Poll, steps: seq<Step>, deadlines: Deadlines, n: nat): Poll
    requires n <= |steps|
  {
    if n == 0 then p else Next(After(p, steps, deadlines, n - 1), steps[n - 1], deadlines)
  }

  predicate LiveAfter(p: Poll, steps: seq<Step>, deadlines: Deadlines, n: nat)
    requires n <= |steps|
  {
    Live(After(p, steps, deadlines, n).cell, After(p, steps, deadlines, n).clock, deadlines)
  }

  /** What the poll holds was stored at an earlier moment, and what it found to be over is over still. */
  lemma {:induction false} WhatWasRead(p: Poll, steps: seq<Step>, deadlines: Deadlines, n: nat) returns (at: nat)
    requires p.phase.Idle? && n <= |steps|
    ensures at <= n
    ensures
      var q := After(p, steps, deadlines, n);
      && (q.phase.Read? ==> After(p, steps, deadlines, at).cell == q.phase.value)
      && (q.phase.Over? ==> After(p, steps, deadlines, at).cell == Some(q.phase.text) && IsOver(Some(q.phase.text), q.clock, deadlines))
      && After(p, steps, deadlines, at).clock <= q.clock
  {
    if n == 0 {
      at := 0;
    } else {
      var before := After(p, steps, deadlines, n - 1);
      if before.phase.Idle? {
        at := n;
      } else {
        at := WhatWasRead(p, steps, deadlines, n - 1);
      }
    }
  }

  /** Only commands take a live pause away: no step of the recorder does. */
  lemma LivePauseStays(p: Poll, steps: seq<Step>, deadlines: Deadlines, n: nat)
    requires p.phase.Idle? && n < |steps| && !steps[n].SetBy? && LiveAfter(p, steps, deadlines, n)
    ensures After(p, steps, deadlines, n + 1).cell == After(p, steps, deadlines, n).cell
  {
    var at := WhatWasRead(p, steps, deadlines, n);
  }

  /**
    Capture resumes only over no pause: when a poll answers that none is asked for, there was a
    moment during the poll at which no live pause was stored. A pause that stood throughout, or
    that a command put in the place of an expired one before it was cleared, is never overrun.
   */
  lemma {:induction false} ResumesOnlyWhenFree(p: Poll, steps: seq<Step>, deadlines: Deadlines, n: nat) returns (at: nat)
    requires p.phase.Idle? && n <= |steps| && After(p, steps, deadlines, n).phase == Answered(Some(false))
    ensures at <= n && !LiveAfter(p, steps, deadlines, at)
  {
    var before := After(p, steps, deadlines, n - 1);
    if before.phase.Answered? {
      at := ResumesOnlyWhenFree(p, steps, deadlines, n - 1);
    } else {
      at := WhatWasRead(p, steps, deadlines, n - 1);
      if before.phase.Over? {
        at := n - 1;
      }
    }
  }

  /** The recorder stays paused only for a pause that was live, or because a command wrote in between. */
  lemma {:induction false} StaysOnlyForAReason(p: Poll, steps: seq<Step>, deadlines: Deadlines, n: nat) returns (at: nat)
    requires p.phase.Idle? && n <= |steps| && After(p, steps, deadlines, n).phase == Answered(Some(true))
    ensures (at <= n && LiveAfter(p, steps, deadlines, at)) || (at < n && steps[at].SetBy?)
  {
    var before := After(p, steps, deadlines, n - 1);
    if before.phase.Answered? {
      at := StaysOnlyForAReason(p, steps, deadlines, n - 1);
    } else {
      at := WhatWasRead(p, steps, deadlines, n - 1);
      if before.phase.Over? {
        at := ChangedBetween(p, steps, deadlines, at, n - 1);
      }
    }
  }

  /** Before it has answered, a poll changes nothing, so a change between two moments is a command's. */
  lemma {:induction false} ChangedBetween(p: Poll, steps: seq<Step>, deadlines: Deadlines, a: nat, b: nat) returns (at: nat)
    requires p.phase.Idle? && a <= b <= |steps| && !After(p, steps, deadlines, b).phase.Answered?
    requires After(p, steps, deadlines, a).cell != After(p, steps, deadlines, b).cell
    ensures a <= at < b && steps[at].SetBy?
  {
    if steps[b - 1].SetBy? {
      at := b - 1;
    } else {
      at := ChangedBetween(p, steps, deadlines, a, b - 1);
    }
  }

  /**
    With no command in between the answer is exact: yes only for a pause that was live when the
    poll began, no only if none is left at the end, and then nothing stays stored.
   */
  lemma {:induction false} QuietPoll(p: Poll, steps: seq<Step>, deadlines: Deadlines, n: nat)
    requires p.phase.Idle? && n <= |steps| && forall i :: 0 <= i < n ==> !steps[i].SetBy?
    ensures
      var q := After(p, steps, deadlines, n);
      && p.clock <= q.clock
      && (!q.phase.Answered? ==> q.cell == p.cell)
      && (q.phase.Read? ==> q.phase.value == p.cell)
      && (q.phase.Over? ==> p.cell == Some(q.phase.text) && IsOver(p.cell, q.clock, deadlines))
      && (q.phase == Answered(Some(true)) ==> q.cell == p.cell && Live(p.cell, p.clock, deadlines))
      && (q.phase == Answered(Some(false)) ==> q.cell == None && !Live(p.cell, q.clock, deadlines))
      && (q.phase == Answered(None) ==> q.cell == p.cell)
  {
    if n > 0 {
      QuietPoll(p, steps, deadlines, n - 1);
    }
  }

  /** Whatever happens in between, the answer is that of what was read, when it was judged, and what was stored at the clear. */
  lemma {:induction false} AnswerIs(p: Poll, steps: seq<Step>, deadlines: Deadlines, n: nat) returns (r: PauseRead)
    requires p.phase.Idle? && n <= |steps| && After(p, steps, deadlines, n).phase.Answered?
    ensures After(p, steps, deadlines, n).phase.requested == Answer(r)
    ensures exists i :: 0 <= i <= n && After(p, steps, deadlines, i).cell == r.read
    ensures r.deadlines == deadlines && p.clock <= r.clock <= After(p, steps, deadlines, n).clock
    ensures r.atClear.Some? ==> exists i :: 0 <= i <= n && After(p, steps, deadlines, i).cell == r.atClear.value
  {
    var before := After(p, steps, deadlines, n - 1);
    if before.phase.Answered? {
      r := AnswerIs(p, steps, deadlines, n - 1);
    } else {
      var at := WhatWasRead(p, steps, deadlines, n - 1);
      ClockRises(p, steps, deadlines, n - 1);
      if before.phase.Over? {
        r := PauseRead(Some(before.phase.text), before.clock, if steps[n - 1].works then Some(before.cell) else None, deadlines);
      } else {
        r := PauseRead(before.phase.value, before.clock, None, deadlines);
      }
    }
  }

  lemma {:induction false} ClockRises(p: Poll, steps: seq<Step>, deadlines: Deadlines, n: nat)
    requires n <= |steps|
    ensures p.clock <= After(p, steps, deadlines, n).clock
  {
    if n > 0 {
      ClockRises(p, steps, deadlines, n - 1);
    }
  }
}
