/**
  Creating the store key: any number of creators stage a key file, link it into place and
  fall back to the winner's key, in every interleaving and with crashes and I/O failures.
 */
module KeyCreation {
  import opened Common

  type KeyValue = nat

  /** What an inode of the key directory holds. */
  datatype Content = Partial | Whole(key: KeyValue)

  /** The directory: staging names, inodes by number, and what the final name is linked to. */
  datatype Fs = Fs(staging: map<nat, nat>, inodes: seq<Content>, published: Option<nat>)

  datatype Outcome = Got(key: KeyValue) | Nothing | Invalid | Unavailable

  datatype StoreResult = Stored | AlreadyExists | Failed

  /** Where a creator is in `load_or_create`. */
  datatype Place =
    | Start
    | Absent
    | Created(inode: nat)
    | Written(inode: nat)
    | Cleanup(result: StoreResult)
    | Reload
    | Done(outcome: Outcome)
    | Crashed

  /** Per creator: the staging name it uses, the key it generates, and whether it may create. */
  datatype Creator = Creator(slot: nat, key: KeyValue, create: bool)

  datatype System = System(fs: Fs, places: seq<Place>)

  datatype Event = Proceed | Fault | Crash

  // ---------------------------------------------------------------- one creator's steps

  /** Reading the final name. */
  function Loaded(fs: Fs): Outcome {
    if fs.published.None? then Nothing
    else if fs.published.value >= |fs.inodes| then Invalid
    else match fs.inodes[fs.published.value]
      case Partial => Invalid
      case Whole(key) => Got(key)
  }

  function AfterLoad(fs: Fs, c: Creator): Place {
    match Loaded(fs)
    case Nothing => if c.create then Absent else Done(Nothing)
    case outcome => Done(outcome)
  }

  /** `create_new`: a staging file that is already there is somebody else's, and an error. */
  function Stage(fs: Fs, c: Creator): (Fs, Place) {
    if c.slot in fs.staging then (fs, Cleanup(Failed))
    else (fs.(staging := fs.staging[c.slot := |fs.inodes|], inodes := fs.inodes + [Partial]), Created(|fs.inodes|))
  }

  function Write(fs: Fs, c: Creator, inode: nat): (Fs, Place) {
    if inode < |fs.inodes| then (fs.(inodes := fs.inodes[inode := Whole(c.key)]), Written(inode))
    else (fs, Cleanup(Failed))
  }

  /** `hard_link` works on the names as they are now, not on the file that was written. */
  function Link(fs: Fs, c: Creator): (Fs, Place) {
    if c.slot !in fs.staging then (fs, Cleanup(Failed))
    else if fs.published.Some? then (fs, Cleanup(AlreadyExists))
    else (fs.(published := Some(fs.staging[c.slot])), Cleanup(Stored))
  }

  /** How a call goes on once it has stored, lost the race, or failed. */
  function AfterStore(c: Creator, result: StoreResult): Place {
    match result
    case Stored => Done(Got(c.key))
    case AlreadyExists => Reload
    case Failed => Done(Unavailable)
  }

  /** The staging name is removed whatever happened, even when it is not the creator's own file. */
  function Clean(fs: Fs, c: Creator, result: StoreResult): (Fs, Place) {
    (fs.(staging := fs.staging - {c.slot}), AfterStore(c, result))
  }

  function Advance(fs: Fs, c: Creator, place: Place): (Fs, Place) {
    match place
    case Start => (fs, AfterLoad(fs, c))
    case Absent => Stage(fs, c)
    case Created(inode) => Write(fs, c, inode)
    case Written(_) => Link(fs, c)
    case Cleanup(result) => Clean(fs, c, result)
    case Reload => (fs, Done(Loaded(fs)))
    case Done(_) => (fs, place)
    case Crashed => (fs, place)
  }

  /** An I/O error instead of the step; failing to remove the staging name is ignored. */
  function Faulted(c: Creator, place: Place): Place {
    match place
    case Start => Done(Unavailable)
    case Absent => Cleanup(Failed)
    case Created(_) => Cleanup(Failed)
    case Written(_) => Cleanup(Failed)
    case Cleanup(result) => AfterStore(c, result)
    case Reload => Done(Unavailable)
    case Done(_) => place
    case Crashed => place
  }

  function Next(cs: seq<Creator>, s: System, who: nat, event: Event): System
    requires who < |cs| == |s.places|
  {
    match event
    case Proceed =>
      var (fs, place) := Advance(s.fs, cs[who], s.places[who]);
      System(fs, s.places[who := place])
    case Fault => s.(places := s.places[who := Faulted(cs[who], s.places[who])])
    case Crash => s.(places := s.places[who := if s.places[who].Done? then s.places[who] else Crashed])
  }

  datatype Action = Action(who: nat, event: Event)

  function Initial(cs: seq<Creator>): System {
    System(Fs(map[], [], None), seq(|cs|, _ => Start))
  }

  ghost predicate Run(cs: seq<Creator>, actions: seq<Action>, states: seq<System>) {
    && |states| == |actions| + 1
    && states[0] == Initial(cs)
    && (forall i :: 0 <= i < |states| ==> |states[i].places| == |cs|)
    && (forall i :: 0 <= i < |actions| ==> actions[i].who < |cs| && states[i + 1] == Next(cs, states[i], actions[i].who, actions[i].event))
  }

  // ---------------------------------------------------------------- what creation promises

  predicate PublishedWhole(fs: Fs) {
    fs.published.Some? ==> fs.published.value < |fs.inodes| && fs.inodes[fs.published.value].Whole?
  }

  /** The published item is never partial, and everyone who returns a key returns the published one. */
  ghost predicate Safe(s: System) {
    && PublishedWhole(s.fs)
    && (forall i :: 0 <= i < |s.places| && s.places[i].Done? && s.places[i].outcome.Got? ==>
          s.fs.published.Some? && s.fs.inodes[s.fs.published.value] == Whole(s.places[i].outcome.key))
  }

  /** Once something is published, neither the link nor its content ever changes. */
  ghost predicate Settled(fs: Fs, fs': Fs) {
    fs.published.Some? ==>
      fs'.published == fs.published &&
      (fs.published.value < |fs.inodes| ==>
         fs.published.value < |fs'.inodes| && fs'.inodes[fs.published.value] == fs.inodes[fs.published.value])
  }

  /** No three creators that may create use the same staging name. */
  ghost predicate SharedByAtMostTwo(cs: seq<Creator>) {
    forall a, b, c :: 0 <= a < |cs| && 0 <= b < |cs| && 0 <= c < |cs| && a != b && b != c && a != c
                      && cs[a].create && cs[b].create && cs[c].create ==>
      !(cs[a].slot == cs[b].slot == cs[c].slot)
  }

  // ---------------------------------------------------------------- the invariant

  predicate Holds(p: Place) {
    p.Created? || p.Written?
  }

  predicate BeforeStaging(p: Place) {
    p.Start? || p.Absent?
  }

  /** A creator that has staged a file owns its inode and is the only one to write it. */
  ghost predicate HolderOk(cs: seq<Creator>, s: System, i: nat)
    requires i < |cs| == |s.places|
  {
    Holds(s.places[i]) ==>
      && cs[i].create
      && s.places[i].inode < |s.fs.inodes|
      && s.fs.published != Some(s.places[i].inode)
      && (s.places[i].Written? ==> s.fs.inodes[s.places[i].inode] == Whole(cs[i].key))
      && (cs[i].slot in s.fs.staging ==> s.fs.staging[cs[i].slot] == s.places[i].inode)
      && (cs[i].slot !in s.fs.staging ==>
            forall j :: 0 <= j < |cs| && j != i && cs[j].slot == cs[i].slot && cs[j].create ==> !BeforeStaging(s.places[j]))
  }

  ghost predicate ResultOk(cs: seq<Creator>, s: System, i: nat)
    requires i < |cs| == |s.places|
  {
    && (s.places[i].Absent? || s.places[i].Cleanup? || s.places[i].Reload? ==> cs[i].create)
    && (s.places[i].Cleanup? && s.places[i].result.AlreadyExists? ==> s.fs.published.Some?)
    && (s.places[i].Cleanup? && s.places[i].result.Stored? ==> Loaded(s.fs) == Got(cs[i].key))
    && (s.places[i].Reload? ==> s.fs.published.Some?)
    && (s.places[i].Done? && s.places[i].outcome.Got? ==> Loaded(s.fs) == s.places[i].outcome)
  }

  ghost predicate Inv(cs: seq<Creator>, s: System) {
    && |s.places| == |cs|
    && PublishedWhole(s.fs)
    && (forall x :: x in s.fs.staging ==> s.fs.staging[x] < |s.fs.inodes|)
    && (forall i :: 0 <= i < |cs| ==> HolderOk(cs, s, i) && ResultOk(cs, s, i))
    && (forall i, j :: 0 <= i < j < |cs| && Holds(s.places[i]) && Holds(s.places[j]) ==> s.places[i].inode != s.places[j].inode)
  }

  lemma InvIsSafe(cs: seq<Creator>, s: System)
    requires Inv(cs, s)
    ensures Safe(s)
  {
    forall i | 0 <= i < |s.places| && s.places[i].Done? && s.places[i].outcome.Got?
      ensures s.fs.published.Some? && s.fs.inodes[s.fs.published.value] == Whole(s.places[i].outcome.key)
    {
      assert ResultOk(cs, s, i);
    }
  }

  /** A creator stages its own inode only where no other creator of that name is still holding one. */
  lemma StageKeeps(cs: seq<Creator>, s: System, who: nat)
    requires Inv(cs, s) && who < |cs| && s.places[who].Absent?
    ensures Inv(cs, Next(cs, s, who, Proceed))
  {
    var s' := Next(cs, s, who, Proceed);
    assert ResultOk(cs, s, who);
    forall i | 0 <= i < |cs|
      ensures HolderOk(cs, s', i) && ResultOk(cs, s', i)
    {
      assert HolderOk(cs, s, i) && ResultOk(cs, s, i);
    }
    forall i, j | 0 <= i < j < |cs| && Holds(s'.places[i]) && Holds(s'.places[j])
      ensures s'.places[i].inode != s'.places[j].inode
    {
      assert HolderOk(cs, s, i) && HolderOk(cs, s, j);
    }
  }

  lemma WriteKeeps(cs: seq<Creator>, s: System, who: nat)
    requires Inv(cs, s) && who < |cs| && s.places[who].Created?
    ensures Inv(cs, Next(cs, s, who, Proceed))
  {
    var s' := Next(cs, s, who, Proceed);
    assert HolderOk(cs, s, who);
    forall i | 0 <= i < |cs|
      ensures HolderOk(cs, s', i) && ResultOk(cs, s', i)
    {
      assert HolderOk(cs, s, i) && ResultOk(cs, s, i);
      if i != who && Holds(s.places[i]) {
        assert s.places[i].inode != s.places[who].inode;
      }
    }
  }

  lemma LinkKeeps(cs: seq<Creator>, s: System, who: nat)
    requires Inv(cs, s) && who < |cs| && s.places[who].Written?
    ensures Inv(cs, Next(cs, s, who, Proceed))
  {
    var s' := Next(cs, s, who, Proceed);
    assert HolderOk(cs, s, who);
    forall i | 0 <= i < |cs|
      ensures HolderOk(cs, s', i) && ResultOk(cs, s', i)
    {
      assert HolderOk(cs, s, i) && ResultOk(cs, s, i);
      if i != who && Holds(s.places[i]) {
        assert s.places[i].inode != s.places[who].inode;
      }
    }
  }

  /** Removing a staging name is harmless while at most two creators share it. */
  lemma CleanKeeps(cs: seq<Creator>, s: System, who: nat)
    requires SharedByAtMostTwo(cs)
    requires Inv(cs, s) && who < |cs| && s.places[who].Cleanup?
    ensures Inv(cs, Next(cs, s, who, Proceed))
  {
    var s' := Next(cs, s, who, Proceed);
    assert ResultOk(cs, s, who);
    forall i | 0 <= i < |cs|
      ensures HolderOk(cs, s', i) && ResultOk(cs, s', i)
    {
      assert HolderOk(cs, s, i) && ResultOk(cs, s, i);
      if i != who && Holds(s.places[i]) && cs[i].slot == cs[who].slot {
        forall j | 0 <= j < |cs| && j != i && cs[j].slot == cs[i].slot && cs[j].create
          ensures !BeforeStaging(s'.places[j])
        {
        }
      }
    }
  }

  lemma OtherStepKeeps(cs: seq<Creator>, s: System, who: nat, event: Event)
    requires Inv(cs, s) && who < |cs|
    requires event != Proceed || s.places[who].Start? || s.places[who].Reload? || s.places[who].Done? || s.places[who].Crashed?
    ensures Inv(cs, Next(cs, s, who, event))
  {
    var s' := Next(cs, s, who, event);
    assert HolderOk(cs, s, who) && ResultOk(cs, s, who);
    forall i | 0 <= i < |cs|
      ensures HolderOk(cs, s', i) && ResultOk(cs, s', i)
    {
      assert HolderOk(cs, s, i) && ResultOk(cs, s, i);
    }
  }

  lemma NextKeeps(cs: seq<Creator>, s: System, who: nat, event: Event)
    requires SharedByAtMostTwo(cs) && Inv(cs, s) && who < |cs|
    ensures Inv(cs, Next(cs, s, who, event))
  {
    if event == Proceed && s.places[who].Absent? {
      StageKeeps(cs, s, who);
    } else if event == Proceed && s.places[who].Created? {
      WriteKeeps(cs, s, who);
    } else if event == Proceed && s.places[who].Written? {
      LinkKeeps(cs, s, who);
    } else if event == Proceed && s.places[who].Cleanup? {
      CleanKeeps(cs, s, who);
    } else {
      OtherStepKeeps(cs, s, who, event);
    }
  }

  /** Nobody relinks the final name, and nobody writes to what it is linked to. */
  lemma NextSettles(cs: seq<Creator>, s: System, who: nat, event: Event)
    requires Inv(cs, s) && who < |cs|
    ensures Settled(s.fs, Next(cs, s, who, event).fs)
  {
    assert HolderOk(cs, s, who);
  }

  // ---------------------------------------------------------------- every run

  lemma {:induction false} RunKeeps(cs: seq<Creator>, actions: seq<Action>, states: seq<System>, i: nat)
    requires SharedByAtMostTwo(cs) && Run(cs, actions, states) && i < |states|
    ensures Inv(cs, states[i])
  {
    if i > 0 {
      RunKeeps(cs, actions, states, i - 1);
      assert states[i - 1 + 1] == Next(cs, states[i - 1], actions[i - 1].who, actions[i - 1].event);
      NextKeeps(cs, states[i - 1], actions[i - 1].who, actions[i - 1].event);
    }
  }

  /**
    Convergence. While no three creators share a staging name, in every interleaving with
    crashes and I/O errors the published key is complete from the moment it appears, it never
    changes, and every creator that returns a key returns that key.
   */
  lemma CreationConverges(cs: seq<Creator>, actions: seq<Action>, states: seq<System>, i: nat)
    requires SharedByAtMostTwo(cs) && Run(cs, actions, states) && i < |states|
    ensures Safe(states[i])
    ensures i + 1 < |states| ==> Settled(states[i].fs, states[i + 1].fs)
  {
    RunKeeps(cs, actions, states, i);
    InvIsSafe(cs, states[i]);
    if i + 1 < |states| {
      assert states[i + 1] == Next(cs, states[i], actions[i].who, actions[i].event);
      NextSettles(cs, states[i], actions[i].who, actions[i].event);
    }
  }

  /**
    Three creators of one staging name can publish a half-written key: the second fails to
    stage, removes the first one's staging name on its way out, the third stages an empty
    file under it, and the first links that file into place.
   */
  function Mishap(cs: seq<Creator>, a: nat, b: nat, c: nat, i: nat): System
    requires a < |cs| && b < |cs| && c < |cs| && i <= 9
  {
    var slot := cs[a].slot;
    var absent := Initial(cs).places[a := Absent][b := Absent][c := Absent];
    match i
    case 0 => Initial(cs)
    case 1 => System(Fs(map[], [], None), Initial(cs).places[a := Absent])
    case 2 => System(Fs(map[], [], None), Initial(cs).places[a := Absent][b := Absent])
    case 3 => System(Fs(map[], [], None), absent)
    case 4 => System(Fs(map[slot := 0], [Partial], None), absent[a := Created(0)])
    case 5 => System(Fs(map[slot := 0], [Partial], None), absent[a := Created(0)][b := Cleanup(Failed)])
    case 6 => System(Fs(map[], [Partial], None), absent[a := Created(0)][b := Done(Unavailable)])
    case 7 => System(Fs(map[slot := 1], [Partial, Partial], None), absent[a := Created(0)][b := Done(Unavailable)][c := Created(1)])
    case 8 => System(Fs(map[slot := 1], [Whole(cs[a].key), Partial], None),
                     absent[a := Written(0)][b := Done(Unavailable)][c := Created(1)])
    case _ => System(Fs(map[slot := 1], [Whole(cs[a].key), Partial], Some(1)),
                     absent[a := Cleanup(Stored)][b := Done(Unavailable)][c := Created(1)])
  }

  function MishapActor(a: nat, b: nat, c: nat, i: nat): nat {
    if i == 0 || i == 3 || i == 7 || i == 8 then a else if i == 1 || i == 4 || i == 5 then b else c
  }

  lemma MishapStep(cs: seq<Creator>, a: nat, b: nat, c: nat, i: nat)
    requires a < |cs| && b < |cs| && c < |cs| && a != b && b != c && a != c && i < 9
    requires cs[a].create && cs[b].create && cs[c].create && cs[a].slot == cs[b].slot == cs[c].slot
    ensures |Mishap(cs, a, b, c, i).places| == |cs|
    ensures Mishap(cs, a, b, c, i + 1) == Next(cs, Mishap(cs, a, b, c, i), MishapActor(a, b, c, i), Proceed)
  {
    var s := Mishap(cs, a, b, c, i);
    var s' := Next(cs, s, MishapActor(a, b, c, i), Proceed);
    assert s'.places == Mishap(cs, a, b, c, i + 1).places;
    assert s'.fs.staging == Mishap(cs, a, b, c, i + 1).fs.staging;
  }

  lemma ThreeOfOneNameCanFail(cs: seq<Creator>, a: nat, b: nat, c: nat) returns (actions: seq<Action>, states: seq<System>)
    requires a < |cs| && b < |cs| && c < |cs| && a != b && b != c && a != c
    requires cs[a].create && cs[b].create && cs[c].create && cs[a].slot == cs[b].slot == cs[c].slot
    ensures Run(cs, actions, states)
    ensures !Safe(states[|states| - 1])
  {
    actions := seq(9, i requires 0 <= i < 9 => Action(MishapActor(a, b, c, i), Proceed));
    states := seq(10, i requires 0 <= i < 10 => Mishap(cs, a, b, c, i));
    forall i | 0 <= i < 9
      ensures |states[i].places| == |cs|
      ensures states[i + 1] == Next(cs, states[i], actions[i].who, actions[i].event)
    {
      MishapStep(cs, a, b, c, i);
    }
    assert !PublishedWhole(states[9].fs);
  }

  /** Exactly when creation is safe: in all runs, if and only if no staging name is shared by three creators. */
  lemma SafeExactly(cs: seq<Creator>)
    ensures SharedByAtMostTwo(cs) <==>
            forall actions, states :: Run(cs, actions, states) ==> forall i :: 0 <= i < |states| ==> Safe(states[i])
  {
    if SharedByAtMostTwo(cs) {
      forall actions, states | Run(cs, actions, states)
        ensures forall i :: 0 <= i < |states| ==> Safe(states[i])
      {
        forall i | 0 <= i < |states|
          ensures Safe(states[i])
        {
          CreationConverges(cs, actions, states, i);
        }
      }
    } else {
      var a, b, c :| 0 <= a < |cs| && 0 <= b < |cs| && 0 <= c < |cs| && a != b && b != c && a != c
                     && cs[a].create && cs[b].create && cs[c].create && cs[a].slot == cs[b].slot == cs[c].slot;
      var actions, states := ThreeOfOneNameCanFail(cs, a, b, c);
      assert Run(cs, actions, states) && !Safe(states[|states| - 1]);
    }
  }

  // ---------------------------------------------------------------- one call, undisturbed

  /** The key directory as one process changes it. */
  class KeyDirectory {
    var fs: Fs

    constructor ()
      ensures fs == Fs(map[], [], None)
    {
      fs := Fs(map[], [], None);
    }

    method Load() returns (outcome: Outcome)
      ensures outcome == Loaded(fs)
    {
      return Loaded(fs);
    }

    /** Stages the key in a new file and links it under the final name, then removes the staging name. */
    method Store(c: Creator) returns (result: StoreResult)
      modifies this
      ensures fs.staging == old(fs.staging) - {c.slot}
      ensures result.Stored? <==> c.slot !in old(fs.staging) && old(fs.published).None?
      ensures result.AlreadyExists? <==> c.slot !in old(fs.staging) && old(fs.published).Some?
      ensures result.Stored? ==> Loaded(fs) == Got(c.key)
      ensures !result.Stored? ==> fs.published == old(fs.published)
      ensures old(fs.inodes) <= fs.inodes
    {
      if c.slot in fs.staging {
        result := Failed;
      } else {
        var inode := |fs.inodes|;
        fs := fs.(staging := fs.staging[c.slot := inode], inodes := fs.inodes + [Partial]);
        fs := fs.(inodes := fs.inodes[inode := Whole(c.key)]);
        if fs.published.Some? {
          result := AlreadyExists;
        } else {
          fs := fs.(published := Some(fs.staging[c.slot]));
          result := Stored;
        }
      }
      fs := fs.(staging := fs.staging - {c.slot});
    }

    /**
      Returns the stored key, or creates one when allowed; whatever key it returns is the stored
      one. A stored item that is no whole key is reported as invalid and left alone.
     */
    method LoadOrCreate(c: Creator) returns (outcome: Outcome)
      modifies this
      ensures outcome.Got? ==> Loaded(fs) == outcome
      ensures outcome.Invalid? <==> !PublishedWhole(old(fs))
      ensures old(fs.published).Some? ==> fs == old(fs) && (PublishedWhole(fs) ==> Loaded(fs) == outcome && outcome.Got?)
      ensures old(fs.published).None? && !c.create ==> fs == old(fs) && outcome == Nothing
      ensures old(fs.published).None? && c.create ==>
        && fs.staging == old(fs.staging) - {c.slot}
        && (if c.slot !in old(fs.staging) then outcome == Got(c.key) else outcome == Unavailable && fs.published.None?)
    {
      outcome := Load();
      if outcome != Nothing {
        return;
      }
      if !c.create {
        return;
      }
      var result := Store(c);
      match result {
        case Stored => outcome := Got(c.key);
        case AlreadyExists => outcome := Load();
        case Failed => outcome := Unavailable;
      }
    }
  }
}
