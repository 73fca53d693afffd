/**
 * The operations of src/noise_store.rs as they run, file operation by file operation. Any of those may fail, and
 * before each of them any number of steps of other attempts may come. Beside the files a store keeps the protocol's
 * account of them: every call is a run of the protocol, so what is proved of all its runs holds of every call.
 */
module NoiseStore {
  import opened Wrappers
  import opened Text
  import opened Hex
  import opened TrustStore

  /** What happens around a call: the steps of others before each of its own, and which of its own steps fail. */
  datatype Luck = Luck(others: nat -> seq<Action>, fails: nat -> bool)

  /** The others are others, and none of them draws a staging name this call draws: those names are unique. */
  ghost predicate Apart(luck: Luck, who: Attempt, temps: set<nat>)
  {
    forall k: nat, a <- luck.others(k) :: a.who != who && (a.Advance? ==> a.temp !in temps)
  }

  /** What a step that draws no key is given. */
  function NoKey(): Key
  {
    seq(32, _ => 0)
  }

  // ---------------------------------------------------------------------------------------------
  // Single steps
  // ---------------------------------------------------------------------------------------------

  lemma MovesOn(w: World, a: Action, op: Op, stage: Stage, next: Stage)
    requires At(w, a.who, op, stage) && !a.Begin? && Step(w, a, op, stage).next == Some(next)
    ensures var v, e := Do(w, a), Step(w, a, op, stage);
      At(v, a.who, op, next) && v.files == e.files && v.usedTemps == w.usedTemps + e.temps
  {
    hide Step;
  }

  lemma Leaves(w: World, a: Action, op: Op, stage: Stage, outcome: Outcome)
    requires At(w, a.who, op, stage) && !a.Begin? && Step(w, a, op, stage) == Return(w, a.who, op, outcome)
    ensures var v := Do(w, a);
      && a.who !in v.running && v.files == w.files && v.usedTemps == w.usedTemps
      && v.log == w.log + [Returned(a.who, op, outcome)]
  {
    hide Step;
  }

  lemma OthersLeaveMe(w: World, a: Action, who: Attempt, op: Op, stage: Stage)
    requires At(w, who, op, stage) && a.who != who
    ensures At(Do(w, a), who, op, stage)
  {
    hide Step;
  }

  lemma StepDrawsItsOwn(w: World, a: Action, op: Op, stage: Stage)
    ensures Step(w, a, op, stage).temps <= if a.Advance? then {a.temp} else {}
  {
    hide Start, ReadLegacy, Released, AfterRead, AfterTargetRead, AfterPublication, ContentOf, Target, KeyAt;
    EarlyStepsTouchNothing(w, a.who, op, stage);
  }

  lemma OthersDrawTheirOwn(w: World, a: Action, temps: set<nat>)
    requires temps !! w.usedTemps && (a.Advance? ==> a.temp !in temps)
    ensures temps !! Do(w, a).usedTemps
  {
    hide Step;
    if !a.Begin? && a.who in w.running {
      StepDrawsItsOwn(w, a, w.running[a.who].op, w.running[a.who].stage);
    }
  }

  lemma NotStaged(w: World, who: Attempt, op: Op, goal: Goal, temp: nat, fails: bool)
    requires fails || Temp(temp) in w.files
    ensures Step(w, if fails then Fail(who) else Advance(who, NoKey(), temp), op, Staging(goal)) ==
            Move(w, Finishing(Failed))
  {}

  lemma StagingStep(w: World, who: Attempt, op: Op, goal: Goal, temp: nat)
    requires Temp(temp) !in w.files && temp !in w.usedTemps
    ensures Step(w, Advance(who, NoKey(), temp), op, Staging(goal)) ==
            Move(w, Writing(goal, temp)).(files := w.files[Temp(temp) := Torn], temps := {temp})
  {}

  lemma WritingStep(w: World, who: Attempt, op: Op, goal: Goal, temp: nat)
    ensures Step(w, Fail(who), op, Writing(goal, temp)) == Move(w, Finishing(Failed)).(files := w.files - {Temp(temp)})
    ensures Step(w, Advance(who, NoKey(), temp), op, Writing(goal, temp)) ==
            Move(w, Staged(goal, temp)).(files := w.files[Temp(temp) := ContentOf(goal)])
  {
    hide ContentOf;
  }

  lemma PlacingStep(w: World, who: Attempt, op: Op, goal: Goal, temp: nat)
    requires Temp(temp) in w.files
    ensures Step(w, Fail(who), op, Staged(goal, temp)) == Move(w, Cleaning(goal, temp, Broke))
    ensures var target, e := Target(op, goal), Step(w, Advance(who, NoKey(), temp), op, Staged(goal, temp));
      && e.temps == {}
      && if goal.NewKey? && target in w.files then e.next == Some(Cleaning(goal, temp, Existed)) && e.files == w.files
         else && e.next == Some(Cleaning(goal, temp, Published))
              && e.files == if goal.NewKey? then w.files[target := w.files[Temp(temp)]]
                            else w.files[target := w.files[Temp(temp)]] - {Temp(temp)}
  {
    hide Target;
  }

  lemma CleaningStep(w: World, who: Attempt, op: Op, goal: Goal, temp: nat, link: Link)
    ensures Step(w, Fail(who), op, Cleaning(goal, temp, link)) == Move(w, AfterPublication(op, goal, link))
    ensures Step(w, Advance(who, NoKey(), temp), op, Cleaning(goal, temp, link)) ==
            Move(w, AfterPublication(op, goal, link)).(files := w.files - {Temp(temp)})
  {
    hide AfterPublication;
  }

  lemma ReadingStep(w: World, who: Attempt, op: Op, key: Key)
    ensures Step(w, Fail(who), op, Reading) == Move(w, Finishing(Failed))
    ensures Step(w, Advance(who, key, 0), op, Reading) == Move(w, AfterRead(w, op, key))
  {
    hide AfterRead;
  }

  lemma RereadingStep(w: World, who: Attempt, op: Op)
    ensures Step(w, Fail(who), op, Rereading) == Move(w, Finishing(Failed))
    ensures Step(w, Advance(who, NoKey(), 0), op, Rereading) ==
            Move(w, Finishing(if KeyAt(w.files, op.dir).Some? then KeyIs(KeyAt(w.files, op.dir).value) else Failed))
  {
    hide KeyAt;
  }

  lemma FinishingStep(w: World, who: Attempt, op: Op, outcome: Outcome)
    ensures Step(w, Advance(who, NoKey(), 0), op, Finishing(outcome)) == Return(w, who, op, outcome)
  {}

  /** Taking the lock of the operation's own folder. */
  lemma StartingStep(w: World, who: Attempt, op: Op)
    requires !op.Adopt? && (op.LoadOrCreate? ==> op.locks)
    ensures Step(w, Fail(who), op, Starting) == Return(w, who, op, Failed)
    ensures var e := Step(w, Advance(who, NoKey(), 0), op, Starting);
      if op.PinHub? && !ValidPin(op.node, op.key) then e == Return(w, who, op, Failed)
      else e.files == w.files && e.temps == {} && e.next == Some(if op.dir in w.locks then Starting else Reading)
  {
    hide ValidPin;
  }

  lemma BrokeIsFailed(op: Op, goal: Goal)
    ensures AfterPublication(op, goal, Broke) == Finishing(Failed)
  {}

  class NoiseStore {
    var files: Files
    var world: World
    ghost var trace: seq<Action>
    ghost const first: World

    /** The account is one of a run of the protocol, and its files are these. */
    ghost predicate Valid()
      reads this
    {
      world.files == files && IsAccount()
    }

    ghost predicate IsAccount()
      reads this`world, this`trace
    {
      Initial(first) && world == Run(first, trace) && Sound(world)
    }

    /** The attempt is under way. */
    ghost predicate Stands(who: Attempt, op: Op, stage: Stage)
      reads this
    {
      Valid() && At(world, who, op, stage)
    }

    /** The call is over, and its return is the last thing the account tells. */
    ghost predicate Over(who: Attempt, op: Op, outcome: Outcome)
      reads this
    {
      && Valid() && who !in world.running
      && world.log != [] && world.log[|world.log| - 1] == Returned(who, op, outcome)
    }

    constructor (files: Files)
      ensures Valid() && this.files == files && trace == [] && world == World(files, map[], map[], {}, {}, [])
    {
      this.files := files;
      world := World(files, map[], map[], {}, {}, []);
      first := World(files, map[], map[], {}, {}, []);
      trace := [];
    }

    /** The protocol's account of one step. */
    method Account(a: Action)
      requires IsAccount()
      modifies this`world, this`trace
      ensures IsAccount() && world == Do(old(world), a) && trace == old(trace) + [a]
    {
      hide Do, Sound;
      SoundKept(world, a);
      assert (trace + [a])[..|trace|] == trace;
      world, trace := Do(world, a), trace + [a];
    }

    /** Steps of other attempts, which may change the files. */
    method Meanwhile(others: seq<Action>, ghost who: Attempt, ghost op: Op, ghost stage: Stage, ghost temps: set<nat>)
      requires Stands(who, op, stage) && temps !! world.usedTemps
      requires forall a <- others :: a.who != who && (a.Advance? ==> a.temp !in temps)
      modifies this
      ensures Stands(who, op, stage) && temps !! world.usedTemps && old(trace) <= trace
    {
      hide Do, IsAccount;
      for i := 0 to |others|
        invariant Stands(who, op, stage) && temps !! world.usedTemps && old(trace) <= trace
      {
        OthersLeaveMe(world, others[i], who, op, stage);
        OthersDrawTheirOwn(world, others[i], temps);
        Account(others[i]);
        files := world.files;
      }
    }

    /** One step of this attempt that leaves the files as they are. */
    method Goes(a: Action, ghost op: Op, ghost stage: Stage, ghost next: Stage)
      requires Stands(a.who, op, stage) && !a.Begin?
      requires var e := Step(world, a, op, stage); e.files == files && e.next == Some(next) && e.temps == {}
      modifies this`world, this`trace
      ensures Stands(a.who, op, next) && world.usedTemps == old(world.usedTemps) && old(trace) <= trace
    {
      hide Do, Step, IsAccount;
      MovesOn(world, a, op, stage, next);
      Account(a);
    }

    /** One step of this attempt, before the files are changed to match. */
    method Works(a: Action, ghost op: Op, ghost stage: Stage, ghost next: Stage)
      requires Stands(a.who, op, stage) && !a.Begin? && Step(world, a, op, stage).next == Some(next)
      modifies this`world, this`trace
      ensures IsAccount() && At(world, a.who, op, next) && old(trace) <= trace
      ensures world.files == Step(old(world), a, op, stage).files
      ensures world.usedTemps == old(world.usedTemps) + Step(old(world), a, op, stage).temps
    {
      hide Do, Step, IsAccount;
      MovesOn(world, a, op, stage, next);
      Account(a);
    }

    method Returns(ghost op: Op, ghost stage: Stage, a: Action, ghost outcome: Outcome)
      requires Stands(a.who, op, stage) && !a.Begin? && Step(world, a, op, stage) == Return(world, a.who, op, outcome)
      modifies this`world, this`trace
      ensures Over(a.who, op, outcome) && world.usedTemps == old(world.usedTemps) && old(trace) <= trace
    {
      hide Do, Step, IsAccount, Return;
      Leaves(world, a, op, stage, outcome);
      Account(a);
    }

    method Begins(who: Attempt, op: Op)
      requires Valid() && who !in world.usedAttempts
      modifies this`world, this`trace
      ensures Stands(who, op, Starting) && world.usedTemps == old(world.usedTemps) && old(trace) <= trace
    {
      hide IsAccount;
      Account(Begin(who, op));
    }

    /** Waits for the lock of the operation's folder: false when the call is over, with nothing done. */
    method LockState(who: Attempt, op: Op, luck: Luck, ghost temps: set<nat>) returns (r: Option<Outcome>, locked: bool)
      requires Valid() && who !in world.usedAttempts && Apart(luck, who, temps) && temps !! world.usedTemps
      requires !op.Adopt? && (op.LoadOrCreate? ==> op.locks) && (op.PinHub? ==> ValidPin(op.node, op.key))
      modifies this
      ensures temps !! world.usedTemps && old(trace) <= trace
      ensures if locked then Stands(who, op, Reading)
              else if r.Some? then r == Some(Failed) && Over(who, op, Failed)
              else Stands(who, op, Starting)
    {
      hide Step, ValidPin, Sound;
      Begins(who, op);
      Meanwhile(luck.others(0), who, op, Starting, temps);
      StartingStep(world, who, op);
      if luck.fails(0) {
        Returns(op, Starting, Fail(who), Failed);
        return Some(Failed), false;
      }
      if op.dir in world.locks {
        return None, false;
      }
      Goes(Advance(who, NoKey(), 0), op, Starting, Reading);
      r, locked := None, true;
    }

    /** Returns what was decided. */
    method Concludes(who: Attempt, ghost op: Op, ghost outcome: Outcome, luck: Luck, ghost temps: set<nat>)
      requires Stands(who, op, Finishing(outcome)) && Apart(luck, who, temps) && temps !! world.usedTemps
      modifies this
      ensures Over(who, op, outcome) && old(trace) <= trace
      ensures KnowsPins(files, Running(op, Finishing(outcome)))
    {
      hide Step, Sound, KnowsPins;
      Meanwhile(luck.others(1), who, op, Finishing(outcome), temps);
      FinishersKnowPins(who, op, outcome);
      FinishingStep(world, who, op, outcome);
      Returns(op, Finishing(outcome), Advance(who, NoKey(), 0), outcome);
    }

    /** Under the lock, what was found out about the pins still holds when the call is over. */
    lemma FinishersKnowPins(who: Attempt, op: Op, outcome: Outcome)
      requires Stands(who, op, Finishing(outcome))
      ensures KnowsPins(files, Running(op, Finishing(outcome)))
    {
      hide Run, Sound, KnowsPins, TrustKept;
      RunsKeepTrust(first, trace);
    }

    /** Stages the whole content under a name of its own, then puts it in place by link or rename, and cleans up. */
    method PublishPrivate(target: Path, content: Content, exclusive: bool, temp: nat, luck: Luck, from: nat,
                          who: Attempt, ghost op: Op, ghost goal: Goal, ghost temps: set<nat>)
      returns (link: Link)
      requires Stands(who, op, Staging(goal)) && Apart(luck, who, temps) && temps !! world.usedTemps && temp in temps
      requires target == Target(op, goal) && content == ContentOf(goal) && exclusive == goal.NewKey?
      modifies this
      ensures Stands(who, op, AfterPublication(op, goal, link)) && old(trace) <= trace
      ensures temps - {temp} !! world.usedTemps
      ensures link == Existed ==> exclusive
    {
      hide AfterPublication, ContentOf, Step, Target, Sound, IsAccount;
      Meanwhile(luck.others(from), who, op, Staging(goal), temps);
      BrokeIsFailed(op, goal);
      if luck.fails(from) || Temp(temp) in files {
        NotStaged(world, who, op, goal, temp, luck.fails(from));
        Goes(if luck.fails(from) then Fail(who) else Advance(who, NoKey(), temp), op, Staging(goal), Finishing(Failed));
        return Broke;
      }
      var staged := WriteTemporary(content, temp, luck, from, who, op, goal, temps);
      if !staged {
        return Broke;
      }
      link := PlaceStaged(target, exclusive, temp, luck, from, who, op, goal, temps - {temp});
      Meanwhile(luck.others(from + 3), who, op, Cleaning(goal, temp, link), temps - {temp});
      CleaningStep(world, who, op, goal, temp, link);
      if luck.fails(from + 3) {
        Goes(Fail(who), op, Cleaning(goal, temp, link), AfterPublication(op, goal, link));
      } else {
        Works(Advance(who, NoKey(), temp), op, Cleaning(goal, temp, link), AfterPublication(op, goal, link));
        files := files - {Temp(temp)};
      }
    }

    /** Creates the staging file, which was not there, and writes all of it, or removes it again. */
    method WriteTemporary(content: Content, temp: nat, luck: Luck, from: nat, who: Attempt, ghost op: Op,
                          ghost goal: Goal, ghost temps: set<nat>)
      returns (staged: bool)
      requires Stands(who, op, Staging(goal)) && Apart(luck, who, temps) && temps !! world.usedTemps && temp in temps
      requires Temp(temp) !in files && content == ContentOf(goal)
      modifies this
      ensures Stands(who, op, if staged then Staged(goal, temp) else Finishing(Failed)) && old(trace) <= trace
      ensures temps - {temp} !! world.usedTemps
    {
      hide ContentOf, Step, Sound, IsAccount;
      var step := Advance(who, NoKey(), temp);
      StagingStep(world, who, op, goal, temp);
      Works(step, op, Staging(goal), Writing(goal, temp));
      files := files[Temp(temp) := Torn];
      Meanwhile(luck.others(from + 1), who, op, Writing(goal, temp), temps - {temp});
      WritingStep(world, who, op, goal, temp);
      if luck.fails(from + 1) {
        Works(Fail(who), op, Writing(goal, temp), Finishing(Failed));
        files := files - {Temp(temp)};
        return false;
      }
      Works(step, op, Writing(goal, temp), Staged(goal, temp));
      files := files[Temp(temp) := content];
      staged := true;
    }

    /** The hard link, which never replaces a file, or the rename, which does. */
    method PlaceStaged(target: Path, exclusive: bool, temp: nat, luck: Luck, from: nat, who: Attempt,
                       ghost op: Op, ghost goal: Goal, ghost temps: set<nat>)
      returns (link: Link)
      requires Stands(who, op, Staged(goal, temp)) && Apart(luck, who, temps) && temps !! world.usedTemps
      requires target == Target(op, goal) && exclusive == goal.NewKey?
      modifies this
      ensures Stands(who, op, Cleaning(goal, temp, link)) && old(trace) <= trace && temps !! world.usedTemps
      ensures link == Existed ==> exclusive
    {
      hide Step, ContentOf, IsAccount;
      Meanwhile(luck.others(from + 2), who, op, Staged(goal, temp), temps);
      StagedFileIsThere(who, op, goal, temp);
      PlacingStep(world, who, op, goal, temp);
      hide Sound, Target;
      if luck.fails(from + 2) {
        Goes(Fail(who), op, Staged(goal, temp), Cleaning(goal, temp, Broke));
        return Broke;
      }
      link := if exclusive && target in files then Existed else Published;
      Works(Advance(who, NoKey(), temp), op, Staged(goal, temp), Cleaning(goal, temp, link));
      if link == Published {
        files := files[target := files[Temp(temp)]];
        if !exclusive {
          files := files - {Temp(temp)};
        }
      }
    }

    lemma StagedFileIsThere(who: Attempt, op: Op, goal: Goal, temp: nat)
      requires Stands(who, op, Staged(goal, temp))
      ensures Temp(temp) in files
    {
      hide ContentOf, AllFit, LocksHeld, Run;
      assert TempFits(world.files, world.usedTemps, world.running[who].stage);
    }

    // -------------------------------------------------------------------------------------------
    // The operations
    // -------------------------------------------------------------------------------------------

    /** A call that may begin, under these names. */
    ghost predicate MayBegin(who: Attempt, luck: Luck, temps: set<nat>)
      reads this
    {
      Valid() && who !in world.usedAttempts && Apart(luck, who, temps) && temps !! world.usedTemps
    }

    /** A call ended as the protocol tells, or waits for a lock. */
    ghost predicate Ended(who: Attempt, op: Op, r: Option<Outcome>)
      reads this
    {
      if r.Some? then Over(who, op, r.value) else Valid() && who in world.running && world.running[who].op == op
    }

    /** The first key of a folder, or the one that is there. */
    method LoadOrCreateNoiseKey(dir: Folder, key: Key, temp: nat, luck: Luck, who: Attempt) returns (r: Option<Outcome>)
      requires MayBegin(who, luck, {temp})
      modifies this
      ensures Ended(who, LoadOrCreate(dir, true), r) && old(trace) <= trace
      ensures r.Some? ==> r.value.KeyIs? || r.value == Failed
      ensures r.Some? && r.value.KeyIs? ==> KeyAt(files, dir) == Some(r.value.key)
    {
      hide Step, KeyAt, KeyIn, IsAccount;
      var op, locked := LoadOrCreate(dir, true), false;
      r, locked := LockState(who, op, luck, {temp});
      if !locked {
        return;
      }
      Meanwhile(luck.others(2), who, op, Reading, {temp});
      ReadingStep(world, who, op, key);
      if luck.fails(2) {
        Goes(Fail(who), op, Reading, Finishing(Failed));
        r := Some(Failed);
      } else if KeyFile(dir) in files {
        r := Some(if KeyAt(files, dir).Some? then KeyIs(KeyAt(files, dir).value) else Failed);
        Goes(Advance(who, key, 0), op, Reading, Finishing(r.value));
      } else {
        Goes(Advance(who, key, 0), op, Reading, Staging(NewKey(key)));
        r := CreateKey(dir, key, temp, luck, who, op);
      }
      Concludes(who, op, r.value, luck, {});
      if r.value.KeyIs? {
        ReturnedKeyIsThere(who, op, r.value);
      }
    }

    method CreateKey(dir: Folder, key: Key, temp: nat, luck: Luck, who: Attempt, ghost op: Op)
      returns (r: Option<Outcome>)
      requires op.LoadOrCreate? && op.dir == dir && Stands(who, op, Staging(NewKey(key)))
      requires Apart(luck, who, {temp}) && temp !in world.usedTemps
      modifies this
      ensures r.Some? && (r.value.KeyIs? || r.value == Failed)
      ensures Stands(who, op, Finishing(r.value)) && old(trace) <= trace
    {
      hide IsAccount;
      var link := PublishPrivate(KeyFile(dir), Plain(Encode(key)), true, temp, luck, 10, who, op, NewKey(key), {temp});
      r := Some(if link == Published then KeyIs(key) else Failed);
      if link == Existed {
        r := LoadExistingKey(dir, luck, who, op);
      }
    }

    /** The key of another attempt that was first. */
    method LoadExistingKey(dir: Folder, luck: Luck, who: Attempt, ghost op: Op) returns (r: Option<Outcome>)
      requires Stands(who, op, Rereading) && op.dir == dir && Apart(luck, who, {})
      modifies this
      ensures r.Some? && (r.value.KeyIs? || r.value == Failed)
      ensures Stands(who, op, Finishing(r.value)) && old(trace) <= trace
    {
      hide Step, KeyAt, IsAccount;
      Meanwhile(luck.others(3), who, op, Rereading, {});
      RereadingStep(world, who, op);
      if luck.fails(3) {
        Goes(Fail(who), op, Rereading, Finishing(Failed));
        return Some(Failed);
      }
      r := Some(if KeyAt(files, dir).Some? then KeyIs(KeyAt(files, dir).value) else Failed);
      Goes(Advance(who, NoKey(), 0), op, Rereading, Finishing(r.value));
    }

    lemma ReturnedKeyIsThere(who: Attempt, op: Op, outcome: Outcome)
      requires Over(who, op, outcome) && op.LoadOrCreate? && outcome.KeyIs?
      ensures KeyAt(files, op.dir) == Some(outcome.key)
    {
      hide Run, Sound, KeysKnown, KeyAt;
      RunsReportTruly(first, trace);
      assert ReportsKey(Returned(who, op, outcome), op.dir, outcome.key);
    }

    /** Trust on first use: the first key pinned for a node stays, and another is refused. */
    method PinHubKey(dir: Folder, node: string, key: string, temp: nat, luck: Luck, who: Attempt)
      returns (r: Option<Outcome>)
      requires MayBegin(who, luck, {temp})
      modifies this
      ensures Ended(who, PinHub(dir, node, key), r) && old(trace) <= trace
      ensures r.Some? ==> r.value in {Pinned, Refused, Failed}
      ensures IsBlank(node) || |key| != 64 || !IsHexText(key) ==> r == Some(Failed)
      ensures r.Some? && r != Some(Failed) ==>
                && PinsAt(files, dir).Some? && node in PinsAt(files, dir).value
                && Decode(key).Some? && (r == Some(Pinned) <==> Decode(PinsAt(files, dir).value[node]) == Decode(key))
      ensures r.Some? && r != Some(Pinned) ==> !LinkedBy(world.log, who, true) && !LinkedBy(world.log, who, false)
    {
      hide Step, PinsAt, IsAccount, ValidPin, EqualIgnoringCase, IsHexText, Decode, IsBlank;
      ValidPinsAreHex(node, key);
      var op, locked := PinHub(dir, node, key), false;
      if !ValidPin(node, key) {
        Begins(who, op);
        StartingStep(world, who, op);
        Returns(op, Starting, Advance(who, NoKey(), 0), Failed);
        ReturnedNothing(who, op, Failed);
        return Some(Failed);
      }
      r, locked := LockState(who, op, luck, {temp});
      if !locked {
        if r.Some? {
          ReturnedNothing(who, op, Failed);
        }
        return;
      }
      var outcome := PinUnderLock(dir, node, key, temp, luck, who);
      Concludes(who, op, outcome, luck, {});
      PinVerdictIsAboutBytes(files, dir, node, key, outcome);
      if outcome != Pinned {
        ReturnedNothing(who, op, outcome);
      }
      r := Some(outcome);
    }

    method PinUnderLock(dir: Folder, node: string, key: string, temp: nat, luck: Luck, who: Attempt)
      returns (outcome: Outcome)
      requires Stands(who, PinHub(dir, node, key), Reading) && Apart(luck, who, {temp}) && temp !in world.usedTemps
      modifies this
      ensures outcome in {Pinned, Refused, Failed}
      ensures Stands(who, PinHub(dir, node, key), Finishing(outcome)) && old(trace) <= trace
    {
      hide Step, PinsAt, IsAccount, EqualIgnoringCase;
      ghost var op := PinHub(dir, node, key);
      Meanwhile(luck.others(2), who, op, Reading, {temp});
      ReadingStep(world, who, op, NoKey());
      var pins := PinsAt(files, dir);
      if luck.fails(2) {
        Goes(Fail(who), op, Reading, Finishing(Failed));
        return Failed;
      } else if pins.None? {
        outcome := Failed;
      } else if node in pins.value {
        outcome := if EqualIgnoringCase(pins.value[node], key) then Pinned else Refused;
      } else {
        ghost var goal := NewPins(pins.value, pins.value[node := key], None);
        Goes(Advance(who, NoKey(), 0), op, Reading, Staging(goal));
        var link := PublishPrivate(PinFile(dir), Pins(pins.value[node := key]), false, temp, luck, 20, who, op, goal,
                                   {temp});
        return if link == Published then Pinned else Failed;
      }
      Goes(Advance(who, NoKey(), 0), op, Reading, Finishing(outcome));
    }

    /** The pin of a node, if there is one. */
    method LoadNoisePin(dir: Folder, node: string, luck: Luck, who: Attempt) returns (r: Option<Outcome>)
      requires MayBegin(who, luck, {})
      modifies this
      ensures Ended(who, LoadPin(dir, node), r) && old(trace) <= trace
      ensures r.Some? ==> r.value.PinIs? || r.value == Failed
      ensures r.Some? && r.value.PinIs? ==>
                PinsAt(files, dir).Some? && r.value.pin == Lookup(PinsAt(files, dir).value, node)
      ensures r.Some? ==> !LinkedBy(world.log, who, true) && !LinkedBy(world.log, who, false)
    {
      hide Step, PinsAt, IsAccount;
      var op, locked := LoadPin(dir, node), false;
      r, locked := LockState(who, op, luck, {});
      if !locked {
        if r.Some? {
          ReturnedNothing(who, op, Failed);
        }
        return;
      }
      Meanwhile(luck.others(2), who, op, Reading, {});
      ReadingStep(world, who, op, NoKey());
      var pins := PinsAt(files, dir);
      var outcome := if luck.fails(2) || pins.None? then Failed else PinIs(Lookup(pins.value, node));
      Goes(if luck.fails(2) then Fail(who) else Advance(who, NoKey(), 0), op, Reading, Finishing(outcome));
      Concludes(who, op, outcome, luck, {});
      ReturnedNothing(who, op, outcome);
      r := Some(outcome);
    }

    /** Drops the pin of a node. */
    method ForgetNoisePin(dir: Folder, node: string, temp: nat, luck: Luck, who: Attempt) returns (r: Option<Outcome>)
      requires MayBegin(who, luck, {temp})
      modifies this
      ensures Ended(who, Forget(dir, node), r) && old(trace) <= trace
      ensures r.Some? ==> r.value in {Forgotten, Failed}
      ensures r == Some(Forgotten) ==> PinsAt(files, dir).Some? && node !in PinsAt(files, dir).value
      ensures r == Some(Failed) ==> !LinkedBy(world.log, who, true) && !LinkedBy(world.log, who, false)
    {
      hide Step, PinsAt, IsAccount;
      var op, locked := Forget(dir, node), false;
      r, locked := LockState(who, op, luck, {temp});
      if !locked {
        if r.Some? {
          ReturnedNothing(who, op, Failed);
        }
        return;
      }
      var outcome := ForgetUnderLock(dir, node, temp, luck, who);
      Concludes(who, op, outcome, luck, {});
      if outcome == Failed {
        ReturnedNothing(who, op, Failed);
      }
      r := Some(outcome);
    }

    method ForgetUnderLock(dir: Folder, node: string, temp: nat, luck: Luck, who: Attempt) returns (outcome: Outcome)
      requires Stands(who, Forget(dir, node), Reading) && Apart(luck, who, {temp}) && temp !in world.usedTemps
      modifies this
      ensures outcome in {Forgotten, Failed}
      ensures Stands(who, Forget(dir, node), Finishing(outcome)) && old(trace) <= trace
    {
      hide Step, PinsAt, IsAccount;
      ghost var op := Forget(dir, node);
      Meanwhile(luck.others(2), who, op, Reading, {temp});
      ReadingStep(world, who, op, NoKey());
      var pins := PinsAt(files, dir);
      if luck.fails(2) {
        Goes(Fail(who), op, Reading, Finishing(Failed));
        return Failed;
      } else if pins.None? {
        outcome := Failed;
      } else if node !in pins.value {
        outcome := Forgotten;
      } else {
        ghost var goal := NewPins(pins.value, pins.value - {node}, None);
        Goes(Advance(who, NoKey(), 0), op, Reading, Staging(goal));
        var link := PublishPrivate(PinFile(dir), Pins(pins.value - {node}), false, temp, luck, 20, who, op, goal,
                                   {temp});
        return if link == Published then Forgotten else Failed;
      }
      Goes(Advance(who, NoKey(), 0), op, Reading, Finishing(outcome));
    }

    /** A call that returned this put no file in place. */
    lemma ReturnedNothing(who: Attempt, op: Op, outcome: Outcome)
      requires Over(who, op, outcome)
      requires outcome.Refused? || outcome.PinIs? || (outcome.Failed? && !op.Adopt?)
      ensures !LinkedBy(world.log, who, true) && !LinkedBy(world.log, who, false)
    {
      hide Run, Sound, LinkedBy;
      OutcomesAreTrue(first, trace, world.log[|world.log| - 1]);
    }

    // -------------------------------------------------------------------------------------------
    // Adopting a legacy key
    // -------------------------------------------------------------------------------------------

    /** Copies key and pins of the legacy folder, once: the pins first and the key last. */
    method AdoptLegacyKey(target: Folder, legacy: Folder, node: string, temp: nat, temp': nat, luck: Luck, who: Attempt)
      returns (r: Option<Outcome>)
      requires MayBegin(who, luck, {temp, temp'}) && temp != temp'
      modifies this
      ensures Ended(who, Adopt(target, legacy, node), r) && old(trace) <= trace
      ensures r.Some? ==> r.value.Copied? || r.value == Failed
      ensures r.Some? ==> (r.value == Copied(true) <==> LinkedBy(world.log, who, true))
      ensures r == Some(Copied(true)) ==>
                KeyAt(files, target).Some? && KeyAt(files, target) == KeyAt(files, legacy)
    {
      hide Step, PinsAt, KeyAt, IsAccount;
      var op := Adopt(target, legacy, node);
      Begins(who, op);
      Meanwhile(luck.others(0), who, op, Starting, {temp, temp'});
      LegacySteps(world, who, op, map[]);
      if KeyFile(target) in files || KeyFile(legacy) !in files || target == legacy {
        Returns(op, Starting, Advance(who, NoKey(), 0), Copied(false));
        r := Some(Copied(false));
      } else {
        Goes(Advance(who, NoKey(), 0), op, Starting, WaitingLegacy);
        var held: Option<(Key, PinTable)>;
        r, held := ReadLegacyFolder(target, legacy, node, luck, who, {temp, temp'});
        if held.Some? {
          r := WriteTarget(target, legacy, node, held.value.0, held.value.1, temp, temp', luck, who);
        }
      }
      if r.Some? {
        ReturnedCopyIsTrue(who, op, r.value);
      }
    }

    /** What the legacy folder holds for this node, read under its lock; otherwise the call is over or waits. */
    method ReadLegacyFolder(target: Folder, legacy: Folder, node: string, luck: Luck, who: Attempt,
                            ghost temps: set<nat>)
      returns (r: Option<Outcome>, held: Option<(Key, PinTable)>)
      requires Stands(who, Adopt(target, legacy, node), WaitingLegacy)
      requires Apart(luck, who, temps) && temps !! world.usedTemps
      modifies this
      ensures old(trace) <= trace && temps !! world.usedTemps
      ensures if held.Some? then Stands(who, Adopt(target, legacy, node), WaitingTarget(held.value.0, held.value.1))
              else Ended(who, Adopt(target, legacy, node), r) && (r.Some? ==> r.value == Copied(false))
    {
      hide Step, PinsAt, KeyAt, IsAccount, Sound;
      ghost var op := Adopt(target, legacy, node);
      held := None;
      Meanwhile(luck.others(2), who, op, WaitingLegacy, temps);
      LegacySteps(world, who, op, map[]);
      if luck.fails(2) {
        Returns(op, WaitingLegacy, Fail(who), Copied(false));
        return Some(Copied(false)), None;
      }
      if legacy in world.locks {
        return None, None;
      }
      Goes(Advance(who, NoKey(), 0), op, WaitingLegacy, ReadingLegacyPins);
      held := ReadLegacyUnderLock(target, legacy, node, luck, who, temps);
      r := if held.Some? then None else Some(Copied(false));
    }

    /** Anything wrong there copies nothing. */
    method ReadLegacyUnderLock(target: Folder, legacy: Folder, node: string, luck: Luck, who: Attempt,
                               ghost temps: set<nat>)
      returns (held: Option<(Key, PinTable)>)
      requires Stands(who, Adopt(target, legacy, node), ReadingLegacyPins)
      requires Apart(luck, who, temps) && temps !! world.usedTemps
      modifies this
      ensures old(trace) <= trace && temps !! world.usedTemps
      ensures if held.Some? then Stands(who, Adopt(target, legacy, node), WaitingTarget(held.value.0, held.value.1))
              else Over(who, Adopt(target, legacy, node), Copied(false))
    {
      hide Step, PinsAt, KeyAt, IsAccount, Sound;
      ghost var op := Adopt(target, legacy, node);
      Meanwhile(luck.others(3), who, op, ReadingLegacyPins, temps);
      LegacySteps(world, who, op, map[]);
      var pins := PinsAt(files, legacy);
      if luck.fails(3) || pins.None? || node !in pins.value {
        Returns(op, ReadingLegacyPins, if luck.fails(3) then Fail(who) else Advance(who, NoKey(), 0), Copied(false));
        return None;
      }
      Goes(Advance(who, NoKey(), 0), op, ReadingLegacyPins, ReadingLegacyKey(pins.value));
      Meanwhile(luck.others(4), who, op, ReadingLegacyKey(pins.value), temps);
      LegacySteps(world, who, op, pins.value);
      var key := KeyAt(files, legacy);
      if luck.fails(4) || key.None? {
        Returns(op, ReadingLegacyKey(pins.value), if luck.fails(4) then Fail(who) else Advance(who, NoKey(), 0),
                Copied(false));
        return None;
      }
      Goes(Advance(who, NoKey(), 0), op, ReadingLegacyKey(pins.value), WaitingTarget(key.value, pins.value));
      held := Some((key.value, pins.value));
    }

    /** Writes the pins, where there are none, and then the key. */
    method WriteTarget(target: Folder, legacy: Folder, node: string, key: Key, pins: PinTable, temp: nat, temp': nat,
                       luck: Luck, who: Attempt)
      returns (r: Option<Outcome>)
      requires Stands(who, Adopt(target, legacy, node), WaitingTarget(key, pins)) && temp != temp'
      requires Apart(luck, who, {temp, temp'}) && {temp, temp'} !! world.usedTemps
      modifies this
      ensures Ended(who, Adopt(target, legacy, node), r) && old(trace) <= trace
      ensures r.Some? ==> r.value.Copied? || r.value == Failed
    {
      hide Step, PinsAt, KeyAt, IsAccount, Sound;
      ghost var op, temps := Adopt(target, legacy, node), {temp, temp'};
      Meanwhile(luck.others(5), who, op, WaitingTarget(key, pins), temps);
      TargetSteps(world, who, op, key, pins);
      if luck.fails(5) {
        Returns(op, WaitingTarget(key, pins), Fail(who), Failed);
        return Some(Failed);
      }
      if target in world.locks {
        return None;
      }
      Goes(Advance(who, NoKey(), 0), op, WaitingTarget(key, pins), Rechecking(key, pins));
      var outcome := WriteUnderLock(target, legacy, node, key, pins, temp, temp', luck, who);
      Concludes(who, op, outcome, luck, {});
      r := Some(outcome);
    }

    /** Another attempt may have copied, or started afresh, before the target's lock was taken. */
    method WriteUnderLock(target: Folder, legacy: Folder, node: string, key: Key, pins: PinTable, temp: nat, temp': nat,
                          luck: Luck, who: Attempt)
      returns (outcome: Outcome)
      requires Stands(who, Adopt(target, legacy, node), Rechecking(key, pins)) && temp != temp'
      requires Apart(luck, who, {temp, temp'}) && {temp, temp'} !! world.usedTemps
      modifies this
      ensures Stands(who, Adopt(target, legacy, node), Finishing(outcome)) && old(trace) <= trace
      ensures outcome.Copied? || outcome == Failed
    {
      hide Step, IsAccount, Sound, AfterTargetRead;
      ghost var op, temps := Adopt(target, legacy, node), {temp, temp'};
      Meanwhile(luck.others(6), who, op, Rechecking(key, pins), temps);
      TargetSteps(world, who, op, key, pins);
      if !luck.fails(6) && KeyFile(target) in files {
        Goes(Advance(who, NoKey(), 0), op, Rechecking(key, pins), Finishing(Copied(false)));
        return Copied(false);
      }
      Goes(if luck.fails(6) then Fail(who) else Advance(who, NoKey(), 0), op, Rechecking(key, pins),
           ReadingTarget(key, pins));
      var ready := PinsFirst(target, legacy, node, key, pins, temp, luck, who, temps);
      if !ready {
        return Failed;
      }
      outcome := KeyLast(target, legacy, node, key, temp', luck, who);
    }

    /** Writes the pins where the target has none: a key without them would look like a first contact. */
    method PinsFirst(target: Folder, legacy: Folder, node: string, key: Key, pins: PinTable, temp: nat, luck: Luck,
                     who: Attempt, ghost temps: set<nat>)
      returns (ready: bool)
      requires Stands(who, Adopt(target, legacy, node), ReadingTarget(key, pins))
      requires Apart(luck, who, temps) && temps !! world.usedTemps && temp in temps
      modifies this
      ensures old(trace) <= trace && temps - {temp} !! world.usedTemps
      ensures Stands(who, Adopt(target, legacy, node), if ready then Staging(NewKey(key)) else Finishing(Failed))
    {
      hide Step, PinsAt, IsAccount, Sound, AfterPublication;
      ghost var op := Adopt(target, legacy, node);
      Meanwhile(luck.others(7), who, op, ReadingTarget(key, pins), temps);
      TargetSteps(world, who, op, key, pins);
      var existing := PinsAt(files, target);
      if luck.fails(7) || existing.None? {
        Goes(if luck.fails(7) then Fail(who) else Advance(who, NoKey(), 0), op, ReadingTarget(key, pins),
             Finishing(Failed));
        return false;
      }
      if existing.value != map[] {
        Goes(Advance(who, NoKey(), 0), op, ReadingTarget(key, pins), Staging(NewKey(key)));
        return true;
      }
      ghost var goal := NewPins(existing.value, pins, Some(key));
      Goes(Advance(who, NoKey(), 0), op, ReadingTarget(key, pins), Staging(goal));
      var link := PublishPrivate(PinFile(target), Pins(pins), false, temp, luck, 20, who, op, goal, temps);
      AdoptedPins(op, goal, link);
      ready := link == Published;
    }

    method KeyLast(target: Folder, legacy: Folder, node: string, key: Key, temp: nat, luck: Luck, who: Attempt)
      returns (outcome: Outcome)
      requires Stands(who, Adopt(target, legacy, node), Staging(NewKey(key)))
      requires Apart(luck, who, {temp}) && temp !in world.usedTemps
      modifies this
      ensures Stands(who, Adopt(target, legacy, node), Finishing(outcome)) && old(trace) <= trace
      ensures outcome.Copied? || outcome == Failed
    {
      hide Step, IsAccount, Sound, AfterPublication;
      ghost var op := Adopt(target, legacy, node);
      var link := PublishPrivate(KeyFile(target), Plain(Encode(key)), true, temp, luck, 10, who, op, NewKey(key),
                                 {temp});
      AdoptedKey(op, key, link);
      outcome := if link == Broke then Failed else Copied(link == Published);
    }

    lemma ReturnedCopyIsTrue(who: Attempt, op: Op, outcome: Outcome)
      requires Over(who, op, outcome) && op.Adopt?
      ensures outcome == Copied(true) <==> LinkedBy(world.log, who, true)
      ensures outcome == Copied(true) ==>
                KeyAt(files, op.dir).Some? && KeyAt(files, op.dir) == KeyAt(files, op.legacy)
    {
      hide Run, Sound, LinkedBy, KeyAt;
      OutcomesAreTrue(first, trace, world.log[|world.log| - 1]);
      if outcome == Copied(true) {
        CopiesAreTheLegacyKey(first, trace, who, op);
      }
    }
  }

  /** A pin is found to be the key, or another, by the bytes the two spell. */
  lemma PinVerdictIsAboutBytes(files: Files, dir: Folder, node: string, key: string, outcome: Outcome)
    requires KnowsPins(files, Running(PinHub(dir, node, key), Finishing(outcome))) && ValidPin(node, key)
    ensures outcome in {Pinned, Refused} ==>
              && PinsAt(files, dir).Some? && node in PinsAt(files, dir).value
              && Decode(key).Some? && (outcome == Pinned <==> Decode(PinsAt(files, dir).value[node]) == Decode(key))
  {
    hide PinsAt, EqualIgnoringCase, Decode, IsHexText, ValidPin;
    ValidPinsAreHex(node, key);
    SameDigitsSameBytes(key, key);
    PinnedMeansSameBytes(files, dir, node, key);
  }

  // ---------------------------------------------------------------------------------------------
  // Single steps of an adoption
  // ---------------------------------------------------------------------------------------------

  lemma AdoptedPins(op: Op, goal: Goal, link: Link)
    requires op.Adopt? && goal.NewPins? && goal.keyToFollow.Some?
    ensures AfterPublication(op, goal, link) ==
            if link == Broke then Finishing(Failed) else Staging(NewKey(goal.keyToFollow.value))
  {}

  lemma AdoptedKey(op: Op, key: Key, link: Link)
    requires op.Adopt?
    ensures AfterPublication(op, NewKey(key), link) ==
            Finishing(if link == Broke then Failed else Copied(link == Published))
  {}

  /** A step that leaves the files as they are. */
  predicate IsQuiet(w: World, e: Effect, next: Stage)
  {
    e.files == w.files && e.next == Some(next) && e.temps == {}
  }

  lemma LegacySteps(w: World, who: Attempt, op: Op, pins: PinTable)
    requires op.Adopt?
    ensures var go, over := Advance(who, NoKey(), 0), Return(w, who, op, Copied(false));
      && (if KeyFile(op.dir) in w.files || KeyFile(op.legacy) !in w.files || op.dir == op.legacy
          then Step(w, go, op, Starting) == over else IsQuiet(w, Step(w, go, op, Starting), WaitingLegacy))
      && Step(w, Fail(who), op, WaitingLegacy) == over
      && IsQuiet(w, Step(w, go, op, WaitingLegacy), if op.legacy in w.locks then WaitingLegacy else ReadingLegacyPins)
      && Step(w, Fail(who), op, ReadingLegacyPins) == over
      && (var read := PinsAt(w.files, op.legacy);
          if read.Some? && op.node in read.value
          then IsQuiet(w, Step(w, go, op, ReadingLegacyPins), ReadingLegacyKey(read.value))
          else Step(w, go, op, ReadingLegacyPins) == over)
      && Step(w, Fail(who), op, ReadingLegacyKey(pins)) == over
      && (var read := KeyAt(w.files, op.legacy);
          if read.Some? then IsQuiet(w, Step(w, go, op, ReadingLegacyKey(pins)), WaitingTarget(read.value, pins))
          else Step(w, go, op, ReadingLegacyKey(pins)) == over)
  {
    hide PinsAt, KeyAt, Released;
  }

  lemma TargetSteps(w: World, who: Attempt, op: Op, key: Key, pins: PinTable)
    requires op.Adopt?
    ensures var go := Advance(who, NoKey(), 0);
      && Step(w, Fail(who), op, WaitingTarget(key, pins)) == Return(w, who, op, Failed)
      && IsQuiet(w, Step(w, go, op, WaitingTarget(key, pins)),
                 if op.dir in w.locks then WaitingTarget(key, pins) else Rechecking(key, pins))
      && IsQuiet(w, Step(w, Fail(who), op, Rechecking(key, pins)), ReadingTarget(key, pins))
      && IsQuiet(w, Step(w, go, op, Rechecking(key, pins)),
                 if KeyFile(op.dir) in w.files then Finishing(Copied(false)) else ReadingTarget(key, pins))
      && IsQuiet(w, Step(w, Fail(who), op, ReadingTarget(key, pins)), Finishing(Failed))
      && IsQuiet(w, Step(w, go, op, ReadingTarget(key, pins)), AfterTargetRead(w, op, key, pins))
  {
    hide AfterTargetRead, Released;
  }
}
