/**
 * The trust store of src/noise_store.rs as a protocol between attempts that run side by side: each
 * attempt is one call of one operation, in some process, that locks a folder, reads, stages a file,
 * links or renames it into place, cleans up and returns. Attempts interleave step by step; any file
 * operation may fail, and any attempt may crash between two steps.
 */
module TrustStore {
  import opened Wrappers
  import opened Text
  import opened Hex

  /** Names one attempt; no two attempts share one. */
  type Attempt = nat

  type Folder = nat

  type PinTable = map<string, string>

  datatype Path = KeyFile(dir: Folder) | PinFile(dir: Folder) | Temp(name: nat)

  /** A text that is no JSON object of strings, one that is, or a file cut short while being written. */
  datatype Content = Plain(text: string) | Pins(table: PinTable) | Torn

  type Files = map<Path, Content>

  datatype Op =
    | LoadOrCreate(dir: Folder, locks: bool)
    | PinHub(dir: Folder, node: string, key: string)
    | LoadPin(dir: Folder, node: string)
    | Forget(dir: Folder, node: string)
    | Adopt(dir: Folder, legacy: Folder, node: string)

  datatype Outcome =
    | KeyIs(key: Key)
    | Pinned
    | Refused
    | PinIs(pin: Option<string>)
    | Forgotten
    | Copied(done: bool)
    | Failed

  /** What an attempt publishes: a key, exclusively, or a whole new pin table in place of the old one. */
  datatype Goal =
    | NewKey(key: Key)
    | NewPins(was: PinTable, now: PinTable, keyToFollow: Option<Key>)

  datatype Link = Published | Existed | Broke

  /** Where an attempt stands. */
  datatype Stage =
    | Starting
    | WaitingLegacy
    | ReadingLegacyPins
    | ReadingLegacyKey(pins: PinTable)
    | WaitingTarget(key: Key, pins: PinTable)
    | Rechecking(key: Key, pins: PinTable)
    | ReadingTarget(key: Key, pins: PinTable)
    | Reading
    | Staging(goal: Goal)
    | Writing(goal: Goal, temp: nat)
    | Staged(goal: Goal, temp: nat)
    | Cleaning(goal: Goal, temp: nat, link: Link)
    | Rereading
    | Finishing(outcome: Outcome)

  datatype Running = Running(op: Op, stage: Stage)

  datatype Event =
    | Linked(who: Attempt, op: Op, path: Path)
    | Returned(who: Attempt, op: Op, outcome: Outcome)

  datatype World = World(
    files: Files,
    locks: map<Folder, Attempt>,
    running: map<Attempt, Running>,
    usedTemps: set<nat>,
    usedAttempts: set<Attempt>,
    log: seq<Event>)

  /** One step of one attempt. `key` and `temp` are what it draws at random. */
  datatype Action =
    | Begin(who: Attempt, op: Op)
    | Advance(who: Attempt, key: Key, temp: nat)
    | Fail(who: Attempt)
    | Crash(who: Attempt)

  // ---------------------------------------------------------------------------------------------
  // Reading the folder
  // ---------------------------------------------------------------------------------------------

  function KeyIn(content: Content): Option<Key>
  {
    if content.Plain? then DecodeKey(content.text) else None
  }

  function KeyAt(files: Files, dir: Folder): Option<Key>
  {
    if KeyFile(dir) in files then KeyIn(files[KeyFile(dir)]) else None
  }

  predicate ValidPin(node: string, key: string)
  {
    !IsBlank(node) && |key| == 64 && forall c :: c in key ==> IsHexDigit(c)
  }

  predicate ValidTable(table: PinTable)
  {
    forall node :: node in table ==> ValidPin(node, table[node])
  }

  /** The pins of a folder: none when there is no file, an error when the file is not a table of valid pins. */
  function PinsAt(files: Files, dir: Folder): Option<PinTable>
  {
    if PinFile(dir) !in files then Some(map[])
    else
      match files[PinFile(dir)]
      case Pins(table) => if ValidTable(table) then Some(table) else None
      case _ => None
  }

  function LockOf(op: Op): Option<Folder>
  {
    if op.LoadOrCreate? && !op.locks then None else Some(op.dir)
  }

  /** The folder whose lock an attempt holds. */
  function Holds(r: Running): Option<Folder>
  {
    match r.stage
    case Starting | WaitingLegacy | WaitingTarget(_, _) => None
    case ReadingLegacyPins | ReadingLegacyKey(_) => if r.op.Adopt? then Some(r.op.legacy) else None
    case _ => LockOf(r.op)
  }

  function Target(op: Op, goal: Goal): Path
  {
    if goal.NewKey? then KeyFile(op.dir) else PinFile(op.dir)
  }

  function ContentOf(goal: Goal): Content
  {
    match goal
    case NewKey(key) => Plain(Encode(key))
    case NewPins(_, now, _) => Pins(now)
  }

  // ---------------------------------------------------------------------------------------------
  // Steps
  // ---------------------------------------------------------------------------------------------

  /** What one step does: the files and locks after it, where the attempt stands, and what it logs. */
  datatype Effect = Effect(
    files: Files,
    locks: map<Folder, Attempt>,
    next: Option<Stage>,
    events: seq<Event>,
    temps: set<nat>)

  function Move(w: World, next: Stage): Effect
  {
    Effect(w.files, w.locks, Some(next), [], {})
  }

  function Released(w: World, who: Attempt): map<Folder, Attempt>
  {
    map d | d in w.locks && w.locks[d] != who :: w.locks[d]
  }

  /** The attempt returns, dropping the lock it held. */
  function Return(w: World, who: Attempt, op: Op, outcome: Outcome): Effect
  {
    Effect(w.files, Released(w, who), None, [Returned(who, op, outcome)], {})
  }

  /** Takes the lock of a folder when nobody holds it; otherwise the attempt keeps waiting. */
  function Lock(w: World, who: Attempt, stage: Stage, dir: Folder, next: Stage): Effect
  {
    if dir in w.locks then Move(w, stage) else Move(w, next).(locks := w.locks[dir := who])
  }

  function Start(w: World, who: Attempt, op: Op): Effect
  {
    match op
    case LoadOrCreate(dir, locks) => if locks then Lock(w, who, Starting, dir, Reading) else Move(w, Reading)
    case PinHub(dir, node, key) =>
      if ValidPin(node, key) then Lock(w, who, Starting, dir, Reading) else Return(w, who, op, Failed)
    case Adopt(dir, legacy, _) =>
      if KeyFile(dir) in w.files || KeyFile(legacy) !in w.files || dir == legacy then Return(w, who, op, Copied(false))
      else Move(w, WaitingLegacy)
    case _ => Lock(w, who, Starting, op.dir, Reading)
  }

  /** The one read of an operation that is not an adoption, and what it decides. */
  function AfterRead(w: World, op: Op, key: Key): (stage: Stage)
    ensures stage.Staging? || stage.Finishing?
  {
    match op
    case LoadOrCreate(dir, _) =>
      if KeyFile(dir) !in w.files then Staging(NewKey(key))
      else
        (match KeyAt(w.files, dir)
         case Some(k) => Finishing(KeyIs(k))
         case None => Finishing(Failed))
    case PinHub(dir, node, pin) =>
      (match PinsAt(w.files, dir)
       case None => Finishing(Failed)
       case Some(table) =>
         if node !in table then Staging(NewPins(table, table[node := pin], None))
         else if EqualIgnoringCase(table[node], pin) then Finishing(Pinned)
         else Finishing(Refused))
    case LoadPin(dir, node) =>
      (match PinsAt(w.files, dir)
       case None => Finishing(Failed)
       case Some(table) => Finishing(PinIs(if node in table then Some(table[node]) else None)))
    case Forget(dir, node) =>
      (match PinsAt(w.files, dir)
       case None => Finishing(Failed)
       case Some(table) =>
         if node !in table then Finishing(Forgotten) else Staging(NewPins(table, table - {node}, None)))
    case Adopt(_, _, _) => Finishing(Failed)
  }

  /** The pins go first and the key last. */
  function AfterTargetRead(w: World, op: Op, key: Key, pins: PinTable): (stage: Stage)
    ensures stage.Staging? || stage.Finishing?
  {
    match PinsAt(w.files, op.dir)
    case None => Finishing(Failed)
    case Some(existing) =>
      if existing == map[] then Staging(NewPins(existing, pins, Some(key))) else Staging(NewKey(key))
  }

  /** Puts the staged file in place: a key by hard link, never over another; pins by rename, over the old. */
  function Place(w: World, who: Attempt, op: Op, goal: Goal, temp: nat): Effect
  {
    var target := Target(op, goal);
    if Temp(temp) !in w.files then Move(w, Cleaning(goal, temp, Broke))
    else if goal.NewKey? then
      if target in w.files then Move(w, Cleaning(goal, temp, Existed))
      else
        Move(w, Cleaning(goal, temp, Published)).(
          files := w.files[target := w.files[Temp(temp)]], events := [Linked(who, op, target)])
    else
      Move(w, Cleaning(goal, temp, Published)).(
        files := w.files[target := w.files[Temp(temp)]] - {Temp(temp)}, events := [Linked(who, op, target)])
  }

  function AfterPublication(op: Op, goal: Goal, link: Link): (stage: Stage)
    ensures stage.Staging? || stage.Rereading? || stage.Finishing?
  {
    if link == Broke then Finishing(Failed)
    else
      match op
      case LoadOrCreate(_, _) =>
        if link == Existed then Rereading else if goal.NewKey? then Finishing(KeyIs(goal.key)) else Finishing(Failed)
      case Adopt(_, _, _) =>
        if goal.NewKey? then Finishing(Copied(link == Published))
        else if goal.keyToFollow.Some? then Staging(NewKey(goal.keyToFollow.value))
        else Finishing(Failed)
      case PinHub(_, _, _) => Finishing(Pinned)
      case Forget(_, _) => Finishing(Forgotten)
      case LoadPin(_, _) => Finishing(Failed)
  }

  /** The steps of an adoption in the folder it copies from. */
  function ReadLegacy(w: World, who: Attempt, op: Op, stage: Stage): Effect
    requires op.Adopt? && (stage.ReadingLegacyPins? || stage.ReadingLegacyKey?)
  {
    if stage.ReadingLegacyPins? then
      match PinsAt(w.files, op.legacy)
      case Some(pins) => if op.node in pins then Move(w, ReadingLegacyKey(pins)) else Return(w, who, op, Copied(false))
      case None => Return(w, who, op, Copied(false))
    else
      match KeyAt(w.files, op.legacy)
      case Some(k) => Move(w, WaitingTarget(k, stage.pins)).(locks := Released(w, who))
      case None => Return(w, who, op, Copied(false))
  }

  /** The next step, going well. */
  function Proceed(w: World, who: Attempt, op: Op, stage: Stage, key: Key, temp: nat): Effect
  {
    match stage
    case Starting => Start(w, who, op)
    case WaitingLegacy => if op.Adopt? then Lock(w, who, stage, op.legacy, ReadingLegacyPins) else Move(w, stage)
    case ReadingLegacyPins => if op.Adopt? then ReadLegacy(w, who, op, stage) else Move(w, stage)
    case ReadingLegacyKey(_) => if op.Adopt? then ReadLegacy(w, who, op, stage) else Move(w, stage)
    case WaitingTarget(k, pins) => Lock(w, who, stage, op.dir, Rechecking(k, pins))
    case Rechecking(k, pins) =>
      Move(w, if KeyFile(op.dir) in w.files then Finishing(Copied(false)) else ReadingTarget(k, pins))
    case ReadingTarget(k, pins) => Move(w, AfterTargetRead(w, op, k, pins))
    case Reading => Move(w, AfterRead(w, op, key))
    case Staging(goal) =>
      if Temp(temp) in w.files then Move(w, Finishing(Failed))
      else if temp in w.usedTemps then Move(w, stage)
      else Move(w, Writing(goal, temp)).(files := w.files[Temp(temp) := Torn], temps := {temp})
    case Writing(goal, t) => Move(w, Staged(goal, t)).(files := w.files[Temp(t) := ContentOf(goal)])
    case Staged(goal, t) => Place(w, who, op, goal, t)
    case Cleaning(goal, t, link) => Move(w, AfterPublication(op, goal, link)).(files := w.files - {Temp(t)})
    case Rereading =>
      Move(w,
           if KeyAt(w.files, op.dir).Some? then Finishing(KeyIs(KeyAt(w.files, op.dir).value)) else Finishing(Failed))
    case Finishing(outcome) => Return(w, who, op, outcome)
  }

  /** The next step, when its file operation fails for a reason of its own. */
  function GoesWrong(w: World, who: Attempt, op: Op, stage: Stage): Effect
  {
    match stage
    case Starting => Return(w, who, op, if op.Adopt? then Copied(false) else Failed)
    case WaitingLegacy => Return(w, who, op, Copied(false))
    case ReadingLegacyPins => Return(w, who, op, Copied(false))
    case ReadingLegacyKey(_) => Return(w, who, op, Copied(false))
    case WaitingTarget(_, _) => Return(w, who, op, Failed)
    case Rechecking(k, pins) => Move(w, ReadingTarget(k, pins))
    case Writing(_, t) => Move(w, Finishing(Failed)).(files := w.files - {Temp(t)})
    case Staged(goal, t) => Move(w, Cleaning(goal, t, Broke))
    case Cleaning(goal, _, link) => Move(w, AfterPublication(op, goal, link))
    case Finishing(outcome) => Return(w, who, op, outcome)
    case _ => Move(w, Finishing(Failed))
  }

  /** The step of an attempt at work. A crash drops its lock and changes no file. */
  function Step(w: World, a: Action, op: Op, stage: Stage): Effect
  {
    match a
    case Advance(who, key, temp) => Proceed(w, who, op, stage, key, temp)
    case Fail(who) => GoesWrong(w, who, op, stage)
    case _ => Effect(w.files, Released(w, a.who), None, [], {})
  }

  function Apply(w: World, who: Attempt, op: Op, e: Effect): World
  {
    World(e.files, e.locks,
          if e.next.Some? then w.running[who := Running(op, e.next.value)] else w.running - {who},
          w.usedTemps + e.temps, w.usedAttempts, w.log + e.events)
  }

  function Do(w: World, a: Action): World
  {
    if a.Begin? then
      if a.who in w.usedAttempts then w
      else w.(usedAttempts := w.usedAttempts + {a.who}, running := w.running[a.who := Running(a.op, Starting)])
    else if a.who !in w.running then w
    else Apply(w, a.who, w.running[a.who].op, Step(w, a, w.running[a.who].op, w.running[a.who].stage))
  }

  function Run(w: World, actions: seq<Action>): World
    decreases |actions|
  {
    if actions == [] then w else Do(Run(w, actions[..|actions| - 1]), actions[|actions| - 1])
  }

  /** Any folders, nobody at work yet. */
  ghost predicate Initial(w: World)
  {
    w.locks == map[] && w.running == map[] && w.usedAttempts == {} && w.log == []
  }

  // ---------------------------------------------------------------------------------------------
  // A published key never changes
  // ---------------------------------------------------------------------------------------------

  /** The one step that puts a file in place under its trusted name. */
  predicate Places(w: World, a: Action, r: Running)
  {
    a.Advance? && r.stage.Staged? && Temp(r.stage.temp) in w.files
  }

  ghost predicate SameAt(files: Files, files': Files, path: Path)
  {
    (path in files <==> path in files') && (path in files ==> files[path] == files'[path])
  }

  /** A step that touches no file, and at most returns without having done anything. */
  predicate TouchesNothing(w: World, who: Attempt, op: Op, e: Effect)
  {
    && e.files == w.files && e.temps == {}
    && (|| e.events == []
        || (e.next == None && e.events == [Returned(who, op, Failed)])
        || (e.next == None && e.events == [Returned(who, op, Copied(false))]))
  }

  lemma StartTouchesNothing(w: World, who: Attempt, op: Op)
    ensures TouchesNothing(w, who, op, Start(w, who, op))
  {
    hide ValidPin, Released;
  }

  lemma ReadLegacyTouchesNothing(w: World, who: Attempt, op: Op, stage: Stage)
    requires op.Adopt? && (stage.ReadingLegacyPins? || stage.ReadingLegacyKey?)
    ensures TouchesNothing(w, who, op, ReadLegacy(w, who, op, stage))
  {
    hide PinsAt, KeyAt, Released;
  }

  /** Neither of an attempt's steps before it works in its own folder touches a file. */
  lemma EarlyStepsTouchNothing(w: World, who: Attempt, op: Op, stage: Stage)
    ensures TouchesNothing(w, who, op, Start(w, who, op))
    ensures op.Adopt? && (stage.ReadingLegacyPins? || stage.ReadingLegacyKey?) ==>
              TouchesNothing(w, who, op, ReadLegacy(w, who, op, stage))
  {
    hide Start, ReadLegacy, TouchesNothing;
    StartTouchesNothing(w, who, op);
    if op.Adopt? && (stage.ReadingLegacyPins? || stage.ReadingLegacyKey?) {
      ReadLegacyTouchesNothing(w, who, op, stage);
    }
  }

  /** Every other step leaves every trusted file as it is. */
  lemma StepLeavesFiles(w: World, a: Action, r: Running, path: Path)
    requires !a.Begin? && !Places(w, a, r) && !path.Temp?
    ensures SameAt(w.files, Step(w, a, r.op, r.stage).files, path)
  {
    hide KeyAt, PinsAt, AfterRead, AfterTargetRead, AfterPublication, ContentOf, Released, Target, Start, ReadLegacy;
    EarlyStepsTouchNothing(w, a.who, r.op, r.stage);
  }

  /** That one changes no trusted file but its target, and a key only where there was none. */
  lemma PlaceLeavesFiles(w: World, a: Action, r: Running, path: Path)
    requires Places(w, a, r) && !path.Temp?
    ensures var goal, target, e := r.stage.goal, Target(r.op, r.stage.goal), Step(w, a, r.op, r.stage);
      if path == target && (goal.NewPins? || target !in w.files)
      then path in e.files && e.files[path] == w.files[Temp(r.stage.temp)]
      else SameAt(w.files, e.files, path)
  {
  }

  lemma KeyStays(w: World, a: Action, dir: Folder)
    requires KeyFile(dir) in w.files
    ensures KeyFile(dir) in Do(w, a).files && Do(w, a).files[KeyFile(dir)] == w.files[KeyFile(dir)]
  {
    hide Step;
    if !a.Begin? && a.who in w.running {
      var r := w.running[a.who];
      if Places(w, a, r) {
        PlaceLeavesFiles(w, a, r, KeyFile(dir));
      } else {
        StepLeavesFiles(w, a, r, KeyFile(dir));
      }
    }
  }

  /** Once a folder has a key file, no sequence of steps of any attempts, locking or not, changes it. */
  lemma {:induction false} PublishedKeyNeverChanges(w: World, actions: seq<Action>, dir: Folder)
    requires KeyFile(dir) in w.files
    ensures KeyFile(dir) in Run(w, actions).files && Run(w, actions).files[KeyFile(dir)] == w.files[KeyFile(dir)]
    decreases |actions|
  {
    hide Do;
    if actions != [] {
      var most := actions[..|actions| - 1];
      PublishedKeyNeverChanges(w, most, dir);
      KeyStays(Run(w, most), actions[|actions| - 1], dir);
    }
  }

  // ---------------------------------------------------------------------------------------------
  // What each attempt is doing fits what it was asked
  // ---------------------------------------------------------------------------------------------

  predicate GoalFits(op: Op, goal: Goal)
  {
    match op
    case LoadOrCreate(_, _) => goal.NewKey?
    case PinHub(_, node, key) =>
      && goal.NewPins? && node !in goal.was && goal.now == goal.was[node := key]
      && ValidPin(node, key) && ValidTable(goal.was)
    case LoadPin(_, _) => false
    case Forget(_, node) => goal.NewPins? && node in goal.was && goal.now == goal.was - {node} && ValidTable(goal.was)
    case Adopt(_, _, node) =>
      goal.NewPins? ==> goal.was == map[] && node in goal.now && ValidTable(goal.now) && goal.keyToFollow.Some?
  }

  predicate OutcomeFits(op: Op, outcome: Outcome)
  {
    match outcome
    case Failed => true
    case KeyIs(_) => op.LoadOrCreate?
    case Pinned | Refused => op.PinHub?
    case PinIs(_) => op.LoadPin?
    case Forgotten => op.Forget?
    case Copied(_) => op.Adopt?
  }

  predicate Fits(r: Running)
  {
    match r.stage
    case Starting => true
    case WaitingLegacy | ReadingLegacyPins => r.op.Adopt?
    case ReadingLegacyKey(pins) => r.op.Adopt? && r.op.node in pins && ValidTable(pins)
    case WaitingTarget(_, pins) => r.op.Adopt? && r.op.node in pins && ValidTable(pins)
    case Rechecking(_, pins) => r.op.Adopt? && r.op.node in pins && ValidTable(pins)
    case ReadingTarget(_, pins) => r.op.Adopt? && r.op.node in pins && ValidTable(pins)
    case Reading => !r.op.Adopt? && (r.op.PinHub? ==> ValidPin(r.op.node, r.op.key))
    case Staging(goal) => GoalFits(r.op, goal)
    case Writing(goal, _) => GoalFits(r.op, goal)
    case Staged(goal, _) => GoalFits(r.op, goal)
    case Cleaning(goal, _, link) => GoalFits(r.op, goal) && (link == Existed ==> goal.NewKey?)
    case Rereading => r.op.LoadOrCreate?
    case Finishing(outcome) => OutcomeFits(r.op, outcome)
  }

  ghost predicate AllFit(w: World)
  {
    forall who :: who in w.running ==> Fits(w.running[who])
  }

  lemma ReadFits(w: World, op: Op, key: Key)
    requires !op.Adopt? && (op.PinHub? ==> ValidPin(op.node, op.key))
    ensures Fits(Running(op, AfterRead(w, op, key)))
  {
  }

  lemma PublicationFits(op: Op, goal: Goal, link: Link)
    requires GoalFits(op, goal) && (link == Existed ==> goal.NewKey?)
    ensures Fits(Running(op, AfterPublication(op, goal, link)))
  {
  }

  lemma TargetReadFits(w: World, op: Op, key: Key, pins: PinTable)
    requires op.Adopt? && op.node in pins && ValidTable(pins)
    ensures Fits(Running(op, AfterTargetRead(w, op, key, pins)))
  {
    hide ValidTable, PinsAt;
  }

  lemma ProceedFits(w: World, who: Attempt, r: Running, key: Key, temp: nat)
    requires Fits(r)
    ensures var e := Proceed(w, who, r.op, r.stage, key, temp); e.next.Some? ==> Fits(Running(r.op, e.next.value))
  {
    hide KeyAt, ValidTable, ValidPin, Target, AfterRead, AfterTargetRead, AfterPublication, ContentOf, Released,
         GoalFits, PinsAt;
    if r.stage.Reading? {
      ReadFits(w, r.op, key);
    } else if r.stage.ReadingTarget? {
      TargetReadFits(w, r.op, r.stage.key, r.stage.pins);
    } else if r.stage.Cleaning? {
      PublicationFits(r.op, r.stage.goal, r.stage.link);
    } else if r.stage.ReadingLegacyPins? {
      PinsAtAreValid(w.files, r.op.legacy);
    }
  }

  lemma StepFits(w: World, a: Action, r: Running)
    requires !a.Begin? && Fits(r)
    ensures var e := Step(w, a, r.op, r.stage); e.next.Some? ==> Fits(Running(r.op, e.next.value))
  {
    hide Proceed, KeyAt, ValidTable, ValidPin, Target, AfterPublication, ContentOf, Released;
    if a.Advance? {
      ProceedFits(w, a.who, r, a.key, a.temp);
    } else if r.stage.Cleaning? {
      PublicationFits(r.op, r.stage.goal, r.stage.link);
    }
  }

  lemma PinsAtAreValid(files: Files, dir: Folder)
    ensures PinsAt(files, dir).Some? ==> ValidTable(PinsAt(files, dir).value)
  {
  }

  lemma FittingKept(w: World, a: Action)
    requires AllFit(w)
    ensures AllFit(Do(w, a))
  {
    hide Step, GoalFits, OutcomeFits;
    if !a.Begin? && a.who in w.running {
      StepFits(w, a, w.running[a.who]);
    }
  }

  // ---------------------------------------------------------------------------------------------
  // Locks exclude
  // ---------------------------------------------------------------------------------------------

  ghost predicate LocksHeld(w: World)
  {
    forall who :: who in w.running && Holds(w.running[who]).Some? ==>
      Holds(w.running[who]).value in w.locks && w.locks[Holds(w.running[who]).value] == who
  }

  lemma PlaceTakesNoLock(w: World, who: Attempt, r: Running)
    ensures r.stage.Staged? ==> Place(w, who, r.op, r.stage.goal, r.stage.temp).locks == w.locks
  {
    hide Target;
  }

  /** A step takes no lock from another attempt. */
  lemma StepRobsNobody(w: World, a: Action, r: Running)
    ensures forall d :: d in w.locks && w.locks[d] != a.who ==>
      d in Step(w, a, r.op, r.stage).locks && Step(w, a, r.op, r.stage).locks[d] == w.locks[d]
  {
    hide PinsAt, KeyAt, ContentOf, AfterRead, AfterTargetRead, AfterPublication, ValidPin, Target, Place;
    PlaceTakesNoLock(w, a.who, r);
  }

  lemma StepHolds(w: World, a: Action, r: Running)
    requires !a.Begin? && Fits(r)
    requires Holds(r).Some? ==> Holds(r).value in w.locks && w.locks[Holds(r).value] == a.who
    ensures var e := Step(w, a, r.op, r.stage);
      e.next.Some? && Holds(Running(r.op, e.next.value)).Some? ==>
        var d := Holds(Running(r.op, e.next.value)).value;
        d in e.locks && e.locks[d] == a.who
  {
    hide PinsAt, KeyAt, ContentOf, AfterRead, AfterTargetRead, AfterPublication, ValidPin, GoalFits, ValidTable,
         OutcomeFits;
  }

  lemma LocksKept(w: World, a: Action)
    requires LocksHeld(w) && AllFit(w)
    ensures LocksHeld(Do(w, a))
  {
    hide Step, Holds, Fits;
    if !a.Begin? && a.who in w.running {
      StepRobsNobody(w, a, w.running[a.who]);
      StepHolds(w, a, w.running[a.who]);
    } else if a.Begin? {
      StartersHoldNothing(a.op);
    }
  }

  lemma StartersHoldNothing(op: Op)
    ensures Holds(Running(op, Starting)) == None
  {
  }

  // ---------------------------------------------------------------------------------------------
  // Each attempt owns its staging file
  // ---------------------------------------------------------------------------------------------

  function TempOf(stage: Stage): Option<nat>
  {
    match stage
    case Writing(_, t) => Some(t)
    case Staged(_, t) => Some(t)
    case Cleaning(_, t, _) => Some(t)
    case _ => None
  }

  /** What an attempt knows of its own staging file. */
  predicate TempFits(files: Files, usedTemps: set<nat>, stage: Stage)
  {
    match stage
    case Writing(_, t) => t in usedTemps
    case Staged(goal, t) => t in usedTemps && Temp(t) in files && files[Temp(t)] == ContentOf(goal)
    case Cleaning(_, t, _) => t in usedTemps
    case _ => true
  }

  ghost predicate TempsOwned(w: World)
  {
    && (forall who :: who in w.running ==> TempFits(w.files, w.usedTemps, w.running[who].stage))
    && (forall x, y :: x in w.running && y in w.running && x != y && TempOf(w.running[x].stage).Some? ==>
          TempOf(w.running[x].stage) != TempOf(w.running[y].stage))
  }

  /** A step creates, writes or removes no staging file but its attempt's own, or one under a new name. */
  lemma StepLeavesTemps(w: World, a: Action, r: Running, t: nat)
    requires !a.Begin? && t in w.usedTemps && TempOf(r.stage) != Some(t)
    ensures SameAt(w.files, Step(w, a, r.op, r.stage).files, Temp(t))
  {
    hide KeyAt, PinsAt, AfterRead, AfterTargetRead, AfterPublication, ContentOf, Released, Start, ReadLegacy;
    EarlyStepsTouchNothing(w, a.who, r.op, r.stage);
  }

  /** A step keeps what its attempt knows of its staging file, which is the same one or a new one. */
  predicate KeepsTemp(w: World, stage: Stage, e: Effect)
  {
    e.next.Some? ==>
      && TempFits(e.files, w.usedTemps + e.temps, e.next.value)
      && (TempOf(e.next.value).Some? ==>
            TempOf(e.next.value) == TempOf(stage) || TempOf(e.next.value).value !in w.usedTemps)
  }

  lemma ProceedKeepsTemp(w: World, who: Attempt, r: Running, key: Key, temp: nat)
    requires TempFits(w.files, w.usedTemps, r.stage)
    ensures KeepsTemp(w, r.stage, Proceed(w, who, r.op, r.stage, key, temp))
  {
    hide KeyAt, PinsAt, AfterRead, AfterTargetRead, AfterPublication, ContentOf, ValidPin, Released, Target;
  }

  lemma StepKeepsTemp(w: World, a: Action, r: Running)
    requires !a.Begin? && TempFits(w.files, w.usedTemps, r.stage)
    ensures KeepsTemp(w, r.stage, Step(w, a, r.op, r.stage))
  {
    hide Proceed, AfterPublication, ContentOf, Released;
    if a.Advance? {
      ProceedKeepsTemp(w, a.who, r, a.key, a.temp);
    }
  }

  lemma TempsKept(w: World, a: Action)
    requires TempsOwned(w)
    ensures TempsOwned(Do(w, a))
  {
    hide Step, ContentOf;
    if !a.Begin? && a.who in w.running {
      var r, v := w.running[a.who], Do(w, a);
      StepKeepsTemp(w, a, r);
      forall who | who in v.running
        ensures TempFits(v.files, v.usedTemps, v.running[who].stage)
      {
        if who != a.who && TempOf(w.running[who].stage).Some? {
          StepLeavesTemps(w, a, r, TempOf(w.running[who].stage).value);
        }
      }
    }
  }

  ghost predicate Sound(w: World)
  {
    AllFit(w) && LocksHeld(w) && TempsOwned(w)
  }

  lemma SoundKept(w: World, a: Action)
    requires Sound(w)
    ensures Sound(Do(w, a))
  {
    hide Do, AllFit, LocksHeld, TempsOwned;
    FittingKept(w, a);
    LocksKept(w, a);
    TempsKept(w, a);
  }

  // ---------------------------------------------------------------------------------------------
  // Every attempt that returns a key returns the one in the file
  // ---------------------------------------------------------------------------------------------

  /** What an attempt that publishes or reads a key knows of the key file. */
  predicate KnowsKey(files: Files, r: Running)
  {
    var path := KeyFile(r.op.dir);
    match r.stage
    case Cleaning(NewKey(key), _, Published) => path in files && files[path] == Plain(Encode(key))
    case Cleaning(NewKey(_), _, Existed) => path in files
    case Rereading => path in files
    case Finishing(KeyIs(key)) => KeyAt(files, r.op.dir) == Some(key)
    case _ => true
  }

  ghost predicate KeysKnown(w: World)
  {
    forall who :: who in w.running ==> KnowsKey(w.files, w.running[who])
  }

  ghost predicate ReportsKey(e: Event, dir: Folder, key: Key)
  {
    e.Returned? && e.op.LoadOrCreate? && e.op.dir == dir && e.outcome == KeyIs(key)
  }

  ghost predicate ReportsAreTrue(w: World)
  {
    forall e, dir, key :: e in w.log && ReportsKey(e, dir, key) ==> KeyAt(w.files, dir) == Some(key)
  }

  lemma StepKnowsKey(w: World, a: Action, r: Running)
    requires !a.Begin? && KnowsKey(w.files, r) && Fits(r) && TempFits(w.files, w.usedTemps, r.stage)
    ensures var e := Step(w, a, r.op, r.stage); e.next.Some? ==> KnowsKey(e.files, Running(r.op, e.next.value))
  {
    hide PinsAt, ValidPin, Released, DecodeKey, Encode, ValidTable;
    if r.stage.Cleaning? && r.stage.goal.NewKey? {
      ReadsWrittenKey(r.stage.goal.key);
    }
  }

  lemma StepReportsKey(w: World, a: Action, r: Running, e: Event, dir: Folder, key: Key)
    requires !a.Begin? && KnowsKey(w.files, r) && e in Step(w, a, r.op, r.stage).events && ReportsKey(e, dir, key)
    ensures KeyAt(w.files, dir) == Some(key)
  {
    hide PinsAt, ValidPin, Released, DecodeKey, ValidTable, AfterRead, AfterTargetRead, AfterPublication, ContentOf,
         Target;
  }

  lemma KnowledgeStays(w: World, a: Action, r: Running)
    requires KnowsKey(w.files, r)
    ensures KnowsKey(Do(w, a).files, r)
  {
    hide Do, DecodeKey, Encode;
    if KeyFile(r.op.dir) in w.files {
      KeyStays(w, a, r.op.dir);
    }
  }

  lemma KeysKept(w: World, a: Action)
    requires Sound(w) && KeysKnown(w)
    ensures KeysKnown(Do(w, a))
  {
    hide Step, KnowsKey, Fits, TempFits;
    var v := Do(w, a);
    forall who | who in v.running
      ensures KnowsKey(v.files, v.running[who])
    {
      if who != a.who || v.running == w.running {
        KnowledgeStays(w, a, w.running[who]);
      } else if a.Begin? {
        StartersKnowNothing(v.files, a.op);
      } else {
        StepKnowsKey(w, a, w.running[who]);
      }
    }
  }

  lemma StartersKnowNothing(files: Files, op: Op)
    ensures KnowsKey(files, Running(op, Starting))
  {
  }

  lemma ReportsKept(w: World, a: Action)
    requires KeysKnown(w) && ReportsAreTrue(w)
    ensures ReportsAreTrue(Do(w, a))
  {
    hide Step, KnowsKey, DecodeKey;
    var v := Do(w, a);
    forall e, dir, key | e in v.log && ReportsKey(e, dir, key)
      ensures KeyAt(v.files, dir) == Some(key)
    {
      if e !in w.log {
        StepReportsKey(w, a, w.running[a.who], e, dir, key);
      }
      KeyStays(w, a, dir);
    }
  }

  lemma {:induction false} RunsReportTruly(w: World, actions: seq<Action>)
    requires Initial(w)
    ensures var v := Run(w, actions); Sound(v) && KeysKnown(v) && ReportsAreTrue(v)
    decreases |actions|
  {
    if actions != [] {
      hide Do, Sound, KeysKnown, ReportsAreTrue;
      var most, last := actions[..|actions| - 1], actions[|actions| - 1];
      RunsReportTruly(w, most);
      SoundKept(Run(w, most), last);
      KeysKept(Run(w, most), last);
      ReportsKept(Run(w, most), last);
    }
  }

  /**
   * However attempts interleave, fail and crash, and whether or not they lock: every key an attempt
   * returned for a folder is the one in its key file, so all of them are the same.
   */
  lemma CreatorsAgree(w: World, actions: seq<Action>, x: Event, y: Event, dir: Folder, key: Key, key': Key)
    requires Initial(w)
    requires x in Run(w, actions).log && ReportsKey(x, dir, key)
    requires y in Run(w, actions).log && ReportsKey(y, dir, key')
    ensures KeyAt(Run(w, actions).files, dir) == Some(key) && key == key'
  {
    hide Run, Sound, KeysKnown, ReportsKey, KeyAt;
    RunsReportTruly(w, actions);
  }

  // ---------------------------------------------------------------------------------------------
  // A key file is never seen half written
  // ---------------------------------------------------------------------------------------------

  ghost predicate IsWholeKey(content: Content)
  {
    exists key: Key :: content == Plain(Encode(key))
  }

  lemma KeyAppearsWhole(w: World, a: Action, dir: Folder)
    requires Sound(w) && KeyFile(dir) !in w.files && KeyFile(dir) in Do(w, a).files
    ensures IsWholeKey(Do(w, a).files[KeyFile(dir)])
  {
    hide Step, Encode;
    var r := w.running[a.who];
    if Places(w, a, r) {
      PlaceLeavesFiles(w, a, r, KeyFile(dir));
      assert TempFits(w.files, w.usedTemps, r.stage);
      assert w.files[Temp(r.stage.temp)] == Plain(Encode(r.stage.goal.key));
    } else {
      StepLeavesFiles(w, a, r, KeyFile(dir));
    }
  }

  /** A folder that had no key file has, at any moment, none or one holding a whole 32-byte key. */
  lemma {:induction false} NewKeyFilesAreWhole(w: World, actions: seq<Action>, dir: Folder)
    requires Initial(w) && KeyFile(dir) !in w.files
    ensures var v := Run(w, actions);
      KeyFile(dir) in v.files ==> IsWholeKey(v.files[KeyFile(dir)]) && KeyAt(v.files, dir).Some?
    decreases |actions|
  {
    hide Do, Sound, DecodeKey, Encode, IsWholeKey;
    if actions != [] {
      var most, last := actions[..|actions| - 1], actions[|actions| - 1];
      NewKeyFilesAreWhole(w, most, dir);
      RunsReportTruly(w, most);
      var u, v := Run(w, most), Run(w, actions);
      if KeyFile(dir) in u.files {
        KeyStays(u, last, dir);
      } else if KeyFile(dir) in v.files {
        KeyAppearsWhole(u, last, dir);
        WholeKeyIsRead(v.files[KeyFile(dir)]);
      }
    }
  }

  lemma WholeKeyIsRead(content: Content)
    requires IsWholeKey(content)
    ensures KeyIn(content).Some?
  {
    var key: Key :| content == Plain(Encode(key));
    ReadsWrittenKey(key);
  }

  /** A publication is told the key existed only when it did. */
  lemma LostRacesAreReal(w: World, actions: seq<Action>, who: Attempt)
    requires Initial(w)
    requires var v := Run(w, actions);
      who in v.running && v.running[who].stage.Cleaning? && v.running[who].stage.link == Existed
    ensures var v := Run(w, actions); v.running[who].stage.goal.NewKey? && KeyFile(v.running[who].op.dir) in v.files
  {
    hide Run, GoalFits;
    RunsReportTruly(w, actions);
    var v := Run(w, actions);
    assert Fits(v.running[who]) && KnowsKey(v.files, v.running[who]);
  }

  // ---------------------------------------------------------------------------------------------
  // Pins: what a locked attempt read is still what the file says
  // ---------------------------------------------------------------------------------------------

  /** The folder pins `node` to `key`, whatever the case of its digits. */
  predicate PinnedTo(files: Files, dir: Folder, node: string, key: string)
  {
    match PinsAt(files, dir)
    case None => false
    case Some(table) => node in table && EqualIgnoringCase(table[node], key)
  }

  predicate WasRead(files: Files, dir: Folder, goal: Goal)
  {
    goal.NewPins? ==> PinsAt(files, dir) == Some(goal.was)
  }

  function Lookup(table: PinTable, node: string): Option<string>
  {
    if node in table then Some(table[node]) else None
  }

  /** What an attempt under the lock knows of the pins. */
  predicate KnowsPins(files: Files, r: Running)
  {
    var pins := PinsAt(files, r.op.dir);
    match r.stage
    case Staging(goal) => WasRead(files, r.op.dir, goal)
    case Writing(goal, _) => WasRead(files, r.op.dir, goal)
    case Staged(goal, _) => WasRead(files, r.op.dir, goal)
    case Cleaning(NewPins(_, now, _), _, Published) => pins == Some(now)
    case Finishing(Pinned) => r.op.PinHub? ==> PinnedTo(files, r.op.dir, r.op.node, r.op.key)
    case Finishing(Refused) =>
      r.op.PinHub? ==> pins.Some? && r.op.node in pins.value && !EqualIgnoringCase(pins.value[r.op.node], r.op.key)
    case Finishing(PinIs(pin)) => r.op.LoadPin? ==> pins.Some? && pin == Lookup(pins.value, r.op.node)
    case Finishing(Forgotten) => r.op.Forget? ==> pins.Some? && r.op.node !in pins.value
    case _ => true
  }

  ghost predicate PinsKnown(w: World)
  {
    forall who :: who in w.running ==> KnowsPins(w.files, w.running[who])
  }

  /** The one step that changes a folder's pins: the rename of an attempt that holds its lock. */
  predicate Repins(w: World, a: Action, dir: Folder)
  {
    && a.who in w.running && w.running[a.who].op.dir == dir
    && Places(w, a, w.running[a.who]) && w.running[a.who].stage.goal.NewPins?
  }

  /** A rename puts the whole new table in place of the whole old one, as its operation asks. */
  lemma RepinsWholly(w: World, a: Action, dir: Folder)
    requires Sound(w) && PinsKnown(w) && Repins(w, a, dir)
    ensures var r := w.running[a.who];
      && PinsAt(w.files, dir) == Some(r.stage.goal.was) && PinsAt(Do(w, a).files, dir) == Some(r.stage.goal.now)
      && GoalFits(r.op, r.stage.goal) && LockOf(r.op) == Some(dir) && dir in w.locks && w.locks[dir] == a.who
  {
    hide Step, ValidPin;
    var r := w.running[a.who];
    PlaceLeavesFiles(w, a, r, PinFile(dir));
    assert Fits(r) && TempFits(w.files, w.usedTemps, r.stage) && KnowsPins(w.files, r);
    assert Holds(r) == Some(dir);
    NewTablesAreValid(r.op, r.stage.goal);
  }

  lemma NewTablesAreValid(op: Op, goal: Goal)
    requires GoalFits(op, goal) && goal.NewPins?
    ensures ValidTable(goal.now)
  {
    hide ValidPin;
  }

  lemma PinFileStays(w: World, a: Action, dir: Folder)
    requires !Repins(w, a, dir)
    ensures SameAt(w.files, Do(w, a).files, PinFile(dir))
  {
    hide Step;
    if !a.Begin? && a.who in w.running {
      var r := w.running[a.who];
      if Places(w, a, r) {
        PlaceLeavesFiles(w, a, r, PinFile(dir));
      } else {
        StepLeavesFiles(w, a, r, PinFile(dir));
      }
    }
  }

  lemma ReadKnowsPins(w: World, op: Op, key: Key)
    ensures KnowsPins(w.files, Running(op, AfterRead(w, op, key)))
  {
    hide ValidPin, KeyAt, ValidTable, EqualIgnoringCase;
  }

  lemma TargetReadKnowsPins(w: World, op: Op, key: Key, pins: PinTable)
    requires op.Adopt?
    ensures KnowsPins(w.files, Running(op, AfterTargetRead(w, op, key, pins)))
  {
    hide ValidPin, KeyAt, ValidTable, EqualIgnoringCase;
  }

  /** The pins are known to be the new ones once they are in place. */
  lemma PublicationKnowsPins(files: Files, op: Op, goal: Goal, temp: nat, link: Link)
    requires GoalFits(op, goal) && (link == Existed ==> goal.NewKey?)
    requires KnowsPins(files, Running(op, Cleaning(goal, temp, link)))
    ensures KnowsPins(files, Running(op, AfterPublication(op, goal, link)))
  {
    hide ValidPin, KeyAt, ValidTable, PinsAt;
  }

  lemma PinKnowledgeFollowsFile(files: Files, files': Files, r: Running)
    requires SameAt(files, files', PinFile(r.op.dir)) && KnowsPins(files, r)
    ensures KnowsPins(files', r)
  {
    hide KnowsPins;
    PinsAtFollowsFile(files, files', r.op.dir);
    SamePinsSameKnowledge(files, files', r);
  }

  lemma SamePinsSameKnowledge(files: Files, files': Files, r: Running)
    requires PinsAt(files, r.op.dir) == PinsAt(files', r.op.dir) && KnowsPins(files, r)
    ensures KnowsPins(files', r)
  {
    hide PinsAt, EqualIgnoringCase;
  }

  /** Without a placement, an attempt's next stage claims only what its last one knew or what it just read. */
  lemma NextStageKnowsPins(w: World, a: Action, r: Running)
    requires !a.Begin? && KnowsPins(w.files, r) && Fits(r) && !Places(w, a, r)
    ensures var e := Step(w, a, r.op, r.stage); e.next.Some? ==> KnowsPins(w.files, Running(r.op, e.next.value))
  {
    hide Released, KeyAt, GoalFits, PinsAt, PinnedTo, AfterRead, AfterTargetRead, AfterPublication, ContentOf, Target,
         EqualIgnoringCase, ValidTable, ValidPin;
    if r.stage.Cleaning? {
      PublicationKnowsPins(w.files, r.op, r.stage.goal, r.stage.temp, r.stage.link);
    } else if a.Advance? && r.stage.Reading? {
      ReadKnowsPins(w, r.op, a.key);
    } else if a.Advance? && r.stage.ReadingTarget? {
      TargetReadKnowsPins(w, r.op, r.stage.key, r.stage.pins);
    }
  }

  lemma StepKnowsPins(w: World, a: Action, r: Running)
    requires !a.Begin? && KnowsPins(w.files, r) && Fits(r) && !Places(w, a, r)
    ensures var e := Step(w, a, r.op, r.stage);
      e.next.Some? && SameAt(w.files, e.files, PinFile(r.op.dir)) ==> KnowsPins(e.files, Running(r.op, e.next.value))
  {
    hide Step, KnowsPins, Fits, Places;
    NextStageKnowsPins(w, a, r);
    var e := Step(w, a, r.op, r.stage);
    if e.next.Some? && SameAt(w.files, e.files, PinFile(r.op.dir)) {
      PinKnowledgeFollowsFile(w.files, e.files, Running(r.op, e.next.value));
    }
  }

  /** Under the lock, a step of another attempt changes none of these pins. */
  lemma OthersKnowledgeStays(w: World, a: Action, who: Attempt)
    requires Sound(w) && PinsKnown(w) && who in w.running && who != a.who
    ensures KnowsPins(Do(w, a).files, w.running[who])
  {
    hide Do, ValidPin, ValidTable, EqualIgnoringCase;
    var r := w.running[who];
    assert KnowsPins(w.files, r) && Fits(r);
    if Repins(w, a, r.op.dir) {
      hide PinsAt;
      RepinsWholly(w, a, r.op.dir);
      assert Holds(r) != Some(r.op.dir);
    } else {
      PinFileStays(w, a, r.op.dir);
    }
  }

  lemma ActorKnowsPins(w: World, a: Action)
    requires Sound(w) && PinsKnown(w) && !a.Begin? && a.who in w.running && a.who in Do(w, a).running
    ensures KnowsPins(Do(w, a).files, Do(w, a).running[a.who])
  {
    hide Step, ValidPin, ValidTable, EqualIgnoringCase;
    var r := w.running[a.who];
    assert KnowsPins(w.files, r) && Fits(r) && TempFits(w.files, w.usedTemps, r.stage);
    if Places(w, a, r) {
      PlacedKnowsPins(w, a, r);
      if r.stage.goal.NewPins? {
        RepinsWholly(w, a, r.op.dir);
      }
    } else {
      PinFileStays(w, a, r.op.dir);
      StepKnowsPins(w, a, r);
    }
  }

  lemma PlacedKnowsPins(w: World, a: Action, r: Running)
    requires Places(w, a, r)
    ensures var e := Step(w, a, r.op, r.stage);
      var existed := r.stage.goal.NewKey? && Target(r.op, r.stage.goal) in w.files;
      e.next == Some(Cleaning(r.stage.goal, r.stage.temp, if existed then Existed else Published))
  {
  }

  lemma PinsKept(w: World, a: Action)
    requires Sound(w) && PinsKnown(w)
    ensures PinsKnown(Do(w, a))
  {
    hide Step, KnowsPins, Sound;
    var v := Do(w, a);
    forall who | who in v.running
      ensures KnowsPins(v.files, v.running[who])
    {
      if who != a.who {
        OthersKnowledgeStays(w, a, who);
      } else if a.Begin? {
        if who in w.usedAttempts {
          assert KnowsPins(w.files, w.running[who]);
        } else {
          StartersKnowNoPins(v.files, a.op);
        }
      } else {
        ActorKnowsPins(w, a);
      }
    }
  }

  lemma StartersKnowNoPins(files: Files, op: Op)
    ensures KnowsPins(files, Running(op, Starting))
  {
  }

  // ---------------------------------------------------------------------------------------------
  // Trust on first use, over any run
  // ---------------------------------------------------------------------------------------------

  ghost predicate PinReported(e: Event, dir: Folder, node: string, key: string)
  {
    e.Returned? && e.op == PinHub(dir, node, key) && e.outcome == Pinned
  }

  ghost predicate PinDropped(e: Event, dir: Folder, node: string)
  {
    e.Linked? && e.op == Forget(dir, node)
  }

  /** Some attempt reported this pin, and nobody has forgotten it since. */
  ghost predicate Trusted(log: seq<Event>, dir: Folder, node: string, key: string)
  {
    exists i :: 0 <= i < |log| && PinReported(log[i], dir, node, key) &&
      forall j :: i < j < |log| ==> !PinDropped(log[j], dir, node)
  }

  ghost predicate TrustKept(w: World)
  {
    forall dir, node, key :: Trusted(w.log, dir, node, key) ==> PinnedTo(w.files, dir, node, key)
  }

  lemma TrustedBefore(log: seq<Event>, more: seq<Event>, dir: Folder, node: string, key: string)
    requires |more| <= 1 && Trusted(log + more, dir, node, key)
    ensures (more != [] && PinReported(more[0], dir, node, key)) ||
      (Trusted(log, dir, node, key) && forall e :: e in more ==> !PinDropped(e, dir, node))
  {
    hide PinReported, PinDropped;
    var all := log + more;
    var i :| 0 <= i < |all| && PinReported(all[i], dir, node, key) &&
      forall j :: i < j < |all| ==> !PinDropped(all[j], dir, node);
    if i < |log| {
      assert forall j :: i < j < |log| ==> log[j] == all[j];
      if more != [] {
        assert all[|log|] == more[0];
      }
    }
  }

  /** A rename keeps every pin but the one its operation forgets. */
  lemma RepinningKeepsOthers(op: Op, goal: Goal, node: string)
    requires GoalFits(op, goal) && goal.NewPins? && node in goal.was && op != Forget(op.dir, node)
    ensures node in goal.now && goal.now[node] == goal.was[node]
  {
  }

  predicate LogsNothing(w: World, a: Action, r: Running, e: Effect)
  {
    e.events == [] && !(Places(w, a, r) && r.stage.goal.NewPins?)
  }

  predicate LogsLink(w: World, a: Action, r: Running, e: Effect)
  {
    && Places(w, a, r) && e.events == [Linked(a.who, r.op, Target(r.op, r.stage.goal))]
    && e.next == Some(Cleaning(r.stage.goal, r.stage.temp, Published))
  }

  predicate LogsReturn(a: Action, r: Running, e: Effect, outcome: Outcome)
  {
    && e.next == None && e.events == [Returned(a.who, r.op, outcome)] && !r.stage.Staged? && !r.stage.Cleaning?
    && (outcome == Failed || outcome == Copied(false) || r.stage.Finishing?)
    && (r.stage.Finishing? ==> r.stage == Finishing(outcome))
  }

  /** A step logs at most that it put a file in place, or that its attempt returned. */
  ghost predicate LogsOf(w: World, a: Action, r: Running, e: Effect)
  {
    LogsNothing(w, a, r, e) || LogsLink(w, a, r, e) || exists outcome :: LogsReturn(a, r, e, outcome)
  }

  lemma PlaceLogs(w: World, a: Action, r: Running)
    requires a.Advance? && r.stage.Staged?
    ensures var e := Place(w, a.who, r.op, r.stage.goal, r.stage.temp);
      LogsNothing(w, a, r, e) || LogsLink(w, a, r, e)
  {
    hide Target;
  }

  lemma ReturnsAreLogged(w: World, a: Action, r: Running, e: Effect, outcome: Outcome)
    requires LogsReturn(a, r, e, outcome)
    ensures LogsOf(w, a, r, e)
  {}

  lemma StepLogs(w: World, a: Action, r: Running)
    requires !a.Begin?
    ensures LogsOf(w, a, r, Step(w, a, r.op, r.stage))
  {
    hide PinsAt, Released, KeyAt, AfterRead, AfterTargetRead, AfterPublication, ContentOf, Start, ReadLegacy, Place,
         LogsLink;
    EarlyStepsTouchNothing(w, a.who, r.op, r.stage);
    var e := Step(w, a, r.op, r.stage);
    if a.Advance? && r.stage.Staged? {
      PlaceLogs(w, a, r);
    } else if e.events != [] {
      hide LogsOf;
      ReturnsAreLogged(w, a, r, e, e.events[0].outcome);
    } else {
      assert LogsNothing(w, a, r, e);
    }
  }

  lemma TrustStepKept(w: World, a: Action, dir: Folder, node: string, key: string)
    requires Sound(w) && PinsKnown(w) && TrustKept(w)
    requires Trusted(Do(w, a).log, dir, node, key)
    ensures PinnedTo(Do(w, a).files, dir, node, key)
  {
    hide Step, Sound, PinsKnown, Trusted, EqualIgnoringCase, ValidTable;
    if !a.Begin? && a.who in w.running {
      var r := w.running[a.who];
      StepLogs(w, a, r);
      var events := Step(w, a, r.op, r.stage).events;
      TrustedBefore(w.log, events, dir, node, key);
      if Repins(w, a, dir) {
        assert events[0] == Linked(a.who, r.op, Target(r.op, r.stage.goal)) && events[0] in events;
        assert PinnedTo(w.files, dir, node, key);
        RepinsWholly(w, a, dir);
        RepinningKeepsOthers(r.op, r.stage.goal, node);
      } else {
        PinFileStays(w, a, dir);
        ReportedPinsAreKnown(w, a.who);
      }
    }
  }

  lemma ReportedPinsAreKnown(w: World, who: Attempt)
    requires PinsKnown(w) && who in w.running
    ensures w.running[who].stage == Finishing(Pinned) && w.running[who].op.PinHub? ==>
      var op := w.running[who].op; PinnedTo(w.files, op.dir, op.node, op.key)
  {
    hide PinnedTo;
    assert KnowsPins(w.files, w.running[who]);
  }

  lemma TrustKeptByStep(w: World, a: Action)
    requires Sound(w) && PinsKnown(w) && TrustKept(w)
    ensures TrustKept(Do(w, a))
  {
    hide Do, Sound, PinsKnown, Trusted, PinnedTo;
    forall dir, node, key | Trusted(Do(w, a).log, dir, node, key)
      ensures PinnedTo(Do(w, a).files, dir, node, key)
    {
      TrustStepKept(w, a, dir, node, key);
    }
  }

  lemma {:induction false} RunsKeepTrust(w: World, actions: seq<Action>)
    requires Initial(w)
    ensures var v := Run(w, actions); Sound(v) && PinsKnown(v) && TrustKept(v)
    decreases |actions|
  {
    if actions != [] {
      hide Do, Sound, PinsKnown, TrustKept;
      var most, last := actions[..|actions| - 1], actions[|actions| - 1];
      RunsKeepTrust(w, most);
      SoundKept(Run(w, most), last);
      PinsKept(Run(w, most), last);
      TrustKeptByStep(Run(w, most), last);
    }
  }

  /** What a valid pin is: a node with a name, and 64 hexadecimal digits. */
  lemma ValidPinsAreHex(node: string, key: string)
    ensures ValidPin(node, key) <==> !IsBlank(node) && |key| == 64 && IsHexText(key)
  {
    HexDigitsMakeHexText(key);
  }

  /** The pins of a node say that its hub has the key of these bytes. */
  ghost predicate PinnedBytesAre(files: Files, dir: Folder, node: string, bytes: Option<seq<Byte>>)
  {
    match PinsAt(files, dir)
    case None => false
    case Some(table) => node in table && bytes.Some? && Decode(table[node]) == bytes
  }

  /** A valid key is the one pinned, case aside, exactly when it spells the same bytes. */
  lemma PinnedMeansSameBytes(files: Files, dir: Folder, node: string, key: string)
    ensures PinnedTo(files, dir, node, key) <==>
            |key| == 64 && IsHexText(key) && PinnedBytesAre(files, dir, node, Decode(key))
  {
    hide EqualIgnoringCase, Decode, IsHexText, IsBlank;
    var pins := PinsAt(files, dir);
    if pins.Some? && node in pins.value {
      var stored := pins.value[node];
      hide PinsAt;
      PinsAtAreValid(files, dir);
      ValidPinsAreHex(node, stored);
      if EqualIgnoringCase(stored, key) {
        HexWhateverTheCase(stored, key);
        SameLengthIgnoringCase(stored, key);
      }
      if |key| == 64 && IsHexText(key) {
        SameDigitsSameBytes(stored, key);
      }
    }
  }

  lemma SameLengthIgnoringCase(a: string, b: string)
    requires EqualIgnoringCase(a, b)
    ensures |a| == |b|
  {}

  /**
   * Trust on first use: however attempts interleave, fail and crash, every key that was reported pinned
   * for a node and not forgotten since spells the bytes of the one in the pin file, so all are one key.
   */
  lemma TrustedKeysAreTheStoredOne(w: World, actions: seq<Action>, dir: Folder, node: string, key: string, key': string)
    requires Initial(w)
    requires Trusted(Run(w, actions).log, dir, node, key) && Trusted(Run(w, actions).log, dir, node, key')
    ensures |key| == 64 && IsHexText(key) && PinnedBytesAre(Run(w, actions).files, dir, node, Decode(key))
    ensures Decode(key) == Decode(key')
  {
    hide Run, Sound, PinsKnown, Trusted, PinnedTo, Decode, IsHexText;
    RunsKeepTrust(w, actions);
    PinnedMeansSameBytes(Run(w, actions).files, dir, node, key);
    PinnedMeansSameBytes(Run(w, actions).files, dir, node, key');
  }

  /** Which pin files are malformed: those that are no table of strings, or hold an entry that is no pin. */
  lemma PinsAreMalformedExactlyWhen(files: Files, dir: Folder)
    ensures PinsAt(files, dir).None? <==>
            PinFile(dir) in files &&
            (files[PinFile(dir)].Pins? ==>
               var table := files[PinFile(dir)].table;
               exists node <- table :: IsBlank(node) || |table[node]| != 64 || !IsHexText(table[node]))
    ensures PinsAt(files, dir).Some? ==>
              if PinFile(dir) in files then files[PinFile(dir)] == Pins(PinsAt(files, dir).value)
              else PinsAt(files, dir).value == map[]
  {
    hide ValidPin, IsHexText, IsBlank;
    if PinFile(dir) in files && files[PinFile(dir)].Pins? {
      var table := files[PinFile(dir)].table;
      forall node | node in table
        ensures ValidPin(node, table[node]) <==> !IsBlank(node) && |table[node]| == 64 && IsHexText(table[node])
      {
        ValidPinsAreHex(node, table[node]);
      }
    }
  }

  /** A pin file that is not a table of valid pins is never overwritten. */
  lemma {:induction false} MalformedTrustIsNeverOverwritten(w: World, actions: seq<Action>, more: seq<Action>,
                                                            dir: Folder)
    requires Initial(w) && PinsAt(Run(w, actions).files, dir) == None
    ensures SameAt(Run(w, actions).files, Run(w, actions + more).files, PinFile(dir))
    decreases |more|
  {
    if more == [] {
      assert actions + more == actions;
    } else {
      hide Do, Sound, PinsKnown, TrustKept, PinsAt, Repins;
      var most, last := more[..|more| - 1], more[|more| - 1];
      MalformedTrustIsNeverOverwritten(w, actions, most, dir);
      RunsKeepTrust(w, actions + most);
      assert (actions + more)[..|actions + more| - 1] == actions + most;
      var u := Run(w, actions + most);
      PinsAtFollowsFile(Run(w, actions).files, u.files, dir);
      if Repins(u, last, dir) {
        RepinsWholly(u, last, dir);
      } else {
        PinFileStays(u, last, dir);
      }
    }
  }

  /** The rename puts a whole table of valid pins in place. */
  lemma PinsArriveWhole(w: World, a: Action, dir: Folder)
    requires Sound(w) && Repins(w, a, dir)
    ensures var v := Do(w, a); PinFile(dir) in v.files && IsWholeTable(v.files[PinFile(dir)])
  {
    hide Step, ValidPin;
    var r := w.running[a.who];
    PlaceLeavesFiles(w, a, r, PinFile(dir));
    assert Fits(r) && TempFits(w.files, w.usedTemps, r.stage);
    NewTablesAreValid(r.op, r.stage.goal);
  }

  ghost predicate IsWholeTable(content: Content)
  {
    content.Pins? && ValidTable(content.table)
  }

  /** A pin file is, at any moment of any run, the one there was at first or a whole table of valid pins. */
  lemma {:induction false} PinFilesAreWhole(w: World, actions: seq<Action>, dir: Folder)
    requires Initial(w)
    ensures var v := Run(w, actions);
      SameAt(w.files, v.files, PinFile(dir)) || (PinFile(dir) in v.files && IsWholeTable(v.files[PinFile(dir)]))
    decreases |actions|
  {
    if actions != [] {
      hide Do, Sound, PinsKnown, TrustKept, Repins, IsWholeTable;
      var most, last := actions[..|actions| - 1], actions[|actions| - 1];
      PinFilesAreWhole(w, most, dir);
      RunsKeepTrust(w, most);
      var u := Run(w, most);
      if Repins(u, last, dir) {
        PinsArriveWhole(u, last, dir);
      } else {
        PinFileStays(u, last, dir);
      }
    }
  }

  /** A pin is lost only to the rename of an attempt that was asked to forget it. */
  lemma PinsAreLostOnlyToForget(w: World, actions: seq<Action>, a: Action, dir: Folder, node: string)
    requires Initial(w)
    requires var u := Run(w, actions); PinsAt(u.files, dir).Some? && node in PinsAt(u.files, dir).value
    ensures var u, v := Run(w, actions), Do(Run(w, actions), a);
      || (&& PinsAt(v.files, dir).Some?
          && Lookup(PinsAt(v.files, dir).value, node) == Lookup(PinsAt(u.files, dir).value, node))
      || (Repins(u, a, dir) && u.running[a.who].op == Forget(dir, node))
  {
    hide Run, Do, Sound, PinsKnown, TrustKept, ValidTable, GoalFits;
    RunsKeepTrust(w, actions);
    var u := Run(w, actions);
    if Repins(u, a, dir) {
      RepinsWholly(u, a, dir);
      var r := u.running[a.who];
      if r.op != Forget(dir, node) {
        RepinningKeepsOthers(r.op, r.stage.goal, node);
      }
    } else {
      PinFileStays(u, a, dir);
    }
  }

  // ---------------------------------------------------------------------------------------------
  // What an attempt reports is what it did
  // ---------------------------------------------------------------------------------------------

  ghost predicate LinkedBy(log: seq<Event>, who: Attempt, keys: bool)
  {
    exists e :: e in log && e.Linked? && e.who == who && e.path.KeyFile? == keys
  }

  predicate MayHaveLinkedKey(stage: Stage)
  {
    match stage
    case Cleaning(NewKey(_), _, link) => link == Published
    case Finishing(outcome) => outcome.KeyIs? || outcome == Copied(true)
    case _ => false
  }

  predicate MayHaveLinkedPins(r: Running)
  {
    r.op.Adopt? ||
    match r.stage
    case Cleaning(NewPins(_, _, _), _, link) => link == Published
    case Finishing(outcome) => outcome == Pinned || outcome == Forgotten
    case _ => false
  }

  predicate MustHaveLinkedKey(r: Running)
  {
    r.op.Adopt? &&
    match r.stage
    case Cleaning(NewKey(_), _, link) => link == Published
    case Finishing(outcome) => outcome == Copied(true)
    case _ => false
  }

  ghost predicate Honest(log: seq<Event>, who: Attempt, r: Running)
  {
    && (LinkedBy(log, who, true) ==> MayHaveLinkedKey(r.stage))
    && (LinkedBy(log, who, false) ==> MayHaveLinkedPins(r))
    && (MustHaveLinkedKey(r) ==> Linked(who, r.op, KeyFile(r.op.dir)) in log)
  }

  /** Attempts at work and attempts that returned have linked what their stage and their outcome say. */
  ghost predicate AllHonest(w: World)
  {
    && (forall who :: who in w.running ==> who in w.usedAttempts && Honest(w.log, who, w.running[who]))
    && (forall e :: e in w.log ==> e.who in w.usedAttempts)
    && (forall e :: e in w.log && e.Returned? ==>
          e.who !in w.running && Honest(w.log, e.who, Running(e.op, Finishing(e.outcome))))
  }

  /** An attempt's next stage claims no link that its last one did not. */
  predicate ClaimsNoMore(r: Running, next: Running)
  {
    && (MayHaveLinkedKey(r.stage) ==> MayHaveLinkedKey(next.stage))
    && (MayHaveLinkedPins(r) ==> MayHaveLinkedPins(next))
    && (MustHaveLinkedKey(next) ==> MustHaveLinkedKey(r))
  }

  lemma PublicationClaimsNoMore(op: Op, goal: Goal, temp: nat, link: Link)
    requires GoalFits(op, goal) && (link == Existed ==> goal.NewKey?)
    ensures ClaimsNoMore(Running(op, Cleaning(goal, temp, link)), Running(op, AfterPublication(op, goal, link)))
  {
    hide ValidPin, ValidTable;
  }

  lemma ReadClaimsNoMore(w: World, op: Op, key: Key)
    requires !op.Adopt?
    ensures ClaimsNoMore(Running(op, Reading), Running(op, AfterRead(w, op, key)))
  {
    hide ValidPin, KeyAt, PinsAt, EqualIgnoringCase;
  }

  lemma TargetReadClaimsNoMore(w: World, op: Op, key: Key, pins: PinTable)
    requires op.Adopt?
    ensures ClaimsNoMore(Running(op, ReadingTarget(key, pins)), Running(op, AfterTargetRead(w, op, key, pins)))
  {
    hide PinsAt;
  }

  lemma StepStaysHonest(w: World, a: Action, r: Running)
    requires !a.Begin? && Fits(r)
    ensures var e := Step(w, a, r.op, r.stage);
      e.next.Some? && !Places(w, a, r) ==> ClaimsNoMore(r, Running(r.op, e.next.value))
  {
    hide PinsAt, Released, KeyAt, ContentOf, Target, AfterRead, AfterTargetRead, AfterPublication, GoalFits,
         ValidPin, ValidTable;
    if r.stage.Cleaning? {
      PublicationClaimsNoMore(r.op, r.stage.goal, r.stage.temp, r.stage.link);
    } else if a.Advance? && r.stage.Reading? {
      ReadClaimsNoMore(w, r.op, a.key);
    } else if a.Advance? && r.stage.ReadingTarget? {
      TargetReadClaimsNoMore(w, r.op, r.stage.key, r.stage.pins);
    }
  }

  lemma LinkedByMore(log: seq<Event>, more: seq<Event>, who: Attempt, keys: bool)
    ensures LinkedBy(log + more, who, keys) <==>
      LinkedBy(log, who, keys) || exists e :: e in more && e.Linked? && e.who == who && e.path.KeyFile? == keys
  {
  }

  lemma OthersStayHonest(log: seq<Event>, more: seq<Event>, who: Attempt, r: Running)
    requires Honest(log, who, r) && forall e :: e in more ==> e.who != who || e.Returned?
    ensures Honest(log + more, who, r)
  {
    hide MayHaveLinkedKey, MayHaveLinkedPins, MustHaveLinkedKey;
    LinkedByMore(log, more, who, true);
    LinkedByMore(log, more, who, false);
  }

  /** After its step an attempt at work is honest still. */
  lemma ActorStaysHonest(w: World, a: Action, r: Running)
    requires !a.Begin? && Fits(r) && Honest(w.log, a.who, r)
    ensures var e := Step(w, a, r.op, r.stage);
      e.next.Some? ==> Honest(w.log + e.events, a.who, Running(r.op, e.next.value))
  {
    hide Step, Fits;
    var e := Step(w, a, r.op, r.stage);
    StepLogs(w, a, r);
    if e.next.Some? {
      var next := Running(r.op, e.next.value);
      LinkedByMore(w.log, e.events, a.who, true);
      LinkedByMore(w.log, e.events, a.who, false);
      if LogsLink(w, a, r, e) {
        assert Honest(w.log, a.who, r);
      } else {
        if Places(w, a, r) {
          NoLinkNoPlace(w, a, r);
          assert !MayHaveLinkedKey(r.stage) && (MayHaveLinkedPins(r) ==> r.op.Adopt?);
        } else {
          StepStaysHonest(w, a, r);
        }
      }
    }
  }

  /** Putting a file in place without logging it is a key that was there already. */
  lemma NoLinkNoPlace(w: World, a: Action, r: Running)
    requires Places(w, a, r) && Step(w, a, r.op, r.stage).events == []
    ensures r.stage.goal.NewKey?
    ensures Step(w, a, r.op, r.stage).next == Some(Cleaning(r.stage.goal, r.stage.temp, Existed))
  {
  }

  /** What an attempt returns is honest too. */
  lemma ReturnIsHonest(w: World, a: Action, r: Running, outcome: Outcome)
    requires !a.Begin? && Honest(w.log, a.who, r)
    requires LogsReturn(a, r, Step(w, a, r.op, r.stage), outcome)
    ensures Honest(w.log + [Returned(a.who, r.op, outcome)], a.who, Running(r.op, Finishing(outcome)))
  {
    hide Step;
    LinkedByMore(w.log, [Returned(a.who, r.op, outcome)], a.who, true);
    LinkedByMore(w.log, [Returned(a.who, r.op, outcome)], a.who, false);
  }

  /** A new attempt has linked nothing. */
  lemma BeginnersAreHonest(w: World, who: Attempt, op: Op)
    requires AllHonest(w) && who !in w.usedAttempts
    ensures Honest(w.log, who, Running(op, Starting))
  {
  }

  lemma HonestyKept(w: World, a: Action)
    requires AllFit(w) && AllHonest(w)
    ensures AllHonest(Do(w, a))
  {
    hide Step, Fits, Honest, LogsOf;
    if a.Begin? {
      if a.who !in w.usedAttempts {
        BeginnersAreHonest(w, a.who, a.op);
      }
    } else if a.who in w.running {
      var r := w.running[a.who];
      var e := Step(w, a, r.op, r.stage);
      EventsAreOwn(w, a, r);
      ActorStaysHonest(w, a, r);
      forall who | who in w.running && who != a.who
        ensures Honest(w.log + e.events, who, w.running[who])
      {
        OthersStayHonest(w.log, e.events, who, w.running[who]);
      }
      forall x | x in w.log + e.events && x.Returned?
        ensures x.who !in Do(w, a).running && Honest(w.log + e.events, x.who, Running(x.op, Finishing(x.outcome)))
      {
        if x in w.log {
          OthersStayHonest(w.log, e.events, x.who, Running(x.op, Finishing(x.outcome)));
        } else {
          NewReturnIsHonest(w, a, r, x);
        }
      }
    }
  }

  lemma EventsAreOwn(w: World, a: Action, r: Running)
    requires !a.Begin?
    ensures forall x :: x in Step(w, a, r.op, r.stage).events ==> x.who == a.who
  {
    hide Step, Target;
    StepLogs(w, a, r);
  }

  lemma NewReturnIsHonest(w: World, a: Action, r: Running, x: Event)
    requires !a.Begin? && Honest(w.log, a.who, r)
    requires x in Step(w, a, r.op, r.stage).events && x.Returned?
    ensures Step(w, a, r.op, r.stage).next == None && x.who == a.who
    ensures Honest(w.log + Step(w, a, r.op, r.stage).events, x.who, Running(x.op, Finishing(x.outcome)))
  {
    hide Step, Honest, Target;
    StepLogs(w, a, r);
    var e := Step(w, a, r.op, r.stage);
    assert LogsReturn(a, r, e, x.outcome);
    ReturnIsHonest(w, a, r, x.outcome);
  }

  lemma {:induction false} RunsAreHonest(w: World, actions: seq<Action>)
    requires Initial(w)
    ensures Sound(Run(w, actions)) && AllHonest(Run(w, actions))
    decreases |actions|
  {
    if actions != [] {
      hide Do, LocksHeld, TempsOwned, AllHonest, AllFit;
      var most, last := actions[..|actions| - 1], actions[|actions| - 1];
      RunsAreHonest(w, most);
      SoundKept(Run(w, most), last);
      HonestyKept(Run(w, most), last);
    }
  }

  /**
   * What an attempt returned says what it changed. A refused pin, a plain read and an operation that failed
   * changed no trusted file -- a failed adoption may have written the pins, never the key -- and an adoption
   * says it copied exactly when it put the key there.
   */
  lemma OutcomesAreTrue(w: World, actions: seq<Action>, e: Event)
    requires Initial(w) && e in Run(w, actions).log && e.Returned?
    ensures var log := Run(w, actions).log;
      && (e.outcome.Refused? || e.outcome.PinIs? || (e.outcome.Failed? && !e.op.Adopt?) ==>
            !LinkedBy(log, e.who, true) && !LinkedBy(log, e.who, false))
      && (e.op.Adopt? ==> (e.outcome == Copied(true) <==> LinkedBy(log, e.who, true)))
      && (e.op.Adopt? && e.outcome == Copied(true) ==> Linked(e.who, e.op, KeyFile(e.op.dir)) in log)
  {
    hide Run, Sound;
    RunsAreHonest(w, actions);
    RunsReturnFittingly(w, actions);
    assert Honest(Run(w, actions).log, e.who, Running(e.op, Finishing(e.outcome)));
  }

  ghost predicate ReturnsFit(log: seq<Event>)
  {
    forall e :: e in log && e.Returned? ==> OutcomeFits(e.op, e.outcome)
  }

  lemma ReturnsFitByStep(w: World, a: Action)
    requires AllFit(w) && ReturnsFit(w.log)
    ensures ReturnsFit(Do(w, a).log)
  {
    hide Step;
    if !a.Begin? && a.who in w.running {
      StepReturnsFit(w, a, w.running[a.who]);
    }
  }

  lemma StepReturnsFit(w: World, a: Action, r: Running)
    requires !a.Begin? && Fits(r)
    ensures forall e :: e in Step(w, a, r.op, r.stage).events && e.Returned? ==> OutcomeFits(e.op, e.outcome)
  {
    hide PinsAt, Released, KeyAt, ContentOf, Target, AfterRead, AfterTargetRead, AfterPublication, GoalFits;
  }

  lemma {:induction false} RunsReturnFittingly(w: World, actions: seq<Action>)
    requires Initial(w)
    ensures ReturnsFit(Run(w, actions).log)
    decreases |actions|
  {
    if actions != [] {
      hide Do, ReturnsFit, Honest, TempsOwned, LocksHeld;
      var most, last := actions[..|actions| - 1], actions[|actions| - 1];
      RunsReturnFittingly(w, most);
      RunsAreHonest(w, most);
      ReturnsFitByStep(Run(w, most), last);
    }
  }

  // ---------------------------------------------------------------------------------------------
  // Adopting the legacy key
  // ---------------------------------------------------------------------------------------------

  function KeyInHand(stage: Stage): Option<Key>
  {
    match stage
    case WaitingTarget(key, _) => Some(key)
    case Rechecking(key, _) => Some(key)
    case ReadingTarget(key, _) => Some(key)
    case Staging(goal) => GoalKey(goal)
    case Writing(goal, _) => GoalKey(goal)
    case Staged(goal, _) => GoalKey(goal)
    case Cleaning(goal, _, _) => GoalKey(goal)
    case _ => None
  }

  function GoalKey(goal: Goal): Option<Key>
  {
    if goal.NewKey? then Some(goal.key) else goal.keyToFollow
  }

  function GoalOf(stage: Stage): Option<Goal>
  {
    match stage
    case Staging(goal) => Some(goal)
    case Writing(goal, _) => Some(goal)
    case Staged(goal, _) => Some(goal)
    case Cleaning(goal, _, _) => Some(goal)
    case _ => None
  }

  /** An adoption carries the legacy key, and goes for the target's key only past the target's pins. */
  predicate KnowsLegacy(files: Files, r: Running)
  {
    r.op.Adopt? ==>
      && (KeyInHand(r.stage).Some? ==> KeyAt(files, r.op.legacy) == KeyInHand(r.stage))
      && (GoalOf(r.stage).Some? && GoalOf(r.stage).value.NewKey? ==> PinFile(r.op.dir) in files)
  }

  ghost predicate LegacyKnown(w: World)
  {
    forall who :: who in w.running ==> KnowsLegacy(w.files, w.running[who])
  }

  lemma LegacyKnowledgeStays(w: World, a: Action, r: Running)
    requires KnowsLegacy(w.files, r)
    ensures KnowsLegacy(Do(w, a).files, r)
  {
    hide Do, DecodeKey, KeyInHand, GoalOf;
    if r.op.Adopt? {
      if KeyFile(r.op.legacy) in w.files {
        KeyStays(w, a, r.op.legacy);
      }
      if PinFile(r.op.dir) in w.files {
        PinFileRemains(w, a, r.op.dir);
      }
    }
  }

  lemma PinFileRemains(w: World, a: Action, dir: Folder)
    requires PinFile(dir) in w.files
    ensures PinFile(dir) in Do(w, a).files
  {
    hide Step;
    if Repins(w, a, dir) {
      PlaceLeavesFiles(w, a, w.running[a.who], PinFile(dir));
    } else {
      PinFileStays(w, a, dir);
    }
  }

  lemma TargetReadKnowsLegacy(w: World, op: Op, key: Key, pins: PinTable)
    requires KnowsLegacy(w.files, Running(op, ReadingTarget(key, pins)))
    ensures KnowsLegacy(w.files, Running(op, AfterTargetRead(w, op, key, pins)))
  {
    hide KeyAt, ValidTable;
  }

  /** The key follows only once the pins are in place. */
  lemma PublicationKnowsLegacy(files: Files, op: Op, goal: Goal, temp: nat, link: Link)
    requires GoalFits(op, goal) && KnowsPins(files, Running(op, Cleaning(goal, temp, link)))
    requires (link == Existed ==> goal.NewKey?) && KnowsLegacy(files, Running(op, Cleaning(goal, temp, link)))
    ensures KnowsLegacy(files, Running(op, AfterPublication(op, goal, link)))
  {
    hide KeyAt, ValidTable, EqualIgnoringCase;
  }

  lemma ProceedKnowsLegacy(w: World, who: Attempt, r: Running, key: Key, temp: nat)
    requires KnowsLegacy(w.files, r) && KnowsPins(w.files, r) && Fits(r)
    ensures var e := Proceed(w, who, r.op, r.stage, key, temp);
      e.next.Some? ==> KnowsLegacy(w.files, Running(r.op, e.next.value))
  {
    hide Released, KeyAt, GoalFits, PinsAt, KnowsPins, AfterRead, AfterTargetRead, AfterPublication, ContentOf, Target,
         ValidTable, ValidPin, OutcomeFits;
    if r.stage.Cleaning? {
      PublicationKnowsLegacy(w.files, r.op, r.stage.goal, r.stage.temp, r.stage.link);
    } else if r.stage.ReadingTarget? {
      TargetReadKnowsLegacy(w, r.op, r.stage.key, r.stage.pins);
    }
  }

  lemma NextStageKnowsLegacy(w: World, a: Action, r: Running)
    requires !a.Begin? && KnowsLegacy(w.files, r) && KnowsPins(w.files, r) && Fits(r)
    ensures var e := Step(w, a, r.op, r.stage); e.next.Some? ==> KnowsLegacy(w.files, Running(r.op, e.next.value))
  {
    hide Proceed, Released, KeyAt, GoalFits, PinsAt, KnowsPins, AfterPublication, ValidTable, OutcomeFits;
    if a.Advance? {
      ProceedKnowsLegacy(w, a.who, r, a.key, a.temp);
    } else if r.stage.Cleaning? {
      PublicationKnowsLegacy(w.files, r.op, r.stage.goal, r.stage.temp, r.stage.link);
    }
  }

  lemma LegacyKept(w: World, a: Action)
    requires Sound(w) && PinsKnown(w) && LegacyKnown(w)
    ensures LegacyKnown(Do(w, a))
  {
    hide Step, KnowsLegacy, KnowsPins, Fits, LocksHeld, TempsOwned;
    var v := Do(w, a);
    forall who | who in v.running
      ensures KnowsLegacy(v.files, v.running[who])
    {
      if who == a.who && a.Begin? && who !in w.usedAttempts {
        StartersCarryNothing(v.files, a.op);
      } else if who == a.who && !a.Begin? {
        NextStageKnowsLegacy(w, a, w.running[who]);
        LegacyKnowledgeStays(w, a, v.running[who]);
      } else {
        LegacyKnowledgeStays(w, a, w.running[who]);
      }
    }
  }

  lemma StartersCarryNothing(files: Files, op: Op)
    ensures KnowsLegacy(files, Running(op, Starting))
  {
  }

  /** The target's key is the legacy key. */
  ghost predicate IsCopied(files: Files, op: Op)
  {
    op.Adopt? ==> KeyAt(files, op.dir).Some? && KeyAt(files, op.dir) == KeyAt(files, op.legacy)
  }

  /** Whoever says, or is about to say, that it copied the key has the legacy key in its target. */
  ghost predicate CopiesKnown(w: World)
  {
    && (forall who :: who in w.running && w.running[who].stage == Finishing(Copied(true)) ==>
          IsCopied(w.files, w.running[who].op))
    && (forall e :: e in w.log && e.Returned? && e.outcome == Copied(true) ==> IsCopied(w.files, e.op))
  }

  /** An adoption comes to say that it copied only from a publication of the key that succeeded. */
  lemma CopyComesFromPublication(w: World, a: Action, r: Running)
    requires !a.Begin? && Fits(r) && r.op.Adopt? && Step(w, a, r.op, r.stage).next == Some(Finishing(Copied(true)))
    ensures r.stage.Cleaning? && r.stage.goal.NewKey? && r.stage.link == Published
  {
    hide PinsAt, KeyAt, Released, ContentOf, Target, ReadLegacy, Start, AfterTargetRead;
    StartMovesOn(w, a.who, r.op);
    if r.op.Adopt? && (r.stage.ReadingLegacyPins? || r.stage.ReadingLegacyKey?) {
      ReadLegacyMovesOn(w, a.who, r.op, r.stage);
    }
    if r.stage.ReadingTarget? {
      TargetReadMovesOn(w, r.op, r.stage.key, r.stage.pins);
    }
  }

  lemma StartMovesOn(w: World, who: Attempt, op: Op)
    ensures Start(w, who, op).next.Some? ==> !Start(w, who, op).next.value.Finishing?
  {
    hide ValidPin;
  }

  lemma ReadLegacyMovesOn(w: World, who: Attempt, op: Op, stage: Stage)
    requires op.Adopt? && (stage.ReadingLegacyPins? || stage.ReadingLegacyKey?)
    ensures var e := ReadLegacy(w, who, op, stage); e.next.Some? ==> !e.next.value.Finishing?
  {
    hide PinsAt, KeyAt;
  }

  lemma TargetReadMovesOn(w: World, op: Op, key: Key, pins: PinTable)
    ensures AfterTargetRead(w, op, key, pins) != Finishing(Copied(true))
  {
    hide PinsAt;
  }

  lemma CopiesStay(w: World, a: Action, op: Op)
    requires IsCopied(w.files, op)
    ensures IsCopied(Do(w, a).files, op)
  {
    hide Do, DecodeKey;
    if op.Adopt? {
      KeyStays(w, a, op.dir);
      KeyStays(w, a, op.legacy);
    }
  }

  /** What was published is the key that was read in the legacy folder. */
  lemma PublishedIsCopied(files: Files, r: Running)
    requires KnowsKey(files, r) && KnowsLegacy(files, r)
    requires r.stage.Cleaning? && r.stage.goal.NewKey? && r.stage.link == Published
    ensures IsCopied(files, r.op)
  {
    hide DecodeKey, Encode;
    ReadsWrittenKey(r.stage.goal.key);
  }

  lemma CopiesKept(w: World, a: Action)
    requires Sound(w) && KeysKnown(w) && LegacyKnown(w) && CopiesKnown(w)
    ensures CopiesKnown(Do(w, a))
  {
    hide Step, KnowsKey, KnowsLegacy, IsCopied, Fits, LocksHeld, TempsOwned, LogsLink, LogsNothing;
    var v := Do(w, a);
    forall who | who in v.running && v.running[who].stage == Finishing(Copied(true))
      ensures IsCopied(v.files, v.running[who].op)
    {
      if who == a.who && !a.Begin? {
        ActorCopied(w, a);
      } else {
        CopiesStay(w, a, w.running[who].op);
      }
    }
    forall e | e in v.log && e.Returned? && e.outcome == Copied(true)
      ensures IsCopied(v.files, e.op)
    {
      if e !in w.log {
        NewReturnsWereFinishing(w, a, e);
      }
      CopiesStay(w, a, e.op);
    }
  }

  lemma ActorCopied(w: World, a: Action)
    requires Sound(w) && KeysKnown(w) && LegacyKnown(w) && !a.Begin? && a.who in w.running
    requires a.who in Do(w, a).running && Do(w, a).running[a.who].stage == Finishing(Copied(true))
    ensures IsCopied(Do(w, a).files, w.running[a.who].op)
  {
    hide Step, KnowsKey, KnowsLegacy, LocksHeld, TempsOwned, Fits;
    var r := w.running[a.who];
    assert Fits(r) && KnowsKey(w.files, r) && KnowsLegacy(w.files, r);
    if r.op.Adopt? {
      hide IsCopied;
      CopyComesFromPublication(w, a, r);
      PublishedIsCopied(w.files, r);
      CopiesStay(w, a, r.op);
    }
  }

  /** A new return is that of an attempt which had decided it, or one that copied nothing. */
  lemma NewReturnsWereFinishing(w: World, a: Action, e: Event)
    requires e in Do(w, a).log && e !in w.log && e.Returned? && e.outcome == Copied(true)
    ensures a.who in w.running && w.running[a.who] == Running(e.op, Finishing(Copied(true)))
  {
    hide Step, Target;
    if !a.Begin? && a.who in w.running {
      var r := w.running[a.who];
      StepLogs(w, a, r);
    }
  }

  lemma {:induction false} RunsCopyTruly(w: World, actions: seq<Action>)
    requires Initial(w)
    ensures var v := Run(w, actions);
      Sound(v) && KeysKnown(v) && PinsKnown(v) && LegacyKnown(v) && CopiesKnown(v)
    decreases |actions|
  {
    if actions != [] {
      hide Do, Sound, KeysKnown, PinsKnown, LegacyKnown, CopiesKnown;
      var most, last := actions[..|actions| - 1], actions[|actions| - 1];
      RunsCopyTruly(w, most);
      var u := Run(w, most);
      SoundKept(u, last);
      KeysKept(u, last);
      PinsKept(u, last);
      LegacyKept(u, last);
      CopiesKept(u, last);
    }
  }

  /** In every run: once an adoption has said that it copied, its target's key is the legacy key. */
  lemma CopiesAreTheLegacyKey(w: World, actions: seq<Action>, who: Attempt, op: Op)
    requires Initial(w) && op.Adopt? && Returned(who, op, Copied(true)) in Run(w, actions).log
    ensures var files := Run(w, actions).files;
      KeyAt(files, op.dir).Some? && KeyAt(files, op.dir) == KeyAt(files, op.legacy)
  {
    hide Run, Sound, KeysKnown, PinsKnown, LegacyKnown, KeyAt;
    RunsCopyTruly(w, actions);
  }

  /** Nothing but adoptions of this legacy folder, and readers, is ever asked to work on the target. */
  ghost predicate OnlyAdopts(actions: seq<Action>, target: Folder, legacy: Folder, node: string)
  {
    forall a :: a in actions && a.Begin? && a.op.dir == target ==> a.op == Adopt(target, legacy, node) || a.op.LoadPin?
  }

  ghost predicate AdoptsHere(w: World, target: Folder, legacy: Folder, node: string)
  {
    forall who :: who in w.running && w.running[who].op.dir == target ==>
      w.running[who].op == Adopt(target, legacy, node) || w.running[who].op.LoadPin?
  }

  /** The target's key is the legacy key, and is never there without the pins. */
  ghost predicate SafelyAdopted(files: Files, target: Folder, legacy: Folder, node: string)
  {
    && (PinFile(target) in files ==> PinsAt(files, target).Some? && node in PinsAt(files, target).value)
    && (KeyFile(target) in files ==>
          PinFile(target) in files && KeyAt(files, target).Some? && KeyAt(files, target) == KeyAt(files, legacy))
  }

  lemma AdoptionStep(w: World, a: Action, target: Folder, legacy: Folder, node: string)
    requires Sound(w) && PinsKnown(w) && LegacyKnown(w) && AdoptsHere(w, target, legacy, node)
    requires SafelyAdopted(w.files, target, legacy, node)
    ensures SafelyAdopted(Do(w, a).files, target, legacy, node)
  {
    hide Do, PinsAt, KeyAt, Sound, PinsKnown, LegacyKnown, AdoptsHere;
    var v := Do(w, a);
    if KeyFile(legacy) in w.files {
      KeyStays(w, a, legacy);
    }
    KeyAtFollowsFile(w.files, v.files, legacy);
    if KeyFile(target) in w.files {
      KeyStays(w, a, target);
      KeyAtFollowsFile(w.files, v.files, target);
    } else if KeyFile(target) in v.files {
      AdoptedKeyArrives(w, a, target, legacy, node);
    }
    if Repins(w, a, target) {
      AdoptedPinsArrive(w, a, target, legacy, node);
    } else {
      PinFileStays(w, a, target);
      PinsAtFollowsFile(w.files, v.files, target);
    }
    if PinFile(target) in w.files {
      PinFileRemains(w, a, target);
    }
  }

  lemma KeyAtFollowsFile(files: Files, files': Files, dir: Folder)
    ensures SameAt(files, files', KeyFile(dir)) ==> KeyAt(files, dir) == KeyAt(files', dir)
    ensures KeyFile(dir) !in files ==> KeyAt(files, dir) == None
  {
  }

  lemma PinsAtFollowsFile(files: Files, files': Files, dir: Folder)
    ensures SameAt(files, files', PinFile(dir)) ==> PinsAt(files, dir) == PinsAt(files', dir)
  {
  }

  lemma AdoptedKeyArrives(w: World, a: Action, target: Folder, legacy: Folder, node: string)
    requires Sound(w) && LegacyKnown(w) && AdoptsHere(w, target, legacy, node)
    requires KeyFile(target) !in w.files && KeyFile(target) in Do(w, a).files
    ensures PinFile(target) in w.files
    ensures KeyAt(Do(w, a).files, target).Some? && KeyAt(Do(w, a).files, target) == KeyAt(w.files, legacy)
  {
    hide Step, DecodeKey, Encode;
    var r := w.running[a.who];
    if Places(w, a, r) {
      PlaceLeavesFiles(w, a, r, KeyFile(target));
      assert TempFits(w.files, w.usedTemps, r.stage) && KnowsLegacy(w.files, r) && Fits(r);
      ReadsWrittenKey(r.stage.goal.key);
    } else {
      StepLeavesFiles(w, a, r, KeyFile(target));
    }
  }

  lemma AdoptedPinsArrive(w: World, a: Action, target: Folder, legacy: Folder, node: string)
    requires Sound(w) && PinsKnown(w) && AdoptsHere(w, target, legacy, node) && Repins(w, a, target)
    ensures PinsAt(Do(w, a).files, target).Some? && node in PinsAt(Do(w, a).files, target).value
  {
    hide Do, Sound, PinsKnown, PinsAt;
    RepinsWholly(w, a, target);
  }

  lemma AdoptersStay(w: World, a: Action, target: Folder, legacy: Folder, node: string)
    requires AdoptsHere(w, target, legacy, node) && OnlyAdopts([a], target, legacy, node)
    ensures AdoptsHere(Do(w, a), target, legacy, node)
  {
    hide Step;
    assert a in [a];
  }

  /**
   * From a target folder with no key and no pins: whatever adoption attempts fail or crash, and wherever,
   * the target's key is absent or the legacy key, with the node's pin already written.
   */
  lemma {:induction false} AdoptionIsSafe(w: World, actions: seq<Action>, target: Folder, legacy: Folder, node: string)
    requires Initial(w) && KeyFile(target) !in w.files && PinFile(target) !in w.files
    requires OnlyAdopts(actions, target, legacy, node)
    ensures var v := Run(w, actions);
      && Sound(v) && PinsKnown(v) && LegacyKnown(v) && AdoptsHere(v, target, legacy, node)
      && SafelyAdopted(v.files, target, legacy, node)
    decreases |actions|
  {
    if actions != [] {
      hide Do, Sound, PinsKnown, LegacyKnown, AdoptsHere, SafelyAdopted, TrustKept;
      var most, last := actions[..|actions| - 1], actions[|actions| - 1];
      AdoptionIsSafe(w, most, target, legacy, node);
      var u := Run(w, most);
      SoundKept(u, last);
      PinsKept(u, last);
      LegacyKept(u, last);
      AdoptersStay(u, last, target, legacy, node);
      AdoptionStep(u, last, target, legacy, node);
    }
  }

  // ---------------------------------------------------------------------------------------------
  // A later adoption completes the copy
  // ---------------------------------------------------------------------------------------------

  /** `n` steps of one attempt, all going well, with one staging name. */
  function Alone(w: World, who: Attempt, temp: nat, n: nat): World
  {
    if n == 0 then w else Do(Alone(w, who, temp, n - 1), Advance(who, seq(32, _ => 0), temp))
  }

  predicate At(w: World, who: Attempt, op: Op, stage: Stage)
  {
    who in w.running && w.running[who] == Running(op, stage)
  }

  lemma {:induction false} AloneIsARun(w: World, who: Attempt, temp: nat, n: nat) returns (actions: seq<Action>)
    ensures Run(w, actions) == Alone(w, who, temp, n)
  {
    hide Do;
    if n == 0 {
      actions := [];
    } else {
      var most := AloneIsARun(w, who, temp, n - 1);
      actions := most + [Advance(who, seq(32, _ => 0), temp)];
      assert actions[..|actions| - 1] == most;
    }
  }

  lemma {:induction false} RunInParts(w: World, a: seq<Action>, b: seq<Action>)
    ensures Run(w, a + b) == Run(Run(w, a), b)
    decreases |b|
  {
    hide Do;
    if b == [] {
      assert a + b == a;
    } else {
      RunInParts(w, a, b[..|b| - 1]);
      assert (a + b)[..|a + b| - 1] == a + b[..|b| - 1];
    }
  }

  lemma NextAlone(w: World, who: Attempt, temp: nat, n: nat, op: Op, stage: Stage)
    requires At(Alone(w, who, temp, n), who, op, stage)
    ensures var v := Alone(w, who, temp, n);
      Alone(w, who, temp, n + 1) == Apply(v, who, op, Proceed(v, who, op, stage, seq(32, _ => 0), temp))
  {
    hide Proceed, Apply;
  }

  /** The steps in the legacy folder, and what they carry away from it. */
  lemma AdopterReadsLegacy(w: World, who: Attempt, temp: nat, op: Op, key: Key, pins: PinTable)
    requires op.Adopt? && op.dir != op.legacy && At(w, who, op, Starting)
    requires op.dir !in w.locks && op.legacy !in w.locks && KeyFile(op.dir) !in w.files
    requires KeyAt(w.files, op.legacy) == Some(key) && PinsAt(w.files, op.legacy) == Some(pins) && op.node in pins
    ensures var v := Alone(w, who, temp, 4);
      && At(v, who, op, WaitingTarget(key, pins)) && op.dir !in v.locks
      && v.files == w.files && v.usedTemps == w.usedTemps && v.log == w.log
  {
    hide DecodeKey, PinsAt, Alone;
    NoneAlone(w, who, temp);
    NextAlone(w, who, temp, 0, op, Starting);
    NextAlone(w, who, temp, 1, op, WaitingLegacy);
    NextAlone(w, who, temp, 2, op, ReadingLegacyPins);
    NextAlone(w, who, temp, 3, op, ReadingLegacyKey(pins));
  }

  /** The steps up to the read of the target's pins, with both folders free. */
  lemma AdopterGetsThere(w: World, who: Attempt, temp: nat, op: Op, key: Key, pins: PinTable)
    requires op.Adopt? && op.dir != op.legacy && At(w, who, op, Starting)
    requires op.dir !in w.locks && op.legacy !in w.locks && KeyFile(op.dir) !in w.files
    requires KeyAt(w.files, op.legacy) == Some(key) && PinsAt(w.files, op.legacy) == Some(pins) && op.node in pins
    ensures var v := Alone(w, who, temp, 6);
      At(v, who, op, ReadingTarget(key, pins)) && v.files == w.files && v.usedTemps == w.usedTemps && v.log == w.log
  {
    hide KeyAt, PinsAt, Alone;
    AdopterReadsLegacy(w, who, temp, op, key, pins);
    NextAlone(w, who, temp, 4, op, WaitingTarget(key, pins));
    NextAlone(w, who, temp, 5, op, Rechecking(key, pins));
  }

  lemma NoneAlone(w: World, who: Attempt, temp: nat)
    ensures Alone(w, who, temp, 0) == w
  {
  }

  /** One step of an attempt alone, as it goes well. */
  function Next(v: World, who: Attempt, op: Op, stage: Stage, temp: nat): World
  {
    Apply(v, who, op, Proceed(v, who, op, stage, seq(32, _ => 0), temp))
  }

  lemma StagesAndWrites(v: World, who: Attempt, op: Op, goal: Goal, temp: nat)
    requires At(v, who, op, Staging(goal)) && Temp(temp) !in v.files && temp !in v.usedTemps
    ensures var u := Next(v, who, op, Staging(goal), temp);
      && At(u, who, op, Writing(goal, temp))
      && var x := Next(u, who, op, Writing(goal, temp), temp);
         && At(x, who, op, Staged(goal, temp)) && x.files == v.files[Temp(temp) := ContentOf(goal)]
         && x.usedTemps == v.usedTemps + {temp} && x.log == v.log
  {
    hide ContentOf, Start;
  }

  lemma LinksAndCleans(v: World, who: Attempt, op: Op, goal: Goal, temp: nat)
    requires At(v, who, op, Staged(goal, temp)) && Temp(temp) in v.files
    requires goal.NewKey? ==> Target(op, goal) !in v.files
    ensures var u := Next(v, who, op, Staged(goal, temp), temp);
      && At(u, who, op, Cleaning(goal, temp, Published))
      && var x := Next(u, who, op, Cleaning(goal, temp, Published), temp);
         && At(x, who, op, AfterPublication(op, goal, Published))
         && x.files == v.files[Target(op, goal) := v.files[Temp(temp)]] - {Temp(temp)}
         && x.usedTemps == v.usedTemps && x.log == v.log + [Linked(who, op, Target(op, goal))]
  {
    hide AfterPublication, Start;
    assert Target(op, goal) != Temp(temp);
  }

  /** Publishing without a failure, under a new staging name, puts the whole content at the target. */
  lemma PublishesAlone(w: World, who: Attempt, temp: nat, op: Op, goal: Goal)
    requires At(w, who, op, Staging(goal)) && Temp(temp) !in w.files && temp !in w.usedTemps
    requires goal.NewKey? ==> Target(op, goal) !in w.files
    ensures var v := Alone(w, who, temp, 4);
      && At(v, who, op, AfterPublication(op, goal, Published))
      && v.files == w.files[Target(op, goal) := ContentOf(goal)] && v.usedTemps == w.usedTemps + {temp}
      && v.log == w.log + [Linked(who, op, Target(op, goal))]
  {
    hide AfterPublication, ContentOf, Alone, Apply, Proceed;
    NoneAlone(w, who, temp);
    NextAlone(w, who, temp, 0, op, Staging(goal));
    StagesAndWrites(w, who, op, goal, temp);
    NextAlone(w, who, temp, 1, op, Writing(goal, temp));
    var staged := Alone(w, who, temp, 2);
    LinksAndCleans(staged, who, op, goal, temp);
    NextAlone(w, who, temp, 2, op, Staged(goal, temp));
    NextAlone(w, who, temp, 3, op, Cleaning(goal, temp, Published));
    assert staged.files[Target(op, goal) := ContentOf(goal)] - {Temp(temp)} ==
           w.files[Target(op, goal) := ContentOf(goal)];
  }

  ghost predicate AdoptionDone(v: World, who: Attempt, op: Op, key: Key)
  {
    && KeyAt(v.files, op.dir) == Some(key)
    && PinsAt(v.files, op.dir).Some?
    && Returned(who, op, Copied(true)) in v.log
  }

  lemma KeyGoesLast(w: World, who: Attempt, temp: nat, op: Op, key: Key) returns (more: seq<Action>)
    requires op.Adopt? && At(w, who, op, Staging(NewKey(key))) && Temp(temp) !in w.files && temp !in w.usedTemps
    requires KeyFile(op.dir) !in w.files && PinsAt(w.files, op.dir).Some?
    ensures AdoptionDone(Run(w, more), who, op, key)
    ensures PinsAt(Run(w, more).files, op.dir) == PinsAt(w.files, op.dir)
  {
    hide Proceed, Encode, DecodeKey;
    PublishesAlone(w, who, temp, op, NewKey(key));
    ReadsWrittenKey(key);
    more := AloneIsARun(w, who, temp, 5);
    var v := Alone(w, who, temp, 4);
    NextAlone(w, who, temp, 4, op, Finishing(Copied(true)));
    ReturnReturns(v, who, op, Copied(true), temp);
  }

  lemma ReturnReturns(v: World, who: Attempt, op: Op, outcome: Outcome, temp: nat)
    ensures var u := Apply(v, who, op, Proceed(v, who, op, Finishing(outcome), seq(32, _ => 0), temp));
      u.files == v.files && u.log == v.log + [Returned(who, op, outcome)]
  {
  }

  /**
   * An adoption that meets no failure completes the copy, whatever earlier ones left behind: with the
   * target's key still missing and its pins readable, the legacy key ends up in the target with its pins.
   */
  lemma AdoptionCompletes(w: World, who: Attempt, op: Op, key: Key, pins: PinTable, temp: nat, temp': nat)
    returns (more: seq<Action>)
    requires op.Adopt? && op.dir != op.legacy && who !in w.usedAttempts
    requires op.dir !in w.locks && op.legacy !in w.locks && KeyFile(op.dir) !in w.files
    requires KeyAt(w.files, op.legacy) == Some(key) && PinsAt(w.files, op.legacy) == Some(pins) && op.node in pins
    requires PinsAt(w.files, op.dir).Some?
    requires temp != temp' && Temp(temp) !in w.files && Temp(temp') !in w.files
    requires temp !in w.usedTemps && temp' !in w.usedTemps
    ensures AdoptionDone(Run(w, more), who, op, key)
    ensures PinsAt(w.files, op.dir) == Some(map[]) ==> PinsAt(Run(w, more).files, op.dir) == Some(pins)
  {
    hide Proceed, DecodeKey, Encode, Apply;
    var u := Run(w, [Begin(who, op)]);
    BeginStarts(w, who, op);
    AdopterGetsThere(u, who, temp, op, key, pins);
    var v := Alone(u, who, temp, 6);
    NextAlone(u, who, temp, 6, op, ReadingTarget(key, pins));
    TargetIsRead(v, who, op, key, pins, temp);
    var there := AloneIsARun(u, who, temp, 7);
    var x := Alone(u, who, temp, 7);
    var rest: seq<Action>;
    if PinsAt(w.files, op.dir) == Some(map[]) {
      var goal := NewPins(map[], pins, Some(key));
      PublishesAlone(x, who, temp, op, goal);
      var placed := AloneIsARun(x, who, temp, 4);
      PublishedPinsAreRead(w, op, pins, x.files);
      var last := KeyGoesLast(Alone(x, who, temp, 4), who, temp', op, key);
      RunInParts(x, placed, last);
      rest := placed + last;
    } else {
      rest := KeyGoesLast(x, who, temp, op, key);
    }
    RunInParts(w, [Begin(who, op)], there + rest);
    RunInParts(u, there, rest);
    more := [Begin(who, op)] + (there + rest);
  }

  lemma BeginStarts(w: World, who: Attempt, op: Op)
    requires who !in w.usedAttempts
    ensures var u := Run(w, [Begin(who, op)]);
      At(u, who, op,
         Starting) && u.files == w.files && u.locks == w.locks && u.usedTemps == w.usedTemps && u.log == w.log
  {
    assert [Begin(who, op)][..0] == [];
  }

  lemma TargetIsRead(v: World, who: Attempt, op: Op, key: Key, pins: PinTable, temp: nat)
    requires PinsAt(v.files, op.dir).Some?
    ensures var u := Apply(v, who, op, Proceed(v, who, op, ReadingTarget(key, pins), seq(32, _ => 0), temp));
      && u.files == v.files && u.usedTemps == v.usedTemps
      && At(u, who, op, if PinsAt(v.files, op.dir).value == map[] then Staging(NewPins(map[], pins, Some(key)))
                        else Staging(NewKey(key)))
  {
  }

  lemma PublishedPinsAreRead(w: World, op: Op, pins: PinTable, files: Files)
    requires op.Adopt? && PinsAt(w.files, op.legacy) == Some(pins)
    ensures PinsAt(files[PinFile(op.dir) := Pins(pins)], op.dir) == Some(pins)
  {
  }

  // ---------------------------------------------------------------------------------------------
  // The other operations complete too
  // ---------------------------------------------------------------------------------------------

  /** An operation begins, takes the lock and reads, and goes on as what it read decides. */
  lemma ReadsAlone(w: World, who: Attempt, op: Op, key: Key, temp: nat) returns (more: seq<Action>)
    requires !op.Adopt? && (op.LoadOrCreate? ==> op.locks) && (op.PinHub? ==> ValidPin(op.node, op.key))
    requires who !in w.usedAttempts && op.dir !in w.locks
    ensures var v := Run(w, more);
      At(v, who, op, AfterRead(w, op, key)) && v.files == w.files && v.usedTemps == w.usedTemps && v.log == w.log
  {
    hide AfterRead, ValidPin;
    var begun := Run(w, [Begin(who, op)]);
    BeginStarts(w, who, op);
    var locking, reading := Advance(who, seq(32, _ => 0), temp), Advance(who, key, temp);
    more := [Begin(who, op)] + [locking] + [reading];
    StepOfOne(begun, locking, op, Starting);
    LocksAlone(begun, who, op, temp);
    var locked := Do(begun, locking);
    StepOfOne(locked, reading, op, Reading);
    SameFilesReadAlike(w, locked, op, key);
    RunInParts(w, [Begin(who, op)], [locking]);
    RunInParts(w, [Begin(who, op)] + [locking], [reading]);
    RunOne(begun, locking);
    RunOne(locked, reading);
    hide Do, Run;
  }

  lemma RunOne(w: World, a: Action)
    ensures Run(w, [a]) == Do(w, a)
  {
    hide Do;
    assert [a][..0] == [];
  }

  lemma StepOfOne(w: World, a: Action, op: Op, stage: Stage)
    requires At(w, a.who, op, stage) && a.Advance?
    ensures Do(w, a) == Apply(w, a.who, op, Proceed(w, a.who, op, stage, a.key, a.temp))
  {
    hide Proceed, Apply;
  }

  lemma LocksAlone(w: World, who: Attempt, op: Op, temp: nat)
    requires At(w, who, op, Starting) && op.dir !in w.locks
    requires !op.Adopt? && (op.LoadOrCreate? ==> op.locks) && (op.PinHub? ==> ValidPin(op.node, op.key))
    ensures var v := Apply(w, who, op, Proceed(w, who, op, Starting, seq(32, _ => 0), temp));
      At(v, who, op, Reading) && v.files == w.files && v.usedTemps == w.usedTemps && v.log == w.log
  {
    hide ValidPin;
  }

  lemma SameFilesReadAlike(w: World, v: World, op: Op, key: Key)
    requires w.files == v.files
    ensures AfterRead(w, op, key) == AfterRead(v, op, key)
  {
    hide PinsAt, KeyAt, EqualIgnoringCase;
  }

  /** A decided publication goes through, and the operation returns what it was to return. */
  lemma PublishesAndReturns(w: World, who: Attempt, op: Op, goal: Goal, outcome: Outcome, temp: nat)
    returns (more: seq<Action>)
    requires At(w, who, op, Staging(goal)) && Temp(temp) !in w.files && temp !in w.usedTemps
    requires goal.NewKey? ==> Target(op, goal) !in w.files
    requires AfterPublication(op, goal, Published) == Finishing(outcome)
    ensures var v := Run(w, more);
      v.files == w.files[Target(op, goal) := ContentOf(goal)] && Returned(who, op, outcome) in v.log
  {
    hide Proceed, AfterPublication, ContentOf, Target, Apply;
    PublishesAlone(w, who, temp, op, goal);
    more := AloneIsARun(w, who, temp, 5);
    NextAlone(w, who, temp, 4, op, Finishing(outcome));
    ReturnReturns(Alone(w, who, temp, 4), who, op, outcome, temp);
  }

  /** In a folder that nobody holds and that has no key, a creator that meets no failure makes the key it drew. */
  lemma CreationCompletes(w: World, who: Attempt, dir: Folder, key: Key, temp: nat) returns (more: seq<Action>)
    requires who !in w.usedAttempts && dir !in w.locks && KeyFile(dir) !in w.files
    requires Temp(temp) !in w.files && temp !in w.usedTemps
    ensures var v := Run(w, more);
      KeyAt(v.files, dir) == Some(key) && Returned(who, LoadOrCreate(dir, true), KeyIs(key)) in v.log
  {
    hide DecodeKey, Encode, Run;
    var op := LoadOrCreate(dir, true);
    var opening := ReadsAlone(w, who, op, key, temp);
    var publishes := PublishesAndReturns(Run(w, opening), who, op, NewKey(key), KeyIs(key), temp);
    more := opening + publishes;
    RunInParts(w, opening, publishes);
    ReadsWrittenKey(key);
  }

  /** With readable pins and none for the node, a first contact that meets no failure is pinned beside the others. */
  lemma FirstContactIsPinned(w: World, who: Attempt, dir: Folder, node: string, key: string, temp: nat)
    returns (more: seq<Action>)
    requires who !in w.usedAttempts && dir !in w.locks && Temp(temp) !in w.files && temp !in w.usedTemps
    requires !IsBlank(node) && |key| == 64 && IsHexText(key)
    requires PinsAt(w.files, dir).Some? && node !in PinsAt(w.files, dir).value
    ensures var v := Run(w, more);
      && PinsAt(v.files, dir) == Some(PinsAt(w.files, dir).value[node := key])
      && Returned(who, PinHub(dir, node, key), Pinned) in v.log
  {
    hide Run, ValidPin, IsBlank, IsHexText;
    var op := PinHub(dir, node, key);
    ValidPinsAreHex(node, key);
    var opening := ReadsAlone(w, who, op, seq(32, _ => 0), temp);
    var was := PinsAt(w.files, dir).value;
    var goal := NewPins(was, was[node := key], None);
    var publishes := PublishesAndReturns(Run(w, opening), who, op, goal, Pinned, temp);
    more := opening + publishes;
    RunInParts(w, opening, publishes);
    PinsAtAreValid(w.files, dir);
  }

  /** A node that is pinned and forgotten without a failure has no pin, and the others keep theirs. */
  lemma ForgettingCompletes(w: World, who: Attempt, dir: Folder, node: string, temp: nat) returns (more: seq<Action>)
    requires who !in w.usedAttempts && dir !in w.locks && Temp(temp) !in w.files && temp !in w.usedTemps
    requires PinsAt(w.files, dir).Some? && node in PinsAt(w.files, dir).value
    ensures var v := Run(w, more);
      && PinsAt(v.files, dir) == Some(PinsAt(w.files, dir).value - {node})
      && Returned(who, Forget(dir, node), Forgotten) in v.log
  {
    hide Run, ValidPin;
    var op := Forget(dir, node);
    var opening := ReadsAlone(w, who, op, seq(32, _ => 0), temp);
    var was := PinsAt(w.files, dir).value;
    var goal := NewPins(was, was - {node}, None);
    var publishes := PublishesAndReturns(Run(w, opening), who, op, goal, Forgotten, temp);
    more := opening + publishes;
    RunInParts(w, opening, publishes);
    PinsAtAreValid(w.files, dir);
  }

  /** What the read decides at once is what the operation returns, and no file changes. */
  lemma DecidesAlone(w: World, who: Attempt, op: Op, outcome: Outcome) returns (more: seq<Action>)
    requires !op.Adopt? && (op.LoadOrCreate? ==> op.locks) && (op.PinHub? ==> ValidPin(op.node, op.key))
    requires who !in w.usedAttempts && op.dir !in w.locks
    requires AfterRead(w, op, seq(32, _ => 0)) == Finishing(outcome)
    ensures Run(w, more).files == w.files && Returned(who, op, outcome) in Run(w, more).log
  {
    hide AfterRead, Proceed, Apply, ValidPin, Run;
    var opening := ReadsAlone(w, who, op, seq(32, _ => 0), 0);
    var v := Run(w, opening);
    var last := Advance(who, seq(32, _ => 0), 0);
    StepOfOne(v, last, op, Finishing(outcome));
    ReturnReturns(v, who, op, outcome, 0);
    more := opening + [last];
    RunInParts(w, opening, [last]);
    RunOne(v, last);
  }

  /** A creator in a folder that has a key returns that key. */
  lemma ExistingKeyIsReturned(w: World, who: Attempt, dir: Folder, key: Key) returns (more: seq<Action>)
    requires who !in w.usedAttempts && dir !in w.locks && KeyAt(w.files, dir) == Some(key)
    ensures Run(w, more).files == w.files && Returned(who, LoadOrCreate(dir, true), KeyIs(key)) in Run(w, more).log
  {
    hide Run, DecodeKey;
    more := DecidesAlone(w, who, LoadOrCreate(dir, true), KeyIs(key));
  }

  /** A hub whose node is pinned is recognised exactly when its key spells the pinned bytes, and refused otherwise. */
  lemma KnownHubIsRecognised(w: World, who: Attempt, dir: Folder, node: string, key: string) returns (more: seq<Action>)
    requires who !in w.usedAttempts && dir !in w.locks
    requires !IsBlank(node) && |key| == 64 && IsHexText(key)
    requires PinsAt(w.files, dir).Some? && node in PinsAt(w.files, dir).value
    ensures var same := Decode(PinsAt(w.files, dir).value[node]) == Decode(key);
      && Run(w, more).files == w.files
      && Returned(who, PinHub(dir, node, key), if same then Pinned else Refused) in Run(w, more).log
  {
    hide Run, ValidPin, IsBlank, IsHexText, Decode, EqualIgnoringCase;
    var stored := PinsAt(w.files, dir).value[node];
    PinsAtAreValid(w.files, dir);
    ValidPinsAreHex(node, key);
    ValidPinsAreHex(node, stored);
    SameDigitsSameBytes(stored, key);
    more := DecidesAlone(w, who, PinHub(dir, node, key), if Decode(stored) == Decode(key) then Pinned else Refused);
  }
}
