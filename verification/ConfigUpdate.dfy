/**
 * Changing a runtime group's configuration while others change it too (src/control.rs): read it, merge the delta
 * into what was read, and write the result back on condition that nothing was written in between.
 */
module ConfigUpdate {
  import opened Wrappers
  import opened Json
  import opened ConfigMerge

  datatype Content = Content(config: Json, personas: Json)

  /** One write the server took: `ours` when this call made it. */
  datatype Version = Version(content: Content, ours: bool)

  /** All the server ever stored, the current content last. */
  type Log = seq<Version>

  /**
   * How the server names what it stores, from all it stored up to there. `revisions` is false for a server that
   * does not hand its names out.
   */
  datatype Naming = Naming(revisions: bool, name: Log -> string)

  /**
   * Among these versions a name was given again only to the same content. A counter that has not wrapped does so, and a
   * digest that has not collided; of versions the server never stored nothing is asked.
   */
  ghost predicate NamesContent(naming: Naming, log: Log)
  {
    forall i, j :: 0 <= i < |log| && 0 <= j < |log| && naming.name(log[..i + 1]) == naming.name(log[..j + 1]) ==>
      log[i].content == log[j].content
  }

  // ---------------------------------------------------------------------------------------------
  // The server, and what may go wrong on the way to it
  // ---------------------------------------------------------------------------------------------

  /** The status of a failed request, when an answer came at all. */
  type Status = Option<nat>

  datatype Delivery =
    | Delivered
    | NotDone(status: Status)
    | AnswerLost(status: Status)

  /** What happens around one attempt: the writes of others before its read and before its write, and the faults. */
  datatype Turn = Turn(before: seq<Content>, read: Option<Status>, between: seq<Content>, write: Delivery)

  function ByOthers(contents: seq<Content>): (r: Log)
    ensures |r| == |contents| && forall i :: 0 <= i < |r| ==> r[i] == Version(contents[i], false)
  {
    seq(|contents|, i requires 0 <= i < |contents| => Version(contents[i], false))
  }

  /** What the server answers to a read. */
  function Snapshot(naming: Naming, log: Log): Json
    requires log != []
  {
    var fields := map["config" := log[|log| - 1].content.config, "personas" := log[|log| - 1].content.personas];
    Object(if naming.revisions then fields["revision" := String(naming.name(log))] else fields)
  }

  /** The content after an update: personas are replaced only when given. */
  function Updated(content: Content, delta: Json, personas: Option<Json>): Content
  {
    Content(Merge(content.config, delta), if personas.Some? then personas.value else content.personas)
  }

  function Replaced(content: Content, config: Json, personas: Option<Json>): Content
  {
    Content(config, if personas.Some? then personas.value else content.personas)
  }

  /** The server takes a write only under the name of what it holds. */
  class Server {
    const naming: Naming
    var log: Log

    ghost predicate Valid()
      reads this
    {
      log != []
    }

    constructor (naming: Naming, content: Content)
      ensures Valid() && this.naming == naming && log == [Version(content, false)]
    {
      this.naming := naming;
      log := [Version(content, false)];
    }

    /** Other writers' writes. */
    method Elsewhere(contents: seq<Content>)
      requires Valid()
      modifies this
      ensures Valid() && log == old(log) + ByOthers(contents)
    {
      log := log + ByOthers(contents);
    }

    method Get(fault: Option<Status>) returns (r: Result<Json, Status>)
      requires Valid()
      ensures r == if fault.Some? then Err(fault.value) else Ok(Snapshot(naming, log))
    {
      r := if fault.Some? then Err(fault.value) else Ok(Snapshot(naming, log));
    }

    method Put(config: Json, expected: string, personas: Option<Json>, delivery: Delivery)
      returns (r: Result<(), Status>)
      requires Valid()
      modifies this
      ensures Valid()
      ensures (log, r) == Stored(naming, old(log), config, expected, personas, delivery)
    {
      if delivery.NotDone? {
        return Err(delivery.status);
      }
      r := Err(Some(412));
      if naming.name(log) == expected {
        log := log + [Version(Replaced(log[|log| - 1].content, config, personas), true)];
        r := Ok(());
      }
      if delivery.AnswerLost? {
        r := Err(delivery.status);
      }
    }
  }

  function Stored(naming: Naming, log: Log, config: Json, expected: string, personas: Option<Json>, delivery: Delivery)
    : (Log, Result<(), Status>)
    requires log != []
  {
    var taken := !delivery.NotDone? && naming.name(log) == expected;
    (if taken then log + [Version(Replaced(log[|log| - 1].content, config, personas), true)] else log,
     if !delivery.Delivered? then Err(delivery.status) else if taken then Ok(()) else Err(Some(412)))
  }

  // ---------------------------------------------------------------------------------------------
  // The update
  // ---------------------------------------------------------------------------------------------

  datatype UpdateError =
    | ConfigIsNoObject
    | UnsafeNumber
    | NoSafeMerge
    | Http(status: Status)

  predicate IsRevision(text: string)
  {
    |text| == 64 && forall c <- text :: '0' <= c <= '9' || 'a' <= c <= 'f'
  }

  /** What an attempt can go on with. */
  predicate CanMerge(naming: Naming, log: Log)
    requires log != []
  {
    naming.revisions && IsRevision(naming.name(log)) && log[|log| - 1].content.config.Object?
  }

  /** How an update ended: what the server holds, what the call returned, and what each attempt came to. */
  datatype Ended = Ended(log: Log, result: Result<(), UpdateError>, answers: seq<Result<(), UpdateError>>)

  function After(answers: seq<Result<(), UpdateError>>, ended: Ended): Ended
  {
    ended.(answers := answers + ended.answers)
  }

  /** One attempt: what the server holds after it, and what came back. */
  function Attempt(naming: Naming, log: Log, delta: Json, personas: Option<Json>, safe: string -> bool, t: Turn)
    : (Log, Result<(), UpdateError>)
    requires log != []
  {
    var seen := log + ByOthers(t.before);
    if t.read.Some? then (seen, Err(Http(t.read.value)))
    else if !CanMerge(naming, seen) then (seen, Err(NoSafeMerge))
    else if !SafeNumbers(seen[|seen| - 1].content.config, safe) then (seen, Err(UnsafeNumber))
    else
      var merged := Merge(seen[|seen| - 1].content.config, delta);
      var (after, r) := Stored(naming, seen + ByOthers(t.between), merged, naming.name(seen), personas, t.write);
      (after, if r.Ok? then Ok(()) else Err(Http(r.error)))
  }

  function Attempts(naming: Naming, log: Log, delta: Json, personas: Option<Json>, safe: string -> bool,
                    turns: nat -> Turn, k: nat): Ended
    requires log != [] && k < 3
    decreases 3 - k
  {
    var (after, r) := Attempt(naming, log, delta, personas, safe, turns(k));
    if Retries(turns(k), r) && k < 2 then After([r], Attempts(naming, after, delta, personas, safe, turns, k + 1))
    else Ended(after, r, [r])
  }

  /** Only a write that came back with 412 is tried again. */
  predicate Retries(t: Turn, r: Result<(), UpdateError>)
  {
    t.read.None? && r == Err(Http(Some(412)))
  }

  function Update(naming: Naming, log: Log, config: Json, personas: Option<Json>, safe: string -> bool,
                  turns: nat -> Turn): Ended
    requires log != []
  {
    if !config.Object? then Ended(log, Err(ConfigIsNoObject), [])
    else if !SafeNumbers(config, safe) || (personas.Some? && !SafeNumbers(personas.value, safe))
    then Ended(log, Err(UnsafeNumber), [])
    else Attempts(naming, log, config, personas, safe, turns, 0)
  }

  /** The revision and the config of an answer that has both. */
  function ReadSnapshot(snapshot: Json): Option<(string, Json)>
  {
    if snapshot.Object? && "revision" in snapshot.fields && snapshot.fields["revision"].String?
       && IsRevision(snapshot.fields["revision"].text)
       && "config" in snapshot.fields && snapshot.fields["config"].Object?
    then Some((snapshot.fields["revision"].text, snapshot.fields["config"]))
    else None
  }

  lemma SnapshotIsRead(naming: Naming, log: Log)
    requires log != []
    ensures ReadSnapshot(Snapshot(naming, log)) ==
            if CanMerge(naming, log) then Some((naming.name(log), log[|log| - 1].content.config)) else None
  {
    hide IsRevision;
    var fields := Snapshot(naming, log).fields;
    assert "config" in fields && fields["config"] == log[|log| - 1].content.config by {
      assert "config" != "revision" && "config" != "personas" by { assert |"config"| == 6; }
    }
    assert !naming.revisions ==> "revision" !in fields by {
      assert "revision" != "personas" && "revision" != "config" by { assert "revision"[0] == 'r'; }
    }
  }

  method UpdateRuntimeGroupConfig(server: Server, config: Json, personas: Option<Json>, safe: string -> bool,
                                  turns: nat -> Turn)
    returns (r: Result<(), UpdateError>, ghost answers: seq<Result<(), UpdateError>>)
    requires server.Valid()
    modifies server
    ensures server.Valid()
    ensures Ended(server.log, r, answers) == Update(server.naming, old(server.log), config, personas, safe, turns)
  {
    hide SafeNumbers;
    answers := [];
    if !config.Object? {
      return Err(ConfigIsNoObject), [];
    }
    var valid := ValidateConfigNumbers(config, safe);
    if !valid {
      return Err(UnsafeNumber), [];
    }
    if personas.Some? {
      valid := ValidateConfigNumbers(personas.value, safe);
      if !valid {
        return Err(UnsafeNumber), [];
      }
    }
    hide Attempt;
    for attempt := 0 to 3
      invariant server.Valid() && attempt < 3
      invariant Update(server.naming, old(server.log), config, personas, safe, turns) ==
                After(answers, Attempts(server.naming, server.log, config, personas, safe, turns, attempt))
    {
      ghost var before := answers;
      r := AttemptUpdate(server, config, personas, safe, turns(attempt));
      answers := before + [r];
      if !(Retries(turns(attempt), r) && attempt < 2) {
        return;
      }
      assert forall e: Ended :: After(before, After([r], e)).answers == before + [r] + e.answers;
    }
    assert false;
  }

  /** Reads, merges and writes once. */
  method AttemptUpdate(server: Server, config: Json, personas: Option<Json>, safe: string -> bool, t: Turn)
    returns (r: Result<(), UpdateError>)
    requires server.Valid()
    modifies server
    ensures server.Valid()
    ensures (server.log, r) == Attempt(server.naming, old(server.log), config, personas, safe, t)
  {
    hide IsRevision, SafeNumbers, Merge, Snapshot, ReadSnapshot, Stored;
    server.Elsewhere(t.before);
    var snapshot := server.Get(t.read);
    if snapshot.Err? {
      return Err(Http(snapshot.error));
    }
    SnapshotIsRead(server.naming, server.log);
    var read := ReadSnapshot(snapshot.value);
    if read.None? {
      return Err(NoSafeMerge);
    }
    var (revision, base) := read.value;
    var valid := ValidateConfigNumbers(base, safe);
    if !valid {
      return Err(UnsafeNumber);
    }
    var merged := MergeRuntimeConfig(base, config);
    server.Elsewhere(t.between);
    var result := server.Put(merged, revision, personas, t.write);
    r := if result.Ok? then Ok(()) else Err(Http(result.error));
  }

  // ---------------------------------------------------------------------------------------------
  // What an update may count on
  // ---------------------------------------------------------------------------------------------

  /** Version `i` is the delta merged into the version just before it. */
  ghost predicate IsMerge(log: Log, i: nat, delta: Json, personas: Option<Json>, safe: string -> bool)
    requires 0 < i < |log|
  {
    && log[i].content == Updated(log[i - 1].content, delta, personas)
    && SafeNumbers(log[i].content.config, safe)
  }

  lemma SameNameSameContent(naming: Naming, seen: Log, now: Log, log: Log)
    requires NamesContent(naming, log) && seen != [] && seen <= now <= log
    ensures naming.name(now) == naming.name(seen) ==> now[|now| - 1].content == seen[|seen| - 1].content
  {
    assert log[..|seen| - 1 + 1] == seen && log[..|now| - 1 + 1] == now;
  }

  lemma NamesContentBefore(naming: Naming, before: Log, log: Log)
    requires NamesContent(naming, log) && before <= log
    ensures NamesContent(naming, before)
  {
    forall i, j | 0 <= i < |before| && 0 <= j < |before| && naming.name(before[..i + 1]) == naming.name(before[..j + 1])
      ensures before[i].content == before[j].content
    {
      assert before[..i + 1] == log[..i + 1] && before[..j + 1] == log[..j + 1];
    }
  }

  lemma StoredIsMerge(now: Log, after: Log, base: Content, delta: Json, personas: Option<Json>, safe: string -> bool)
    requires now != [] && now[|now| - 1].content == base && SafeNumbers(base.config, safe) && SafeNumbers(delta, safe)
    requires after == now + [Version(Replaced(base, Merge(base.config, delta), personas), true)]
    ensures IsMerge(after, |now|, delta, personas, safe)
  {
    hide SafeNumbers, Merge;
    MergeKeepsNumbersSafe(base.config, delta, safe);
  }

  lemma AttemptMerges(naming: Naming, log: Log, delta: Json, personas: Option<Json>, safe: string -> bool, t: Turn)
    requires log != [] && SafeNumbers(delta, safe)
    ensures var (after, r) := Attempt(naming, log, delta, personas, safe, t);
      && log <= after
      && (forall i :: |log| <= i < |after| && after[i].ours ==> i == |after| - 1 && (r.Ok? || t.write.AnswerLost?))
      && (NamesContent(naming, after) ==>
            forall i :: |log| <= i < |after| && after[i].ours ==> IsMerge(after, i, delta, personas, safe))
      && (r.Ok? ==> |log| < |after| && after[|after| - 1].ours)
  {
    hide IsRevision, SafeNumbers, Merge, CanMerge, NamesContent, Stored;
    var seen := log + ByOthers(t.before);
    var now := seen + ByOthers(t.between);
    hide IsMerge;
    if t.read.None? && CanMerge(naming, seen) && SafeNumbers(seen[|seen| - 1].content.config, safe) {
      var base := seen[|seen| - 1].content;
      StoresNothingOrOneMore(naming, now, Merge(base.config, delta), naming.name(seen), personas, t.write);
      var after := Attempt(naming, log, delta, personas, safe, t).0;
      if NamesContent(naming, after) {
        SameNameSameContent(naming, seen, now, after);
        if |now| < |after| {
          StoredIsMerge(now, after, base, delta, personas, safe);
        }
      }
    }
  }

  lemma StoresNothingOrOneMore(naming: Naming, log: Log, config: Json, expected: string, personas: Option<Json>,
                               delivery: Delivery)
    requires log != []
    ensures var (after, r) := Stored(naming, log, config, expected, personas, delivery);
      || (after == log && r.Err?)
      || (&& after == log + [Version(Replaced(log[|log| - 1].content, config, personas), true)]
          && naming.name(log) == expected && (r.Ok? || delivery.AnswerLost?))
  {}

  lemma {:induction false} AttemptsMerge(naming: Naming, log: Log, delta: Json, personas: Option<Json>,
                                         safe: string -> bool, turns: nat -> Turn, k: nat)
    requires log != [] && k < 3 && SafeNumbers(delta, safe)
    ensures var e := Attempts(naming, log, delta, personas, safe, turns, k);
      && log <= e.log
      && (NamesContent(naming, e.log) ==>
            forall i :: |log| <= i < |e.log| && e.log[i].ours ==> IsMerge(e.log, i, delta, personas, safe))
      && (e.result.Ok? ==> |log| < |e.log| && e.log[|e.log| - 1].ours)
      && ((forall j :: k <= j < k + |e.answers| ==> !turns(j).write.AnswerLost?) ==>
            forall i :: |log| <= i < |e.log| && e.log[i].ours ==> i == |e.log| - 1 && e.result.Ok?)
    decreases 3 - k
  {
    hide Attempt, IsMerge, NamesContent, SafeNumbers;
    AttemptMerges(naming, log, delta, personas, safe, turns(k));
    var (after, r) := Attempt(naming, log, delta, personas, safe, turns(k));
    if Retries(turns(k), r) && k < 2 {
      AttemptsMerge(naming, after, delta, personas, safe, turns, k + 1);
      var e := Attempts(naming, log, delta, personas, safe, turns, k);
      if NamesContent(naming, e.log) {
        NamesContentBefore(naming, after, e.log);
        forall i | |log| <= i < |after| && after[i].ours
          ensures IsMerge(e.log, i, delta, personas, safe)
        {
          MergeStays(after, e.log, i, delta, personas, safe);
        }
      }
    }
  }

  /** Each attempt but the last was a write that came back with 412. */
  ghost predicate RetriedAfter412(answers: seq<Result<(), UpdateError>>, turns: nat -> Turn, k: nat)
  {
    |answers| <= 1 ||
    (turns(k).read.None? && answers[0] == Err(Http(Some(412))) && RetriedAfter412(answers[1..], turns, k + 1))
  }

  lemma {:induction false} AttemptsAreAnswered(naming: Naming, log: Log, delta: Json, personas: Option<Json>,
                                               safe: string -> bool, turns: nat -> Turn, k: nat)
    requires log != [] && k < 3
    ensures var e := Attempts(naming, log, delta, personas, safe, turns, k);
      && 0 < |e.answers| <= 3 - k && e.answers[|e.answers| - 1] == e.result
      && RetriedAfter412(e.answers, turns, k)
    decreases 3 - k
  {
    hide Attempt, RetriedAfter412;
    var (after, r) := Attempt(naming, log, delta, personas, safe, turns(k));
    if Retries(turns(k), r) && k < 2 {
      AttemptLeavesSomething(naming, log, delta, personas, safe, turns(k));
      AttemptsAreAnswered(naming, after, delta, personas, safe, turns, k + 1);
      OneMoreAnswer(r, Attempts(naming, after, delta, personas, safe, turns, k + 1).answers, turns, k);
    } else {
      OneAnswer(r, turns, k);
    }
  }

  lemma AttemptLeavesSomething(naming: Naming, log: Log, delta: Json, personas: Option<Json>, safe: string -> bool,
                               t: Turn)
    requires log != []
    ensures Attempt(naming, log, delta, personas, safe, t).0 != []
  {
    hide SafeNumbers, Merge, IsRevision, CanMerge;
  }

  lemma OneAnswer(r: Result<(), UpdateError>, turns: nat -> Turn, k: nat)
    ensures RetriedAfter412([r], turns, k)
  {}

  lemma OneMoreAnswer(r: Result<(), UpdateError>, answers: seq<Result<(), UpdateError>>, turns: nat -> Turn, k: nat)
    requires RetriedAfter412(answers, turns, k + 1) && Retries(turns(k), r)
    ensures RetriedAfter412([r] + answers, turns, k)
  {
    assert ([r] + answers)[1..] == answers;
  }

  lemma MergeStays(before: Log, after: Log, i: nat, delta: Json, personas: Option<Json>, safe: string -> bool)
    requires before <= after && 0 < i < |before| && IsMerge(before, i, delta, personas, safe)
    ensures IsMerge(after, i, delta, personas, safe)
  {}

  /**
   * Whatever others write in the meantime, and whatever goes wrong on the way: as long as the server names no two
   * contents alike, everything this call stores is the delta merged into the very content it replaces. Nobody's
   * write is undone, there are at most three attempts, and each but the last was a write answered with 412. A
   * success stores last; and where no answer is lost, a failure has stored nothing.
   */
  lemma UpdatesAreMergesOfTheCurrentConfig(naming: Naming, log: Log, config: Json, personas: Option<Json>,
                                           safe: string -> bool, turns: nat -> Turn)
    requires log != []
    ensures var e := Update(naming, log, config, personas, safe, turns);
      && log <= e.log && |e.answers| <= 3
      && (NamesContent(naming, e.log) ==>
            forall i :: |log| <= i < |e.log| && e.log[i].ours ==> IsMerge(e.log, i, config, personas, safe))
      && (e.result.Ok? ==> |log| < |e.log| && e.log[|e.log| - 1].ours)
      && RetriedAfter412(e.answers, turns, 0)
      && (e.answers != [] ==> e.answers[|e.answers| - 1] == e.result)
      && ((forall j :: 0 <= j < |e.answers| ==> !turns(j).write.AnswerLost?) ==>
            forall i :: |log| <= i < |e.log| && e.log[i].ours ==> i == |e.log| - 1 && e.result.Ok?)
  {
    hide Attempts, IsMerge, NamesContent, SafeNumbers, RetriedAfter412;
    if config.Object? && SafeNumbers(config, safe) {
      AttemptsMerge(naming, log, config, personas, safe, turns, 0);
      AttemptsAreAnswered(naming, log, config, personas, safe, turns, 0);
    }
    NoAnswers(turns);
  }

  lemma NoAnswers(turns: nat -> Turn)
    ensures RetriedAfter412([], turns, 0)
  {}

  /**
   * Whenever an update stores something, every path the delta does not reach keeps what it held in the version
   * replaced, which others may have written a moment before, and every plain value of the delta stands in its place.
   */
  lemma OthersChangesSurvive(naming: Naming, log: Log, config: Json, personas: Option<Json>, safe: string -> bool,
                             turns: nat -> Turn, i: nat, path: seq<string>)
    requires log != []
    ensures var stored := Update(naming, log, config, personas, safe, turns).log;
      NamesContent(naming, stored) && |log| <= i < |stored| && stored[i].ours ==>
        var before, after := stored[i - 1].content, stored[i].content;
        && (At(config, path).None? && !Cuts(config, path) ==> At(after.config, path) == At(before.config, path))
        && (At(config, path).Some? && !At(config, path).value.Object? ==> At(after.config, path) == At(config, path))
        && after.personas == if personas.Some? then personas.value else before.personas
  {
    hide Update, At, Merge, Cuts, SafeNumbers, NamesContent;
    var stored := Update(naming, log, config, personas, safe, turns).log;
    if NamesContent(naming, stored) && |log| <= i < |stored| && stored[i].ours {
      UpdatesAreMergesOfTheCurrentConfig(naming, log, config, personas, safe, turns);
      assert IsMerge(stored, i, config, personas, safe);
      MergeAt(stored[i - 1].content.config, config, path);
      if At(config, path).Some? && !At(config, path).value.Object? {
        PlainValuesWin(stored[i - 1].content.config, config, path);
      }
    }
  }

  /** A delta that is no object is refused, and so is an unsafe number, before anything is asked of the server. */
  lemma BadDeltasAreRefused(naming: Naming, log: Log, config: Json, personas: Option<Json>, safe: string -> bool,
                            turns: nat -> Turn)
    requires log != []
    ensures var e := Update(naming, log, config, personas, safe, turns);
      && ((forall fields :: config != Object(fields)) ==> e == Ended(log, Err(ConfigIsNoObject), []))
      && (config.Object? && (!SafeNumbers(config, safe) || (personas.Some? && !SafeNumbers(personas.value, safe))) ==>
            e == Ended(log, Err(UnsafeNumber), []))
  {
    hide SafeNumbers, Attempts;
    if !config.Object? {
    } else {
      assert config == Object(config.fields);
    }
  }

  /** What a server hands out that an update can go on: its name, of 64 hexadecimal digits, and a config object. */
  ghost predicate HandsOut(naming: Naming, log: Log)
  {
    && log != [] && naming.revisions && log[|log| - 1].content.config.Object?
    && |naming.name(log)| == 64 && forall i :: 0 <= i < 64 ==> naming.name(log)[i] in "0123456789abcdef"
  }

  lemma HandsOutMeansCanMerge(naming: Naming, log: Log)
    requires log != []
    ensures HandsOut(naming, log) <==> CanMerge(naming, log)
  {
    var name := naming.name(log);
    if HandsOut(naming, log) {
      forall c <- name ensures '0' <= c <= '9' || 'a' <= c <= 'f' {
        var i :| 0 <= i < |name| && name[i] == c;
      }
    }
    if CanMerge(naming, log) {
      forall i | 0 <= i < |name| ensures name[i] in "0123456789abcdef" {
        assert name[i] in name;
        IsOneOfSixteen(name[i]);
      }
    }
  }

  lemma IsOneOfSixteen(c: char)
    requires '0' <= c <= '9' || 'a' <= c <= 'f'
    ensures c in "0123456789abcdef"
  {
    var digits := "0123456789abcdef";
    var n := if c <= '9' then c as int - '0' as int else c as int - 'a' as int + 10;
    assert digits[n] == c;
  }

  /** Left alone, an update of an object by an object succeeds at once, and what it stores is the merge. */
  lemma UndisturbedUpdatesSucceed(naming: Naming, log: Log, config: Json, personas: Option<Json>, safe: string -> bool,
                                  turns: nat -> Turn)
    requires log != [] && HandsOut(naming, log) && SafeNumbers(log[|log| - 1].content.config, safe)
    requires config.Object? && SafeNumbers(config, safe) && (personas.Some? ==> SafeNumbers(personas.value, safe))
    requires turns(0) == Turn([], None, [], Delivered)
    ensures var was := log[|log| - 1].content;
      var now := Content(Merge(was.config, config), if personas.Some? then personas.value else was.personas);
      Update(naming, log, config, personas, safe, turns) == Ended(log + [Version(now, true)], Ok(()), [Ok(())])
  {
    hide SafeNumbers, Merge, CanMerge, HandsOut;
    HandsOutMeansCanMerge(naming, log);
    assert log + ByOthers([]) == log;
  }

  /** Without its current name of that form or without a config object, a server that is read is never written to. */
  lemma UnnamedConfigsAreLeftAlone(naming: Naming, log: Log, config: Json, personas: Option<Json>, safe: string -> bool,
                                   turns: nat -> Turn)
    requires log != [] && config.Object? && SafeNumbers(config, safe)
    requires personas.Some? ==> SafeNumbers(personas.value, safe)
    requires turns(0).read.None? && !HandsOut(naming, log + ByOthers(turns(0).before))
    ensures Update(naming, log, config, personas, safe, turns) ==
            Ended(log + ByOthers(turns(0).before), Err(NoSafeMerge), [Err(NoSafeMerge)])
  {
    hide SafeNumbers, Merge, CanMerge, HandsOut;
    HandsOutMeansCanMerge(naming, log + ByOthers(turns(0).before));
  }

  /** With nothing going wrong on the way, an update is refused in the end only if others wrote during every attempt. */
  lemma LosesOnlyToOthers(naming: Naming, log: Log, config: Json, personas: Option<Json>, safe: string -> bool,
                          turns: nat -> Turn)
    requires log != [] && forall j :: 0 <= j < 3 ==> turns(j).read.None? && turns(j).write.Delivered?
    requires Update(naming, log, config, personas, safe, turns).result == Err(Http(Some(412)))
    ensures |Update(naming, log, config, personas, safe, turns).answers| == 3
    ensures forall j :: 0 <= j < 3 ==> turns(j).between != []
  {
    hide SafeNumbers, Attempts;
    AttemptsLoseOnlyToOthers(naming, log, config, personas, safe, turns, 0);
  }

  lemma {:induction false} AttemptsLoseOnlyToOthers(naming: Naming, log: Log, delta: Json, personas: Option<Json>,
                                                    safe: string -> bool, turns: nat -> Turn, k: nat)
    requires log != [] && k < 3 && forall j :: k <= j < 3 ==> turns(j).read.None? && turns(j).write.Delivered?
    requires Attempts(naming, log, delta, personas, safe, turns, k).result == Err(Http(Some(412)))
    ensures |Attempts(naming, log, delta, personas, safe, turns, k).answers| == 3 - k
    ensures forall j :: k <= j < 3 ==> turns(j).between != []
    decreases 3 - k
  {
    hide Attempt;
    var (after, r) := Attempt(naming, log, delta, personas, safe, turns(k));
    AnAttemptLosesOnlyToOthers(naming, log, delta, personas, safe, turns(k));
    if k < 2 {
      AttemptsLoseOnlyToOthers(naming, after, delta, personas, safe, turns, k + 1);
    }
  }

  lemma AnAttemptLosesOnlyToOthers(naming: Naming, log: Log, delta: Json, personas: Option<Json>, safe: string -> bool,
                                   t: Turn)
    requires log != [] && t.read.None? && t.write.Delivered?
    ensures Attempt(naming, log, delta, personas, safe, t).0 != []
    ensures Attempt(naming, log, delta, personas, safe, t).1 == Err(Http(Some(412))) ==> t.between != []
  {
    hide SafeNumbers, Merge, IsRevision;
    var seen := log + ByOthers(t.before);
    if t.between == [] {
      assert seen + ByOthers(t.between) == seen;
    }
  }

  /** A second update with the same delta, right after a first, stores the content that is there already. */
  lemma RepeatingAnUpdateIsHarmless(content: Content, delta: Json, personas: Option<Json>)
    ensures Updated(Updated(content, delta, personas), delta, personas) == Updated(content, delta, personas)
  {
    MergeIsIdempotent(content.config, delta);
  }

  /** Two updates that name no value differently leave the same content in whichever order they are stored. */
  lemma UpdatesCommuteExactlyWhen(content: Content, one: Json, other: Json)
    ensures Updated(Updated(content, one, None), other, None) == Updated(Updated(content, other, None), one, None)
            <==> Agree(one, other)
  {
    OrderIsFreeExactlyWhen(Some(content.config), one, other);
  }
}
