/**
 * Describing many intent registrations over the bus, a window of requests at a time under one deadline
 * (src/intents.rs). Request ids, send times and arrivals are what the outside does; an answer that arrives at the
 * very instant of the deadline is too late.
 */
module DescribeWindows {
  import opened Wrappers
  import opened Numbers
  import opened Languages

  datatype Wanted = Wanted(skill: string, intent: string, lang: string)

  datatype Definition = Definition(skill: string, intent: string, lang: string, samples: seq<string>)

  type Found = map<Wanted, seq<Definition>>

  datatype BusEvent =
    | Response(requestId: Option<string>, definitions: seq<Definition>)
    | DescribeDenied(requestId: Option<string>)
    | Unrelated

  datatype Arrival = Arrival(at: nat, event: BusEvent)

  datatype Send =
    | Sent(took: nat)
    | SendFails(took: nat)

  /** What happens to one window: the ids and sends of its requests, what it hears, and the time until the next. */
  datatype Window = Window(ids: nat -> string, sends: nat -> Send, heard: seq<Arrival>, pause: nat)

  datatype DescribeError =
    | Timeout
    | Denied
    | SendFailed

  // ---------------------------------------------------------------------------------------------
  // One window
  // ---------------------------------------------------------------------------------------------

  /** Which registration each request id stands for, once the first `n` requests are out. */
  function Requests(unique: seq<Wanted>, ids: nat -> string, n: nat): map<string, Wanted>
    requires n <= |unique|
  {
    if n == 0 then map[] else Requests(unique, ids, n - 1)[ids(n - 1) := unique[n - 1]]
  }

  predicate Matches(wanted: Wanted, d: Definition, lower: string -> string)
  {
    wanted.skill == d.skill && wanted.intent == d.intent && SameLanguage(wanted.lang, d.lang, lower)
  }

  /** The first registration a definition fits. */
  function FirstMatch(unique: seq<Wanted>, d: Definition, lower: string -> string): Option<Wanted>
  {
    if unique == [] then None
    else if Matches(unique[0], d, lower) then Some(unique[0])
    else FirstMatch(unique[1..], d, lower)
  }

  /** The registration an event answers: the one its request id stands for, or without an id the one it describes. */
  function Answers(unique: seq<Wanted>, requests: map<string, Wanted>, e: BusEvent, lower: string -> string)
    : Option<Wanted>
  {
    if !e.Response? then None
    else if e.requestId.Some? then
      if e.requestId.value in requests then Some(requests[e.requestId.value]) else None
    else if e.definitions == [] then None
    else FirstMatch(unique, e.definitions[0], lower)
  }

  function DefinitionsOf(e: BusEvent): seq<Definition>
  {
    if e.Response? then e.definitions else []
  }

  predicate Refuses(requests: map<string, Wanted>, e: BusEvent)
  {
    e.DescribeDenied? && (e.requestId.Some? ==> e.requestId.value in requests)
  }

  /** How a window went: what it found, and when it was over. */
  datatype Outcome = Outcome(found: Result<Found, DescribeError>, now: nat)

  /** Whether anything found can be used. */
  predicate Usable(found: Found)
  {
    exists key <- found :: found[key] != []
  }

  function OrTimeout(found: Found): Result<Found, DescribeError>
  {
    if Usable(found) then Ok(found) else Err(Timeout)
  }

  function Collect(unique: seq<Wanted>, requests: map<string, Wanted>, heard: seq<Arrival>, now: nat, end: nat,
                   lower: string -> string, found: Found): Outcome
    requires now < end
  {
    if heard == [] || heard[0].at >= end then Outcome(OrTimeout(found), end)
    else
      var e, then' := heard[0].event, Max(now, heard[0].at);
      if Refuses(requests, e) then Outcome(Err(Denied), then')
      else
        var key := Answers(unique, requests, e, lower);
        if key.None? || key.value in found then Collect(unique, requests, heard[1..], then', end, lower, found)
        else
          var more := found[key.value := DefinitionsOf(e)];
          if |more| == |unique| then Outcome(Ok(more), then')
          else Collect(unique, requests, heard[1..], then', end, lower, more)
  }

  /** Sends the requests from the `i`th on. `out` is how many were sent or being sent when it was over. */
  function SendAll(unique: seq<Wanted>, w: Window, i: nat, now: nat, end: nat): (r: (Option<DescribeError>, nat, nat))
    requires i <= |unique|
    ensures i <= r.2 <= |unique| && (r.0.None? ==> r.2 == |unique|)
    ensures r.0.None? && i < |unique| ==> r.1 < end
    ensures r.0 == Some(Timeout) ==> r.1 >= end
    ensures now <= r.1
    decreases |unique| - i
  {
    if i == |unique| then (None, now, i)
    else if now >= end then (Some(Timeout), now, i)
    else if now + w.sends(i).took >= end then (Some(Timeout), end, i + 1)
    else if w.sends(i).SendFails? then (Some(SendFailed), now + w.sends(i).took, i + 1)
    else SendAll(unique, w, i + 1, now + w.sends(i).took, end)
  }

  function DescribeWindow(unique: seq<Wanted>, w: Window, now: nat, end: nat, lower: string -> string): Outcome
  {
    if unique == [] then Outcome(Ok(map[]), now)
    else
      var (error, sent, out) := SendAll(unique, w, 0, now, end);
      if error.Some? then Outcome(Err(error.value), sent)
      else Collect(unique, Requests(unique, w.ids, |unique|), w.heard, sent, end, lower, map[])
  }

  /** The requests a window publishes, the one whose send the deadline cut off included. */
  function PublishedBy(unique: seq<Wanted>, w: Window, now: nat, end: nat): (r: seq<Wanted>)
    ensures r <= unique
  {
    unique[..SendAll(unique, w, 0, now, end).2]
  }

  method DescribeOneBatch(unique: seq<Wanted>, w: Window, start: nat, end: nat, lower: string -> string)
    returns (outcome: Outcome, published: seq<Wanted>)
    ensures outcome == DescribeWindow(unique, w, start, end, lower)
    ensures published == PublishedBy(unique, w, start, end)
  {
    hide Requests, Answers;
    var found: Found := map[];
    published := [];
    if unique == [] {
      return Outcome(Ok(found), start), [];
    }
    var now: nat := start;
    var byRequest: map<string, Wanted> := map[];
    NoRequests(unique, w.ids);
    for i := 0 to |unique|
      invariant published == unique[..i] && byRequest == Requests(unique, w.ids, i)
      invariant SendAll(unique, w, 0, start, end) == SendAll(unique, w, i, now, end)
    {
      if now >= end {
        return Outcome(Err(Timeout), now), published;
      }
      OneMoreRequest(unique, w.ids, i);
      byRequest := byRequest[w.ids(i) := unique[i]];
      published := published + [unique[i]];
      if now + w.sends(i).took >= end {
        return Outcome(Err(Timeout), end), published;
      }
      now := now + w.sends(i).took;
      if w.sends(i).SendFails? {
        return Outcome(Err(SendFailed), now), published;
      }
    }
    assert w.heard[0..] == w.heard;
    for i := 0 to |w.heard|
      invariant now < end
      invariant DescribeWindow(unique, w, start, end, lower) ==
                Collect(unique, byRequest, w.heard[i..], now, end, lower, found)
    {
      assert w.heard[i..][1..] == w.heard[i + 1..];
      var a := w.heard[i];
      if a.at >= end {
        return Outcome(OrTimeout(found), end), published;
      }
      now := Max(now, a.at);
      if Refuses(byRequest, a.event) {
        return Outcome(Err(Denied), now), published;
      }
      var key := Answers(unique, byRequest, a.event, lower);
      if key.None? || key.value in found {
        continue;
      }
      found := found[key.value := DefinitionsOf(a.event)];
      if |found| == |unique| {
        return Outcome(Ok(found), now), published;
      }
    }
    outcome := Outcome(OrTimeout(found), end);
  }

  lemma NoRequests(unique: seq<Wanted>, ids: nat -> string)
    ensures Requests(unique, ids, 0) == map[]
  {}

  lemma OneMoreRequest(unique: seq<Wanted>, ids: nat -> string, n: nat)
    requires n < |unique|
    ensures Requests(unique, ids, n + 1) == Requests(unique, ids, n)[ids(n) := unique[n]]
  {}

  // ---------------------------------------------------------------------------------------------
  // What a window finds
  // ---------------------------------------------------------------------------------------------

  ghost predicate Distinct(unique: seq<Wanted>)
  {
    forall i, j :: 0 <= i < j < |unique| ==> unique[i] != unique[j]
  }

  ghost predicate Fresh(ids: nat -> string, n: nat)
  {
    forall i, j :: 0 <= i < j < n ==> ids(i) != ids(j)
  }

  lemma {:induction false} RequestsAreTheirOwn(unique: seq<Wanted>, ids: nat -> string, n: nat)
    requires n <= |unique| && Fresh(ids, n)
    ensures forall i :: 0 <= i < n ==>
              ids(i) in Requests(unique, ids, n) && Requests(unique, ids, n)[ids(i)] == unique[i]
    ensures forall id <- Requests(unique, ids, n) :: exists i :: 0 <= i < n && ids(i) == id
  {
    if n > 0 {
      RequestsAreTheirOwn(unique, ids, n - 1);
    }
  }

  lemma {:induction false} FirstMatchIsTheFirst(unique: seq<Wanted>, d: Definition, lower: string -> string)
    ensures FirstMatch(unique, d, lower).None? <==> forall k :: 0 <= k < |unique| ==> !Matches(unique[k], d, lower)
    ensures FirstMatch(unique, d, lower).Some? ==>
              exists k :: 0 <= k < |unique| && unique[k] == FirstMatch(unique, d, lower).value
                          && Matches(unique[k], d, lower)
                          && forall i :: 0 <= i < k ==> !Matches(unique[i], d, lower)
  {
    hide Matches;
    if unique != [] {
      FirstMatchIsTheFirst(unique[1..], d, lower);
      if !Matches(unique[0], d, lower) && FirstMatch(unique, d, lower).Some? {
        var k :| 0 <= k < |unique[1..]| && unique[1..][k] == FirstMatch(unique, d, lower).value
                 && Matches(unique[1..][k], d, lower) && forall i :: 0 <= i < k ==> !Matches(unique[1..][i], d, lower);
        assert unique[k + 1] == unique[1..][k];
        assert forall i :: 0 < i < k + 1 ==> unique[i] == unique[1..][i - 1];
      }
    }
  }

  /**
   * Whether event `e` is an answer to request `k`: it carries the request's own id, or it carries no id and the
   * first of its definitions fits this registration and none before it.
   */
  ghost predicate IsAnswerTo(unique: seq<Wanted>, ids: nat -> string, e: BusEvent, k: nat, lower: string -> string)
    requires k < |unique|
  {
    e.Response? &&
    match e.requestId
    case Some(id) => id == ids(k)
    case None =>
      && e.definitions != [] && Describes(e.definitions[0], unique[k], lower)
      && forall i :: 0 <= i < k ==> !Describes(e.definitions[0], unique[i], lower)
  }

  /** A definition is of a registration: the same skill, the same intent, and a spelling of its language. */
  predicate Describes(d: Definition, wanted: Wanted, lower: string -> string)
  {
    d.skill == wanted.skill && d.intent == wanted.intent && SameLanguage(wanted.lang, d.lang, lower)
  }

  lemma MatchesMeansDescribes(d: Definition, wanted: Wanted, lower: string -> string)
    ensures Matches(wanted, d, lower) <==> Describes(d, wanted, lower)
  {}

  lemma AnswersMeansIsAnswerTo(unique: seq<Wanted>, ids: nat -> string, e: BusEvent, k: nat, lower: string -> string)
    requires k < |unique| && Distinct(unique) && Fresh(ids, |unique|)
    ensures Answers(unique, Requests(unique, ids, |unique|), e, lower) == Some(unique[k]) <==>
            IsAnswerTo(unique, ids, e, k, lower)
  {
    hide Matches, Describes, FirstMatch, Requests;
    RequestsAreTheirOwn(unique, ids, |unique|);
    if e.Response? && e.requestId.None? && e.definitions != [] {
      forall i | 0 <= i < |unique|
        ensures Matches(unique[i], e.definitions[0], lower) <==> Describes(e.definitions[0], unique[i], lower)
      {
        MatchesMeansDescribes(e.definitions[0], unique[i], lower);
      }
      FirstMatchIsTheFirst(unique, e.definitions[0], lower);
    }
  }

  /** The first arrival that answers a request is number `i`. */
  ghost predicate AnsweredBy(unique: seq<Wanted>, requests: map<string, Wanted>, heard: seq<Arrival>, key: Wanted,
                             i: nat, lower: string -> string)
  {
    && i < |heard| && Answers(unique, requests, heard[i].event, lower) == Some(key)
    && forall j :: 0 <= j < i ==> Answers(unique, requests, heard[j].event, lower) != Some(key)
  }

  /** `found` holds the first answer to each request that any of the first `n` arrivals answers, and no more. */
  ghost predicate Holds(unique: seq<Wanted>, requests: map<string, Wanted>, heard: seq<Arrival>, n: nat,
                        lower: string -> string, found: Found)
    requires n <= |heard|
  {
    && (forall key <- found ::
          exists i :: 0 <= i < n && AnsweredBy(unique, requests, heard, key, i, lower)
                      && found[key] == DefinitionsOf(heard[i].event))
    && forall i :: 0 <= i < n && Answers(unique, requests, heard[i].event, lower).Some? ==>
         Answers(unique, requests, heard[i].event, lower).value in found
  }

  /** An earlier arrival answers the same request as number `i`. */
  ghost predicate IsRepeat(unique: seq<Wanted>, requests: map<string, Wanted>, heard: seq<Arrival>, i: nat,
                           lower: string -> string)
    requires i < |heard|
  {
    exists j :: 0 <= j < i &&
      Answers(unique, requests, heard[j].event, lower) == Answers(unique, requests, heard[i].event, lower)
  }

  /** None of the first `n` arrivals is the first answer to a request and has a definition. */
  ghost predicate NothingUsable(unique: seq<Wanted>, requests: map<string, Wanted>, heard: seq<Arrival>, n: nat,
                                lower: string -> string)
    requires n <= |heard|
  {
    forall i :: 0 <= i < n && Answers(unique, requests, heard[i].event, lower).Some? ==>
      DefinitionsOf(heard[i].event) == [] || IsRepeat(unique, requests, heard, i, lower)
  }

  lemma HoldsOneMore(unique: seq<Wanted>, requests: map<string, Wanted>, heard: seq<Arrival>, n: nat,
                     lower: string -> string, found: Found)
    requires n < |heard| && Holds(unique, requests, heard, n, lower, found)
    ensures var key := Answers(unique, requests, heard[n].event, lower);
      Holds(unique, requests, heard, n + 1, lower,
            if key.None? || key.value in found then found else found[key.value := DefinitionsOf(heard[n].event)])
  {
    hide Answers;
    var key := Answers(unique, requests, heard[n].event, lower);
    if key.Some? && key.value !in found {
      assert AnsweredBy(unique, requests, heard, key.value, n, lower);
    }
  }

  lemma {:induction false} CollectHolds(unique: seq<Wanted>, requests: map<string, Wanted>, heard: seq<Arrival>, n: nat,
                                        now: nat, end: nat, lower: string -> string, found: Found)
    returns (m: nat)
    requires n <= |heard| && now < end && Holds(unique, requests, heard, n, lower, found)
    requires forall i :: 0 <= i < n ==> heard[i].at < end
    ensures n <= m <= |heard| && forall i :: 0 <= i < m ==> heard[i].at < end
    ensures var outcome := Collect(unique, requests, heard[n..], now, end, lower, found);
      && now <= outcome.now <= end
      && (outcome.found.Ok? ==> Holds(unique, requests, heard, m, lower, outcome.found.value))
      && (outcome.found.Ok? ==> |outcome.found.value| == |unique| || outcome.now == end)
      && (outcome.now == end ==>
            && outcome.found != Err(Denied) && (outcome.found.Ok? ==> Usable(outcome.found.value))
            && (m == |heard| || heard[m].at >= end))
      && (outcome.found == Err(Timeout) ==>
            && outcome.now == end
            && NothingUsable(unique, requests, heard, m, lower))
    decreases |heard| - n
  {
    hide Answers, Holds;
    if n == |heard| || heard[n].at >= end {
      m := n;
      TimeoutMeansNothingUsable(unique, requests, heard, n, lower, found);
    } else {
      assert heard[n..][1..] == heard[n + 1..] && heard[n..][0] == heard[n];
      var e, then' := heard[n].event, Max(now, heard[n].at);
      HoldsOneMore(unique, requests, heard, n, lower, found);
      var key := Answers(unique, requests, e, lower);
      if Refuses(requests, e) {
        m := n;
      } else if key.None? || key.value in found {
        m := CollectHolds(unique, requests, heard, n + 1, then', end, lower, found);
      } else {
        var more := found[key.value := DefinitionsOf(e)];
        m := n + 1;
        if |more| != |unique| {
          m := CollectHolds(unique, requests, heard, n + 1, then', end, lower, more);
        }
      }
    }
  }

  lemma TimeoutMeansNothingUsable(unique: seq<Wanted>, requests: map<string, Wanted>, heard: seq<Arrival>, n: nat,
                                  lower: string -> string, found: Found)
    requires n <= |heard| && Holds(unique, requests, heard, n, lower, found)
    ensures OrTimeout(found).Ok? <==> Usable(found)
    ensures !Usable(found) ==> NothingUsable(unique, requests, heard, n, lower)
  {
    hide Answers;
    if !Usable(found) {
      forall i | 0 <= i < n && Answers(unique, requests, heard[i].event, lower).Some?
        ensures DefinitionsOf(heard[i].event) == [] || IsRepeat(unique, requests, heard, i, lower)
      {
        var key := Answers(unique, requests, heard[i].event, lower).value;
        assert key in found && found[key] == [];
        var f :| 0 <= f < n && AnsweredBy(unique, requests, heard, key, f, lower)
                 && found[key] == DefinitionsOf(heard[f].event);
        assert f <= i;
      }
    }
  }

  predicate Within(found: Found, asked: seq<Wanted>)
  {
    forall key <- found :: key in asked
  }

  lemma {:induction false} RequestsAreWanted(unique: seq<Wanted>, ids: nat -> string, n: nat)
    requires n <= |unique|
    ensures forall id <- Requests(unique, ids, n) :: Requests(unique, ids, n)[id] in unique
  {
    if n > 0 {
      RequestsAreWanted(unique, ids, n - 1);
    }
  }

  lemma HoldsOnlyWanted(unique: seq<Wanted>, ids: nat -> string, heard: seq<Arrival>, n: nat, lower: string -> string,
                        found: Found)
    requires n <= |heard| && Holds(unique, Requests(unique, ids, |unique|), heard, n, lower, found)
    ensures Within(found, unique)
  {
    hide Matches, FirstMatch;
    RequestsAreWanted(unique, ids, |unique|);
    forall key <- found ensures key in unique {
      var i :| 0 <= i < n && AnsweredBy(unique, Requests(unique, ids, |unique|), heard, key, i, lower);
      if heard[i].event.requestId.None? {
        FirstMatchIsTheFirst(unique, heard[i].event.definitions[0], lower);
      }
    }
  }

  /** As many different keys of a sequence as the sequence is long are all of them. */
  lemma AllAreFound(found: Found, asked: seq<Wanted>)
    requires Within(found, asked) && |found| == |asked|
    ensures forall key <- asked :: key in found
  {
    var all := set key | key in asked;
    SetOfIsNoLarger(asked);
    assert found.Keys <= all;
    if found.Keys != all {
      SmallerSubset(found.Keys, all);
    }
  }

  lemma SmallerSubset(a: set<Wanted>, b: set<Wanted>)
    requires a < b
    ensures |a| < |b|
  {
    assert b == a + (b - a);
  }

  lemma {:induction false} SetOfIsNoLarger(asked: seq<Wanted>)
    ensures |set key | key in asked| <= |asked|
  {
    if asked != [] {
      SetOfIsNoLarger(asked[1..]);
      assert (set key | key in asked) == {asked[0]} + (set key | key in asked[1..]);
    }
  }

  /**
   * How a window ends. What it found are first answers to its requests that came before the deadline. It is either
   * complete, or the deadline is past and something it found can be used; it fails with a timeout only at the deadline,
   * and only when no first answer that came in time, after its requests were out, had a definition.
   */
  ghost predicate EndsWell(asked: seq<Wanted>, w: Window, outcome: Outcome, end: nat, lower: string -> string)
  {
    match outcome.found
    case Ok(found) =>
      && Within(found, asked)
      && (|found| == |asked| || (outcome.now == end && Usable(found)))
      && (forall key <- found ::
            exists i :: 0 <= i < |w.heard| && w.heard[i].at < end && found[key] == DefinitionsOf(w.heard[i].event)
                        && AnsweredBy(asked, Requests(asked, w.ids, |asked|), w.heard, key, i, lower))
    case Err(error) => error == Timeout ==> outcome.now >= end
  }

  lemma WindowEndsWell(asked: seq<Wanted>, w: Window, start: nat, end: nat, lower: string -> string)
    ensures var outcome := DescribeWindow(asked, w, start, end, lower);
      && start <= outcome.now
      && EndsWell(asked, w, outcome, end, lower)
      && (outcome.found.Ok? ==> PublishedBy(asked, w, start, end) == asked)
      && (outcome.found.Ok? && asked != [] ==> outcome.now <= end)
      && (outcome.found.Ok? && asked != [] && !Usable(outcome.found.value) ==> outcome.now < end)
  {
    hide Answers, Requests, Usable;
    var (error, sent, out) := SendAll(asked, w, 0, start, end);
    if asked != [] && error.None? {
      var requests := Requests(asked, w.ids, |asked|);
      assert Holds(asked, requests, w.heard, 0, lower, map[]);
      assert w.heard[0..] == w.heard;
      var m := CollectHolds(asked, requests, w.heard, 0, sent, end, lower, map[]);
      var outcome := Collect(asked, requests, w.heard, sent, end, lower, map[]);
      if outcome.found.Ok? {
        HoldsOnlyWanted(asked, w.ids, w.heard, m, lower, outcome.found.value);
      }
    }
  }

  /** A window that sent all it was asked to and still timed out had no usable first answer in time. */
  lemma TimeoutsAreSilence(asked: seq<Wanted>, w: Window, start: nat, end: nat, lower: string -> string)
    requires asked != [] && SendAll(asked, w, 0, start, end).0.None?
    requires DescribeWindow(asked, w, start, end, lower).found == Err(Timeout)
    ensures forall i :: 0 <= i < |w.heard| && (forall j :: 0 <= j <= i ==> w.heard[j].at < end)
                        && Answers(asked, Requests(asked, w.ids, |asked|), w.heard[i].event, lower).Some? ==>
              DefinitionsOf(w.heard[i].event) == []
              || IsRepeat(asked, Requests(asked, w.ids, |asked|), w.heard, i, lower)
  {
    hide Answers, Requests, Usable, IsRepeat;
    var sent := SendAll(asked, w, 0, start, end).1;
    var requests := Requests(asked, w.ids, |asked|);
    assert Holds(asked, requests, w.heard, 0, lower, map[]);
    assert w.heard[0..] == w.heard;
    var m := CollectHolds(asked, requests, w.heard, 0, sent, end, lower, map[]);
  }

  // ---------------------------------------------------------------------------------------------
  // How a window ends, from what happened in it
  // ---------------------------------------------------------------------------------------------

  /** How long the first `n` sends take. */
  function Took(w: Window, n: nat): nat
  {
    if n == 0 then 0 else Took(w, n - 1) + w.sends(n - 1).took
  }

  /** The first `k` requests went out well, each before the deadline. */
  ghost predicate WentOut(w: Window, start: nat, end: nat, k: nat)
  {
    forall i :: 0 <= i < k ==> w.sends(i).Sent? && start + Took(w, i + 1) < end
  }

  /**
   * Sending ends well when every request goes out before the deadline. Otherwise the first that does not ends it: with
   * a timeout when it would take to the deadline, or there was no time left to begin with, and else with its failure.
   */
  lemma {:induction false} SendsEndAs(asked: seq<Wanted>, w: Window, start: nat, end: nat, i: nat) returns (k: nat)
    requires i <= |asked| && WentOut(w, start, end, i) && (i > 0 || start < end)
    ensures i <= k <= |asked| && WentOut(w, start, end, k)
    ensures var (error, now, out) := SendAll(asked, w, i, start + Took(w, i), end);
      if k == |asked| then error == None && now == start + Took(w, k)
      else if start + Took(w, k + 1) >= end then error == Some(Timeout) && now == end
      else w.sends(k).SendFails? && error == Some(SendFailed) && now == start + Took(w, k + 1)
    decreases |asked| - i
  {
    hide WentOut;
    k := i;
    if i < |asked| {
      assert Took(w, i + 1) == Took(w, i) + w.sends(i).took;
      StartsInTime(w, start, end, i);
      if start + Took(w, i + 1) < end && w.sends(i).Sent? {
        OneMoreWentOut(w, start, end, i);
        k := SendsEndAs(asked, w, start, end, i + 1);
      }
    }
  }

  lemma StartsInTime(w: Window, start: nat, end: nat, i: nat)
    requires WentOut(w, start, end, i) && (i > 0 || start < end)
    ensures start + Took(w, i) < end
  {
    assert i > 0 ==> start + Took(w, i - 1 + 1) < end;
  }

  lemma OneMoreWentOut(w: Window, start: nat, end: nat, i: nat)
    requires WentOut(w, start, end, i) && w.sends(i).Sent? && start + Took(w, i + 1) < end
    ensures WentOut(w, start, end, i + 1)
  {
    hide Took;
  }

  /** A denial of the query that is this window's: with one of its request ids, or with none. */
  ghost predicate IsRefusal(ids: nat -> string, n: nat, e: BusEvent)
  {
    && e.DescribeDenied?
    && (e.requestId == None || exists i :: 0 <= i < n && e.requestId == Some(ids(i)))
  }

  /** Request `k` has an answer among the first `m` arrivals. */
  ghost predicate IsAnswered(asked: seq<Wanted>, w: Window, m: nat, k: nat, lower: string -> string)
    requires m <= |w.heard| && k < |asked|
  {
    exists i :: 0 <= i < m && IsAnswerTo(asked, w.ids, w.heard[i].event, k, lower)
  }

  /** Each request has an answer among the first `m` arrivals. */
  ghost predicate AllAnswered(asked: seq<Wanted>, w: Window, m: nat, lower: string -> string)
    requires m <= |w.heard|
  {
    forall k :: 0 <= k < |asked| ==> IsAnswered(asked, w, m, k, lower)
  }

  /**
   * The arrivals a window went by are its first `m`: they came before the deadline and none refused it. It ended
   * because with these every request was answered, because the next one refuses it, or because no other came in time;
   * in this last case what it found counts when any of it can be used.
   */
  ghost predicate EndsFor(asked: seq<Wanted>, w: Window, m: nat, outcome: Outcome, end: nat, lower: string -> string)
  {
    && m <= |w.heard|
    && (forall i :: 0 <= i < m ==> w.heard[i].at < end && !IsRefusal(w.ids, |asked|, w.heard[i].event))
    && if AllAnswered(asked, w, m, lower) then
         outcome.found.Ok? && forall key <- asked :: key in outcome.found.value
       else if m < |w.heard| && w.heard[m].at < end then
         IsRefusal(w.ids, |asked|, w.heard[m].event) && outcome.found == Err(Denied)
       else
         && outcome.now == end
         && (if outcome.found.Ok? then Usable(outcome.found.value)
             else && outcome.found == Err(Timeout)
                  && NothingUsable(asked, Requests(asked, w.ids, |asked|), w.heard, m, lower))
  }

  lemma RefusesMeansIsRefusal(asked: seq<Wanted>, ids: nat -> string, e: BusEvent)
    requires Fresh(ids, |asked|)
    ensures Refuses(Requests(asked, ids, |asked|), e) <==> IsRefusal(ids, |asked|, e)
  {
    hide Requests;
    RequestsAreTheirOwn(asked, ids, |asked|);
  }

  /** What is found so far is all exactly when every request has been answered. */
  lemma FoundAllMeansAllAnswered(asked: seq<Wanted>, w: Window, m: nat, lower: string -> string, found: Found)
    requires m <= |w.heard| && Distinct(asked) && Fresh(w.ids, |asked|)
    requires Holds(asked, Requests(asked, w.ids, |asked|), w.heard, m, lower, found)
    ensures |found| == |asked| <==> AllAnswered(asked, w, m, lower)
    ensures |found| == |asked| ==> forall key <- asked :: key in found
  {
    hide Answers, Requests, IsAnswerTo, Holds, AllAnswered;
    HoldsOnlyWanted(asked, w.ids, w.heard, m, lower, found);
    if |found| == |asked| {
      AllAreFound(found, asked);
    }
    if forall key <- asked :: key in found {
      AllOfThem(found, asked);
    }
    AnsweredMeansFound(asked, w, m, lower, found);
  }

  lemma AllOfThem(found: Found, asked: seq<Wanted>)
    requires Within(found, asked) && Distinct(asked) && forall key <- asked :: key in found
    ensures |found| == |asked|
  {
    DistinctSetIsAsLarge(asked);
    assert found.Keys == set key | key in asked;
  }

  lemma {:induction false} DistinctSetIsAsLarge(asked: seq<Wanted>)
    requires Distinct(asked)
    ensures |set key | key in asked| == |asked|
  {
    if asked != [] {
      var rest := asked[1..];
      DistinctSetIsAsLarge(rest);
      assert (set key | key in asked) == {asked[0]} + (set key | key in rest);
      assert asked[0] !in rest;
    }
  }

  lemma AnsweredMeansFound(asked: seq<Wanted>, w: Window, m: nat, lower: string -> string, found: Found)
    requires m <= |w.heard| && Distinct(asked) && Fresh(w.ids, |asked|)
    requires Holds(asked, Requests(asked, w.ids, |asked|), w.heard, m, lower, found)
    ensures (forall key <- asked :: key in found) <==> AllAnswered(asked, w, m, lower)
  {
    hide Holds, IsAnswered, Distinct, Fresh, Requests;
    forall k | 0 <= k < |asked| ensures IsAnswered(asked, w, m, k, lower) <==> asked[k] in found {
      OneAnsweredMeansFound(asked, w, m, k, lower, found);
    }
  }

  lemma OneAnsweredMeansFound(asked: seq<Wanted>, w: Window, m: nat, k: nat, lower: string -> string, found: Found)
    requires m <= |w.heard| && k < |asked| && Distinct(asked) && Fresh(w.ids, |asked|)
    requires Holds(asked, Requests(asked, w.ids, |asked|), w.heard, m, lower, found)
    ensures IsAnswered(asked, w, m, k, lower) <==> asked[k] in found
  {
    hide Answers, Requests, IsAnswerTo, Distinct, Fresh;
    var requests := Requests(asked, w.ids, |asked|);
    if IsAnswered(asked, w, m, k, lower) {
      var i :| 0 <= i < m && IsAnswerTo(asked, w.ids, w.heard[i].event, k, lower);
      AnswersMeansIsAnswerTo(asked, w.ids, w.heard[i].event, k, lower);
    }
    if asked[k] in found {
      var i :| 0 <= i < m && AnsweredBy(asked, requests, w.heard, asked[k], i, lower);
      AnswersMeansIsAnswerTo(asked, w.ids, w.heard[i].event, k, lower);
    }
  }

  lemma {:induction false} CollectEndsFor(asked: seq<Wanted>, w: Window, n: nat, now: nat, end: nat,
                                          lower: string -> string, found: Found)
    returns (m: nat)
    requires n <= |w.heard| && now < end && Distinct(asked) && Fresh(w.ids, |asked|)
    requires Holds(asked, Requests(asked, w.ids, |asked|), w.heard, n, lower, found) && |found| != |asked|
    requires forall i :: 0 <= i < n ==> w.heard[i].at < end && !IsRefusal(w.ids, |asked|, w.heard[i].event)
    ensures EndsFor(asked, w, m, Collect(asked, Requests(asked, w.ids, |asked|), w.heard[n..], now, end, lower, found),
                    end, lower)
    decreases |w.heard| - n
  {
    hide Answers, Holds, Requests, IsRefusal, Refuses, AllAnswered, NothingUsable, Usable;
    var requests, heard := Requests(asked, w.ids, |asked|), w.heard;
    m := n;
    FoundAllMeansAllAnswered(asked, w, n, lower, found);
    if n == |heard| || heard[n].at >= end {
      TimeoutMeansNothingUsable(asked, requests, heard, n, lower, found);
    } else {
      assert heard[n..][1..] == heard[n + 1..] && heard[n..][0] == heard[n];
      var e, then' := heard[n].event, Max(now, heard[n].at);
      RefusesMeansIsRefusal(asked, w.ids, e);
      if !Refuses(requests, e) {
        HoldsOneMore(asked, requests, heard, n, lower, found);
        var key := Answers(asked, requests, e, lower);
        if key.None? || key.value in found {
          m := CollectEndsFor(asked, w, n + 1, then', end, lower, found);
        } else {
          var more := found[key.value := DefinitionsOf(e)];
          if |more| == |asked| {
            m := n + 1;
            FoundAllMeansAllAnswered(asked, w, n + 1, lower, more);
          } else {
            m := CollectEndsFor(asked, w, n + 1, then', end, lower, more);
          }
        }
      }
    }
  }

  /** A window whose requests all went out ends for one of the three reasons, whichever comes first. */
  lemma WindowEndsForAReason(asked: seq<Wanted>, w: Window, start: nat, end: nat, lower: string -> string)
    returns (m: nat)
    requires asked != [] && start < end && WentOut(w, start, end, |asked|)
    requires Distinct(asked) && Fresh(w.ids, |asked|)
    ensures EndsFor(asked, w, m, DescribeWindow(asked, w, start, end, lower), end, lower)
  {
    hide Answers, Requests, EndsFor, Usable;
    var k := SendsEndAs(asked, w, start, end, 0);
    NothingHeldYet(asked, w, lower);
    assert w.heard[0..] == w.heard;
    m := CollectEndsFor(asked, w, 0, start + Took(w, |asked|), end, lower, map[]);
  }

  lemma NothingHeldYet(asked: seq<Wanted>, w: Window, lower: string -> string)
    ensures Holds(asked, Requests(asked, w.ids, |asked|), w.heard, 0, lower, map[])
  {
    hide Requests, Answers;
  }

  // ---------------------------------------------------------------------------------------------
  // Window after window
  // ---------------------------------------------------------------------------------------------

  /** Each registration once, where it first stood. */
  function Unique(wanted: seq<Wanted>): seq<Wanted>
    decreases |wanted|
  {
    if wanted == [] then []
    else
      var most, last := Unique(wanted[..|wanted| - 1]), wanted[|wanted| - 1];
      if last in most then most else most + [last]
  }

  lemma {:induction false} UniqueKeepsFirsts(wanted: seq<Wanted>, n: nat)
    requires n <= |wanted|
    ensures Distinct(Unique(wanted)) && Unique(wanted[..n]) <= Unique(wanted)
    ensures forall key :: key in Unique(wanted) <==> key in wanted
    decreases |wanted|
  {
    if wanted == [] {
      assert wanted[..n] == wanted;
    } else {
      var most := wanted[..|wanted| - 1];
      UniqueKeepsFirsts(most, if n < |wanted| then n else 0);
      assert wanted == most + [wanted[|wanted| - 1]];
      assert wanted[..n] == if n < |wanted| then most[..n] else wanted;
    }
  }

  /** One window that ran: what it asked, from when, how it went, and what it published. */
  datatype WindowRun = WindowRun(asked: seq<Wanted>, start: nat, outcome: Outcome, published: seq<Wanted>)

  datatype Described = Described(result: Result<Found, DescribeError>, now: nat, runs: seq<WindowRun>)

  function Size(unique: seq<Wanted>, batch: nat): (n: nat)
    ensures n <= |unique| && n <= batch && (unique != [] && batch > 0 ==> n > 0)
  {
    if batch < |unique| then batch else |unique|
  }

  function Ran(asked: seq<Wanted>, w: Window, start: nat, end: nat, lower: string -> string): WindowRun
  {
    WindowRun(asked, start, DescribeWindow(asked, w, start, end, lower), PublishedBy(asked, w, start, end))
  }

  /** What is known once a window has run. */
  function Extended(found: Found, outcome: Outcome): Result<Found, DescribeError>
  {
    match outcome.found
    case Ok(described) => Ok(found + described)
    case Err(error) => if error == Timeout && Usable(found) then Ok(found) else Err(error)
  }

  function Before(run: WindowRun, rest: Described): Described
  {
    rest.(runs := [run] + rest.runs)
  }

  function DescribeRest(unique: seq<Wanted>, batch: nat, windows: nat -> Window, k: nat, now: nat, end: nat,
                        lower: string -> string, found: Found): Described
    requires batch > 0
    decreases |unique|
  {
    if unique == [] then Described(Ok(found), now, [])
    else
      var n := Size(unique, batch);
      var run := Ran(unique[..n], windows(k), now, end, lower);
      var more, then' := Extended(found, run.outcome), run.outcome.now + windows(k).pause;
      if more.Err? then Described(more, run.outcome.now, [run])
      else if then' >= end then Described(more, then', [run])
      else Before(run, DescribeRest(unique[n..], batch, windows, k + 1, then', end, lower, more.value))
  }

  function Describe(wanted: seq<Wanted>, batch: nat, windows: nat -> Window, start: nat, end: nat,
                    lower: string -> string)
    : Described
  {
    var unique := Unique(wanted);
    if batch > 0 && |unique| > batch then DescribeRest(unique, batch, windows, 0, start, end, lower, map[])
    else
      var run := Ran(unique, windows(0), start, end, lower);
      Described(run.outcome.found, run.outcome.now, [run])
  }

  /** The first window, and what follows it. Most proofs keep the rest folded and unfold it by this. */
  lemma RestStep(unique: seq<Wanted>, batch: nat, windows: nat -> Window, k: nat, now: nat, end: nat,
                 lower: string -> string, found: Found)
    requires batch > 0 && unique != []
    ensures var n := Size(unique, batch);
      var run := Ran(unique[..n], windows(k), now, end, lower);
      var more, then' := Extended(found, run.outcome), run.outcome.now + windows(k).pause;
      DescribeRest(unique, batch, windows, k, now, end, lower, found) ==
      if more.Err? then Described(more, run.outcome.now, [run])
      else if then' >= end then Described(more, then', [run])
      else Before(run, DescribeRest(unique[n..], batch, windows, k + 1, then', end, lower, more.value))
  {
    hide Ran, Extended, Size;
  }

  lemma RestIsNothing(batch: nat, windows: nat -> Window, k: nat, now: nat, end: nat, lower: string -> string,
                      found: Found)
    requires batch > 0
    ensures DescribeRest([], batch, windows, k, now, end, lower, found) == Described(Ok(found), now, [])
  {}

  function RanBefore(runs: seq<WindowRun>, rest: Described): Described
  {
    rest.(runs := runs + rest.runs)
  }

  lemma OneMoreRan(runs: seq<WindowRun>, run: WindowRun, rest: Described)
    ensures RanBefore(runs, Before(run, rest)) == RanBefore(runs + [run], rest)
  {
    assert runs + ([run] + rest.runs) == runs + [run] + rest.runs;
  }

  method ListUnique(wanted: seq<Wanted>) returns (unique: seq<Wanted>)
    ensures unique == Unique(wanted)
  {
    unique := [];
    for i := 0 to |wanted|
      invariant unique == Unique(wanted[..i])
    {
      assert wanted[..i + 1][..i] == wanted[..i];
      if wanted[i] !in unique {
        unique := unique + [wanted[i]];
      }
    }
    assert wanted[..|wanted|] == wanted;
  }

  method DescribeMany(wanted: seq<Wanted>, batch: nat, windows: nat -> Window, start: nat, end: nat,
                      lower: string -> string)
    returns (d: Described)
    ensures d == Describe(wanted, batch, windows, start, end, lower)
  {
    hide DescribeRest, DescribeWindow, PublishedBy, Usable;
    var unique := ListUnique(wanted);
    var now: nat, runs: seq<WindowRun> := start, [];
    if batch > 0 && |unique| > batch {
      var found: Found, next: nat, k: nat := map[], 0, 0;
      assert unique[0..] == unique;
      while next < |unique|
        invariant next <= |unique|
        invariant Describe(wanted, batch, windows, start, end, lower) ==
                  RanBefore(runs, DescribeRest(unique[next..], batch, windows, k, now, end, lower, found))
        decreases |unique| - next
      {
        RestStep(unique[next..], batch, windows, k, now, end, lower, found);
        var n := Size(unique[next..], batch);
        var window := unique[next..][..n];
        var outcome, published := DescribeOneBatch(window, windows(k), now, end, lower);
        var run := WindowRun(window, now, outcome, published);
        ghost var more := Extended(found, outcome);
        match outcome.found {
          case Ok(described) => found := found + described;
          case Err(Timeout) =>
            if !Usable(found) {
              return Described(Err(Timeout), outcome.now, runs + [run]);
            }
          case Err(error) => return Described(Err(error), outcome.now, runs + [run]);
        }
        now := outcome.now + windows(k).pause;
        if now >= end {
          return Described(Ok(found), now, runs + [run]);
        }
        assert unique[next..][n..] == unique[next + n..];
        OneMoreRan(runs, run, DescribeRest(unique[next + n..], batch, windows, k + 1, now, end, lower, found));
        runs := runs + [run];
        next, k := next + n, k + 1;
      }
      assert unique[next..] == [];
      RestIsNothing(batch, windows, k, now, end, lower, found);
      return Described(Ok(found), now, runs);
    }
    var outcome, published := DescribeOneBatch(unique, windows(0), now, end, lower);
    d := Described(outcome.found, outcome.now, [WindowRun(unique, now, outcome, published)]);
  }

  // ---------------------------------------------------------------------------------------------
  // What describing many may count on
  // ---------------------------------------------------------------------------------------------

  /** Everything published, in order. */
  function Published(runs: seq<WindowRun>): seq<Wanted>
  {
    if runs == [] then [] else runs[0].published + Published(runs[1..])
  }

  /** The windows that ran, number `k` first, each as long as it may be, and each an account of what it met. */
  ghost predicate AreRuns(runs: seq<WindowRun>, k: nat, batch: nat, windows: nat -> Window, end: nat,
                          lower: string -> string)
  {
    && (forall i :: 0 <= i < |runs| ==>
          && runs[i] == Ran(runs[i].asked, windows(k + i), runs[i].start, end, lower)
          && |runs[i].asked| <= batch && Distinct(runs[i].asked)
          && (i < |runs| - 1 ==> runs[i].outcome.found.Ok? && |runs[i].asked| == batch))
    && forall i, j :: 0 <= i && j == i + 1 && j < |runs| ==>
         runs[j].start == runs[i].outcome.now + windows(k + i).pause < end
  }

  lemma ExtendedGrows(found: Found, run: WindowRun, unique: seq<Wanted>, n: nat, w: Window, now: nat, end: nat,
                      lower: string -> string)
    requires Distinct(unique) && 0 < n <= |unique| && run == Ran(unique[..n], w, now, end, lower)
    requires forall key <- found :: key !in unique
    ensures var more := Extended(found, run.outcome);
      && (run.outcome.found.Ok? ==> Within(run.outcome.found.value, unique[..n]) && run.published == unique[..n])
      && (run.outcome.found.Ok? ==> forall key <- found :: key !in run.outcome.found.value)
      && (more.Ok? ==> more.value == if run.outcome.found.Ok? then found + run.outcome.found.value else found)
      && (run.outcome.found == Err(Timeout) ==> run.outcome.now >= end)
      && now <= run.outcome.now
      && (more.Ok? ==> forall key <- more.value :: key !in unique[n..])
      && (more.Ok? && !Usable(more.value) ==>
            && run.outcome.found.Ok? && more.value.Keys == found.Keys + (set key | key in unique[..n])
            && run.outcome.now < end)
      && (more.Ok? && |unique| > 0 && (exists key <- unique[..n] :: key !in more.value) ==> run.outcome.now >= end)
  {
    hide DescribeWindow, PublishedBy, EndsWell;
    var asked := unique[..n];
    WindowEndsWell(asked, w, now, end, lower);
    WindowIsCompleteOrUsable(asked, w, run.outcome, end, lower);
    forall key <- asked ensures key !in unique[n..] && key !in found {
      var i :| 0 <= i < n && unique[i] == key;
    }
    assert forall key <- unique[n..] :: key in unique;
  }

  lemma WindowIsCompleteOrUsable(asked: seq<Wanted>, w: Window, outcome: Outcome, end: nat, lower: string -> string)
    requires EndsWell(asked, w, outcome, end, lower)
    ensures outcome.found == Err(Timeout) ==> outcome.now >= end
    ensures outcome.found.Ok? ==>
              && Within(outcome.found.value, asked)
              && (|| (forall key <- asked :: key in outcome.found.value)
                  || (outcome.now == end && Usable(outcome.found.value)))
  {
    if outcome.found.Ok? && |outcome.found.value| == |asked| {
      AllAreFound(outcome.found.value, asked);
    }
  }

  lemma AreRunsOneMore(run: WindowRun, runs: seq<WindowRun>, k: nat, batch: nat, windows: nat -> Window, end: nat,
                       lower: string -> string)
    requires AreRuns(runs, k + 1, batch, windows, end, lower)
    requires run == Ran(run.asked, windows(k), run.start, end, lower)
    requires |run.asked| <= batch && Distinct(run.asked)
    requires runs != [] ==> run.outcome.found.Ok? && |run.asked| == batch
    requires runs != [] ==> runs[0].start == run.outcome.now + windows(k).pause < end
    ensures AreRuns([run] + runs, k, batch, windows, end, lower)
  {
    hide Ran;
    var all := [run] + runs;
    forall i | 0 <= i < |all|
      ensures all[i] == Ran(all[i].asked, windows(k + i), all[i].start, end, lower)
      ensures |all[i].asked| <= batch && Distinct(all[i].asked)
      ensures i < |all| - 1 ==> all[i].outcome.found.Ok? && |all[i].asked| == batch
    {
      if i > 0 {
        assert all[i] == runs[i - 1] && k + i == k + 1 + (i - 1);
      }
    }
    forall i, j | 0 <= i && j == i + 1 && j < |all|
      ensures all[j].start == all[i].outcome.now + windows(k + i).pause < end
    {
      if i > 0 {
        assert all[i] == runs[i - 1] && all[j] == runs[j - 1] && k + i == k + 1 + (i - 1);
      }
    }
  }

  /** The windows run one after another over the registrations, and none after one that did not succeed. */
  lemma {:induction false} RestRunsWindows(unique: seq<Wanted>, batch: nat, windows: nat -> Window, k: nat, now: nat,
                                           end: nat, lower: string -> string, found: Found)
    requires batch > 0 && Distinct(unique) && forall key <- found :: key !in unique
    ensures AreRuns(DescribeRest(unique, batch, windows, k, now, end, lower, found).runs, k, batch, windows, end, lower)
    decreases |unique|
  {
    hide DescribeRest, DescribeWindow, PublishedBy, AreRuns, Usable;
    RestIsNothing(batch, windows, k, now, end, lower, found);
    NoRuns(k, batch, windows, end, lower);
    if unique != [] {
      RestStep(unique, batch, windows, k, now, end, lower, found);
      var n := Size(unique, batch);
      var run := Ran(unique[..n], windows(k), now, end, lower);
      ExtendedGrows(found, run, unique, n, windows(k), now, end, lower);
      var more, then' := Extended(found, run.outcome), run.outcome.now + windows(k).pause;
      if more.Ok? && then' < end {
        RestRunsWindows(unique[n..], batch, windows, k + 1, then', end, lower, more.value);
        var rest := DescribeRest(unique[n..], batch, windows, k + 1, then', end, lower, more.value);
        if unique[n..] == [] {
          RestIsNothing(batch, windows, k + 1, then', end, lower, more.value);
        } else {
          RestStep(unique[n..], batch, windows, k + 1, then', end, lower, more.value);
        }
        AreRunsOneMore(run, rest.runs, k, batch, windows, end, lower);
      } else {
        NoRuns(k + 1, batch, windows, end, lower);
        AreRunsOneMore(run, [], k, batch, windows, end, lower);
        assert [run] + [] == [run];
      }
    }
  }

  /** What the windows publish, one after another, is a first part of the registrations. */
  lemma {:induction false} RestPublishesInOrder(unique: seq<Wanted>, batch: nat, windows: nat -> Window, k: nat,
                                                now: nat, end: nat, lower: string -> string, found: Found)
    requires batch > 0 && Distinct(unique) && forall key <- found :: key !in unique
    ensures Published(DescribeRest(unique, batch, windows, k, now, end, lower, found).runs) <= unique
    decreases |unique|
  {
    hide DescribeRest, DescribeWindow, PublishedBy, Usable;
    RestIsNothing(batch, windows, k, now, end, lower, found);
    if unique != [] {
      RestStep(unique, batch, windows, k, now, end, lower, found);
      var n := Size(unique, batch);
      var run := Ran(unique[..n], windows(k), now, end, lower);
      ExtendedGrows(found, run, unique, n, windows(k), now, end, lower);
      var more, then' := Extended(found, run.outcome), run.outcome.now + windows(k).pause;
      assert unique == unique[..n] + unique[n..] && unique[..n] <= unique;
      if more.Ok? && then' < end {
        RestPublishesInOrder(unique[n..], batch, windows, k + 1, then', end, lower, more.value);
        var rest := DescribeRest(unique[n..], batch, windows, k + 1, then', end, lower, more.value);
        assert ([run] + rest.runs)[1..] == rest.runs;
      } else {
        assert [run][1..] == [];
      }
    }
  }

  lemma NoRuns(k: nat, batch: nat, windows: nat -> Window, end: nat, lower: string -> string)
    ensures AreRuns([], k, batch, windows, end, lower)
  {}

  /** `result` holds everything in `found` and everything the windows found, and nothing else. */
  ghost predicate Keeps(result: Found, found: Found, runs: seq<WindowRun>)
  {
    && Contains(result, found)
    && (forall i :: 0 <= i < |runs| && runs[i].outcome.found.Ok? ==> Contains(result, runs[i].outcome.found.value))
    && (forall key <- result :: key in found || FoundAmong(runs, key))
  }

  ghost predicate FoundAmong(runs: seq<WindowRun>, key: Wanted)
  {
    exists i :: 0 <= i < |runs| && FoundIn(runs[i], key)
  }

  ghost predicate Contains(result: Found, part: Found)
  {
    forall key <- part :: key in result && result[key] == part[key]
  }

  predicate FoundIn(run: WindowRun, key: Wanted)
  {
    run.outcome.found.Ok? && key in run.outcome.found.value
  }

  lemma KeepsOneMore(result: Found, found: Found, run: WindowRun, runs: seq<WindowRun>, more: Found)
    requires more == if run.outcome.found.Ok? then found + run.outcome.found.value else found
    requires run.outcome.found.Ok? ==> forall key <- found :: key !in run.outcome.found.value
    requires Keeps(result, more, runs)
    ensures Keeps(result, found, [run] + runs)
  {
    var all := [run] + runs;
    PartsAreContained(result, found, run, more);
    hide Contains;
    forall i | 0 <= i < |all| && all[i].outcome.found.Ok?
      ensures Contains(result, all[i].outcome.found.value)
    {
      if i > 0 {
        assert all[i] == runs[i - 1];
      }
    }
    hide FoundAmong;
    forall key <- result | key !in found
      ensures FoundAmong(all, key)
    {
      FoundAmongMore(run, runs, key);
    }
  }

  lemma FoundAmongMore(run: WindowRun, runs: seq<WindowRun>, key: Wanted)
    ensures FoundIn(run, key) || FoundAmong(runs, key) ==> FoundAmong([run] + runs, key)
  {
    var all := [run] + runs;
    if FoundIn(run, key) {
      assert FoundIn(all[0], key);
    } else if i :| 0 <= i < |runs| && FoundIn(runs[i], key) {
      assert FoundIn(all[i + 1], key);
    }
  }

  lemma PartsAreContained(result: Found, found: Found, run: WindowRun, more: Found)
    requires more == if run.outcome.found.Ok? then found + run.outcome.found.value else found
    requires run.outcome.found.Ok? ==> forall key <- found :: key !in run.outcome.found.value
    requires Contains(result, more)
    ensures Contains(result, found)
    ensures run.outcome.found.Ok? ==> Contains(result, run.outcome.found.value)
  {
    forall key <- found ensures key in result && result[key] == found[key] {
      assert key in more && more[key] == found[key];
    }
  }

  /** No window's findings are lost, and none are made up. */
  lemma {:induction false} RestKeepsAll(unique: seq<Wanted>, batch: nat, windows: nat -> Window, k: nat, now: nat,
                                        end: nat, lower: string -> string, found: Found)
    requires batch > 0 && Distinct(unique) && forall key <- found :: key !in unique
    ensures var d := DescribeRest(unique, batch, windows, k, now, end, lower, found);
      d.result.Ok? ==> Keeps(d.result.value, found, d.runs)
    decreases |unique|
  {
    hide DescribeRest, DescribeWindow, PublishedBy, Keeps, Usable, Contains, FoundIn;
    RestIsNothing(batch, windows, k, now, end, lower, found);
    KeepsNoRuns(found);
    if unique != [] {
      RestStep(unique, batch, windows, k, now, end, lower, found);
      var n := Size(unique, batch);
      var run := Ran(unique[..n], windows(k), now, end, lower);
      ExtendedGrows(found, run, unique, n, windows(k), now, end, lower);
      var more, then' := Extended(found, run.outcome), run.outcome.now + windows(k).pause;
      hide Ran, Extended, Within, Contains, FoundIn, Size;
      if more.Ok? {
        if then' < end {
          var rest := DescribeRest(unique[n..], batch, windows, k + 1, then', end, lower, more.value);
          RestKeepsAll(unique[n..], batch, windows, k + 1, then', end, lower, more.value);
          if rest.result.Ok? {
            KeepsOneMore(rest.result.value, found, run, rest.runs, more.value);
          }
        } else {
          KeepsNoRuns(more.value);
          KeepsOneMore(more.value, found, run, [], more.value);
          assert [run] + [] == [run];
        }
      }
    }
  }

  lemma KeepsNoRuns(found: Found)
    ensures Keeps(found, found, [])
  {}

  /** The first failing window decides, but a timeout only when nothing usable was found before it. */
  ghost predicate FailsOnlyAs(result: Result<Found, DescribeError>, found: Found, runs: seq<WindowRun>)
  {
    result.Err? ==>
      && runs != [] && runs[|runs| - 1].outcome.found == result
      && (result.error == Timeout ==>
            && !Usable(found)
            && forall i :: 0 <= i < |runs| - 1 && runs[i].outcome.found.Ok? ==> !Usable(runs[i].outcome.found.value))
  }

  lemma {:induction false} RestFailsOnlyAs(unique: seq<Wanted>, batch: nat, windows: nat -> Window, k: nat, now: nat,
                                           end: nat, lower: string -> string, found: Found)
    requires batch > 0 && Distinct(unique) && forall key <- found :: key !in unique
    ensures var d := DescribeRest(unique, batch, windows, k, now, end, lower, found);
      FailsOnlyAs(d.result, found, d.runs)
    decreases |unique|
  {
    hide DescribeRest, DescribeWindow, PublishedBy, Usable, FailsOnlyAs;
    RestIsNothing(batch, windows, k, now, end, lower, found);
    NothingFailed(found);
    if unique != [] {
      RestStep(unique, batch, windows, k, now, end, lower, found);
      var n := Size(unique, batch);
      var run := Ran(unique[..n], windows(k), now, end, lower);
      ExtendedGrows(found, run, unique, n, windows(k), now, end, lower);
      var more, then' := Extended(found, run.outcome), run.outcome.now + windows(k).pause;
      OneWindowFails(found, run);
      if more.Ok? && then' < end {
        var rest := DescribeRest(unique[n..], batch, windows, k + 1, then', end, lower, more.value);
        RestFailsOnlyAs(unique[n..], batch, windows, k + 1, then', end, lower, more.value);
        FailsOneMore(rest.result, found, run, rest.runs);
      }
    }
  }

  lemma NothingFailed(found: Found)
    ensures FailsOnlyAs(Ok(found), found, [])
  {}

  lemma OneWindowFails(found: Found, run: WindowRun)
    ensures FailsOnlyAs(Extended(found, run.outcome), found, [run])
  {
    hide Usable;
  }

  lemma FailsOneMore(result: Result<Found, DescribeError>, found: Found, run: WindowRun, runs: seq<WindowRun>)
    requires run.outcome.found.Ok? && forall key <- found :: key !in run.outcome.found.value
    requires FailsOnlyAs(result, found + run.outcome.found.value, runs)
    ensures FailsOnlyAs(result, found, [run] + runs)
  {
    hide Usable;
    UsableInParts(found, run.outcome.found.value);
    var all := [run] + runs;
    assert forall i :: 0 < i < |all| ==> all[i] == runs[i - 1];
  }

  lemma UsableInParts(found: Found, more: Found)
    requires forall key <- found :: key !in more
    ensures Usable(found + more) <==> Usable(found) || Usable(more)
  {
    if Usable(found) {
      var key :| key in found && found[key] != [];
      assert (found + more)[key] == found[key];
    }
    if Usable(more) {
      var key :| key in more && more[key] != [];
      assert (found + more)[key] == more[key];
    }
  }

  ghost predicate NoPauses(windows: nat -> Window)
  {
    forall k :: windows(k).pause == 0
  }

  /** What is missing from a success, and why. */
  lemma {:induction false} RestMisses(unique: seq<Wanted>, batch: nat, windows: nat -> Window, k: nat, now: nat,
                                      end: nat, lower: string -> string, found: Found)
    requires batch > 0 && Distinct(unique) && forall key <- found :: key !in unique
    ensures var d := DescribeRest(unique, batch, windows, k, now, end, lower, found);
      && (d.result.Ok? && (exists key <- unique :: key !in d.result.value) ==> d.now >= end)
      && (d.result.Ok? && !Usable(d.result.value) ==>
            forall key :: key in d.result.value <==> key in found || key in Published(d.runs))
      && (d.result.Ok? && !Usable(d.result.value) && NoPauses(windows) ==>
            forall key <- unique :: key in d.result.value)
    decreases |unique|
  {
    hide DescribeRest, DescribeWindow, PublishedBy, Usable;
    RestIsNothing(batch, windows, k, now, end, lower, found);
    if unique != [] {
      RestStep(unique, batch, windows, k, now, end, lower, found);
      var n := Size(unique, batch);
      var run := Ran(unique[..n], windows(k), now, end, lower);
      ExtendedGrows(found, run, unique, n, windows(k), now, end, lower);
      var more, then' := Extended(found, run.outcome), run.outcome.now + windows(k).pause;
      hide Ran, Extended;
      assert unique == unique[..n] + unique[n..];
      assert [run][1..] == [] && Published([run]) == run.published + [];
      if more.Ok? && then' < end {
        var rest := DescribeRest(unique[n..], batch, windows, k + 1, then', end, lower, more.value);
        RestMisses(unique[n..], batch, windows, k + 1, then', end, lower, more.value);
        RestKeepsAll(unique[n..], batch, windows, k + 1, then', end, lower, more.value);
        assert ([run] + rest.runs)[1..] == rest.runs;
        if rest.result.Ok? && !Usable(rest.result.value) {
          if Usable(more.value) {
            UsableIsKept(more.value, rest.result.value);
          }
        }
      }
    }
  }

  lemma UsableIsKept(part: Found, result: Found)
    requires Contains(result, part) && Usable(part)
    ensures Usable(result)
  {
    var key :| key in part && part[key] != [];
    assert result[key] == part[key];
  }

  /**
   * Describing many registrations publishes each at most once, in the order they were first named, no more than a
   * batch at a time. A success holds all that any window found and no more; the first window that fails decides, except
   * that a timeout is reported only when nothing usable was found before it.
   */
  lemma DescribeRunsWindows(wanted: seq<Wanted>, batch: nat, windows: nat -> Window, start: nat, end: nat,
                            lower: string -> string)
    ensures var d, unique := Describe(wanted, batch, windows, start, end, lower), Unique(wanted);
      && AreRuns(d.runs, 0, if batch == 0 then |unique| else batch, windows, end, lower)
      && Distinct(unique) && Published(d.runs) <= unique
      && (d.result.Ok? ==> Keeps(d.result.value, map[], d.runs))
      && FailsOnlyAs(d.result, map[], d.runs)
  {
    hide DescribeWindow, PublishedBy, AreRuns, Keeps, Contains, FoundIn, Usable;
    var unique := Unique(wanted);
    UniqueKeepsFirsts(wanted, |wanted|);
    if batch > 0 && |unique| > batch {
      RestRunsWindows(unique, batch, windows, 0, start, end, lower, map[]);
      RestPublishesInOrder(unique, batch, windows, 0, start, end, lower, map[]);
      RestKeepsAll(unique, batch, windows, 0, start, end, lower, map[]);
      RestFailsOnlyAs(unique, batch, windows, 0, start, end, lower, map[]);
    } else {
      OneWindowRuns(unique, batch, windows, start, end, lower);
    }
  }

  lemma OneWindowRuns(unique: seq<Wanted>, batch: nat, windows: nat -> Window, start: nat, end: nat,
                      lower: string -> string)
    requires Distinct(unique) && (batch == 0 || |unique| <= batch)
    ensures var run := Ran(unique, windows(0), start, end, lower);
      && AreRuns([run], 0, if batch == 0 then |unique| else batch, windows, end, lower)
      && Published([run]) <= unique
      && (run.outcome.found.Ok? ==> Keeps(run.outcome.found.value, map[], [run]))
      && FailsOnlyAs(run.outcome.found, map[], [run])
  {
    hide DescribeWindow, PublishedBy, AreRuns, Keeps;
    var run := Ran(unique, windows(0), start, end, lower);
    NoRuns(1, if batch == 0 then |unique| else batch, windows, end, lower);
    AreRunsOneMore(run, [], 0, if batch == 0 then |unique| else batch, windows, end, lower);
    assert [run] + [] == [run] && [run][1..] == [];
    if run.outcome.found.Ok? {
      KeepsNoRuns(run.outcome.found.value);
      KeepsOneMore(run.outcome.found.value, map[], run, [], run.outcome.found.value);
    }
  }

  /** Entry `key` of a result is what the first answer to request number `k` of a window said, in time. */
  ghost predicate IsFirstAnswer(run: WindowRun, w: Window, key: Wanted, k: nat, i: nat, definitions: seq<Definition>,
                                end: nat, lower: string -> string)
  {
    && k < |run.asked| && run.asked[k] == key
    && i < |w.heard| && w.heard[i].at < end
    && IsAnswerTo(run.asked, w.ids, w.heard[i].event, k, lower)
    && DefinitionsOf(w.heard[i].event) == definitions
    && forall j :: 0 <= j < i ==> !IsAnswerTo(run.asked, w.ids, w.heard[j].event, k, lower)
  }

  /** No window used a request id twice. */
  ghost predicate AllFresh(d: Described, windows: nat -> Window)
  {
    forall j :: 0 <= j < |d.runs| ==> Fresh(windows(j).ids, |d.runs[j].asked|)
  }

  /** Every entry of a success comes from the first answer to its own request that arrived before the deadline. */
  lemma EntriesAreFirstAnswers(wanted: seq<Wanted>, batch: nat, windows: nat -> Window, start: nat, end: nat,
                               lower: string -> string, key: Wanted)
    returns (r: nat, k: nat, i: nat)
    ensures var d := Describe(wanted, batch, windows, start, end, lower);
      AllFresh(d, windows) && d.result.Ok? && key in d.result.value ==>
        r < |d.runs| && IsFirstAnswer(d.runs[r], windows(r), key, k, i, d.result.value[key], end, lower)
  {
    hide Describe, DescribeWindow, PublishedBy, IsAnswerTo, Answers, Requests;
    r, k, i := 0, 0, 0;
    var d := Describe(wanted, batch, windows, start, end, lower);
    if AllFresh(d, windows) && d.result.Ok? && key in d.result.value {
      DescribeRunsWindows(wanted, batch, windows, start, end, lower);
      r :| 0 <= r < |d.runs| && FoundIn(d.runs[r], key);
      var run, w := d.runs[r], windows(0 + r);
      assert Contains(d.result.value, run.outcome.found.value);
      k, i := FoundAreFirstAnswers(run.asked, w, run.start, end, lower, key);
    }
  }

  lemma FoundAreFirstAnswers(asked: seq<Wanted>, w: Window, start: nat, end: nat, lower: string -> string, key: Wanted)
    returns (k: nat, i: nat)
    requires Distinct(asked) && Fresh(w.ids, |asked|)
    requires FoundIn(Ran(asked, w, start, end, lower), key)
    ensures var run := Ran(asked, w, start, end, lower);
      IsFirstAnswer(run, w, key, k, i, run.outcome.found.value[key], end, lower)
  {
    hide DescribeWindow, PublishedBy, IsAnswerTo, Answers, Requests;
    var outcome := DescribeWindow(asked, w, start, end, lower);
    WindowEndsWell(asked, w, start, end, lower);
    k :| 0 <= k < |asked| && asked[k] == key;
    i :| 0 <= i < |w.heard| && w.heard[i].at < end && outcome.found.value[key] == DefinitionsOf(w.heard[i].event)
         && AnsweredBy(asked, Requests(asked, w.ids, |asked|), w.heard, key, i, lower);
    forall j | 0 <= j <= i
      ensures IsAnswerTo(asked, w.ids, w.heard[j].event, k, lower) <==>
              Answers(asked, Requests(asked, w.ids, |asked|), w.heard[j].event, lower) == Some(key)
    {
      AnswersMeansIsAnswerTo(asked, w.ids, w.heard[j].event, k, lower);
    }
  }

  /**
   * A success leaves out a registration only when time is up. One with nothing usable in it has an answer to all
   * that was published, so it leaves out exactly what was never asked; with no time lost between windows there is
   * nothing of the kind.
   */
  lemma OnlyTheDeadlineLeavesOut(wanted: seq<Wanted>, batch: nat, windows: nat -> Window, start: nat, end: nat,
                                 lower: string -> string)
    ensures var d, unique := Describe(wanted, batch, windows, start, end, lower), Unique(wanted);
      d.result.Ok? ==>
        && ((exists key <- unique :: key !in d.result.value) ==> d.now >= end)
        && (!Usable(d.result.value) ==>
              && ((forall key <- unique :: key in d.result.value) <==> Published(d.runs) == unique)
              && (NoPauses(windows) ==> Published(d.runs) == unique))
  {
    hide DescribeWindow, PublishedBy, AreRuns, Keeps, Usable, NoPauses, FailsOnlyAs;
    var d, unique := Describe(wanted, batch, windows, start, end, lower), Unique(wanted);
    DescribeRunsWindows(wanted, batch, windows, start, end, lower);
    if batch > 0 && |unique| > batch {
      RestMisses(unique, batch, windows, 0, start, end, lower, map[]);
    } else {
      WindowEndsWell(unique, windows(0), start, end, lower);
      WindowIsCompleteOrUsable(unique, windows(0), d.runs[0].outcome, end, lower);
      assert d.runs[1..] == [] && Published(d.runs) == d.runs[0].published + Published([]);
    }
    if d.result.Ok? && Published(d.runs) != unique {
      var p := Published(d.runs);
      var n := |p|;
      forall j | 0 <= j < n ensures p[j] != unique[n] {
        assert p[j] == unique[j];
      }
      assert unique[n] in unique;
    }
  }

  /**
   * A call may succeed with nothing usable and registrations unanswered: when the first window is answered in time
   * with nothing, and the deadline passes before the next one is sent.
   */
  lemma EmptyHandedSuccess(lower: string -> string)
    ensures var one, other := Wanted("s", "a", "en"), Wanted("s", "b", "en");
      var answer := Arrival(1, Response(Some("id"), []));
      var windows := (k: nat) => Window((i: nat) => "id", (i: nat) => Sent(0), [answer], 10);
      Describe([one, other], 1, windows, 0, 5, lower).result == Ok(map[one := []])
  {
    var one, other := Wanted("s", "a", "en"), Wanted("s", "b", "en");
    var answer := Arrival(1, Response(Some("id"), []));
    var windows := (k: nat) => Window((i: nat) => "id", (i: nat) => Sent(0), [answer], 10);
    assert one != other by { assert "a"[0] != "b"[0]; }
    TwoAreUnique(one, other);
    AnsweredWithNothing(one, windows(0), lower);
    hide DescribeWindow, Unique, PublishedBy;
    assert [one, other][..1] == [one];
    var empty: Found, found: Found := map[], map[one := []];
    assert empty + found == found;
  }

  lemma TwoAreUnique(one: Wanted, other: Wanted)
    requires one != other
    ensures Unique([one, other]) == [one, other]
  {
    var nothing: seq<Wanted> := [];
    assert [one][..0] == nothing && Unique(nothing) == nothing && Unique([one]) == [one];
    assert [one, other][..1] == [one];
  }

  lemma AnsweredWithNothing(one: Wanted, w: Window, lower: string -> string)
    requires w.sends(0) == Sent(0) && w.ids(0) == "id" && w.heard == [Arrival(1, Response(Some("id"), []))]
    ensures DescribeWindow([one], w, 0, 5, lower) == Outcome(Ok(map[one := []]), 1)
  {
    assert SendAll([one], w, 0, 0, 5) == (None, 0, 1);
    assert Requests([one], w.ids, 1) == map["id" := one] by { assert Requests([one], w.ids, 0) == map[]; }
    assert Collect([one], map["id" := one], w.heard, 0, 5, lower, map[]) == Outcome(Ok(map[one := []]), 1);
  }

  // ---------------------------------------------------------------------------------------------
  // When a call may come back empty-handed
  // ---------------------------------------------------------------------------------------------

  /** A success with nothing usable in it, although some registration is unanswered. */
  ghost predicate EmptyHanded(wanted: seq<Wanted>, batch: nat, windows: nat -> Window, start: nat, end: nat,
                              lower: string -> string)
  {
    var result := Describe(wanted, batch, windows, start, end, lower).result;
    result.Ok? && !Usable(result.value) && exists key <- Unique(wanted) :: key !in result.value
  }

  /**
   * A call can come back empty-handed exactly when it takes more than one window and starts with time left: then the
   * deadline may pass between two windows. Every other such call, whatever it meets, is a timeout.
   */
  lemma EmptyHandedExactlyWhen(wanted: seq<Wanted>, batch: nat, start: nat, end: nat, lower: string -> string)
    ensures (exists windows: nat -> Window :: EmptyHanded(wanted, batch, windows, start, end, lower)) <==>
            batch > 0 && |Unique(wanted)| > batch && start < end
  {
    hide EmptyHanded;
    forall windows: nat -> Window | EmptyHanded(wanted, batch, windows, start, end, lower)
      ensures batch > 0 && |Unique(wanted)| > batch && start < end
    {
      EmptyHandedTakesWindowsAndTime(wanted, batch, windows, start, end, lower);
    }
    if batch > 0 && |Unique(wanted)| > batch && start < end {
      OneEmptyWindow(wanted, batch, start, end, lower);
      assert EmptyHanded(wanted, batch, (k: nat) => Emptily(batch, start, end), start, end, lower);
    }
  }

  lemma EmptyHandedTakesWindowsAndTime(wanted: seq<Wanted>, batch: nat, windows: nat -> Window, start: nat, end: nat,
                                       lower: string -> string)
    requires EmptyHanded(wanted, batch, windows, start, end, lower)
    ensures batch > 0 && |Unique(wanted)| > batch && start < end
  {
    hide DescribeWindow, PublishedBy, Usable, EndsWell;
    var unique := Unique(wanted);
    if batch == 0 || |unique| <= batch {
      WindowEndsWell(unique, windows(0), start, end, lower);
      WindowIsCompleteOrUsable(unique, windows(0), DescribeWindow(unique, windows(0), start, end, lower), end, lower);
    } else if start >= end {
      LateWindowsTimeOut(unique[..Size(unique, batch)], windows(0), start, end, lower);
      NothingIsUsable();
    }
  }

  lemma LateWindowsTimeOut(asked: seq<Wanted>, w: Window, start: nat, end: nat, lower: string -> string)
    requires asked != [] && start >= end
    ensures DescribeWindow(asked, w, start, end, lower).found == Err(Timeout)
  {}

  lemma NothingIsUsable()
    ensures !Usable(map[])
  {}

  /** A name for each request, as long as its number. */
  function NameOf(i: nat): string
  {
    seq(i, _ => 'x')
  }

  /** An answer to each of `n` requests that describes nothing. */
  function EmptyAnswers(n: nat, at: nat): (r: seq<Arrival>)
    ensures |r| == n && forall i :: 0 <= i < n ==> r[i] == Arrival(at, Response(Some(NameOf(i)), []))
  {
    seq(n, i requires 0 <= i < n => Arrival(at, Response(Some(NameOf(i)), [])))
  }

  /** A window in which each request is sent and answered with nothing at once, with a long pause after it. */
  function Emptily(n: nat, at: nat, pause: nat): Window
  {
    Window(NameOf, (i: nat) => Sent(0), EmptyAnswers(n, at), pause)
  }

  lemma NamesAreFresh(n: nat)
    ensures Fresh(NameOf, n)
  {
    forall i, j | 0 <= i < j < n ensures NameOf(i) != NameOf(j) {
      assert |NameOf(i)| == i && |NameOf(j)| == j;
    }
  }

  ghost predicate AllEmpty(found: Found)
  {
    forall key <- found :: found[key] == []
  }

  lemma {:induction false} SendsAtOnce(asked: seq<Wanted>, at: nat, pause: nat, end: nat, i: nat)
    requires i <= |asked| && at < end
    ensures SendAll(asked, Emptily(|asked|, at, pause), i, at, end) == (None, at, |asked|)
    decreases |asked| - i
  {
    if i < |asked| {
      SendsAtOnce(asked, at, pause, end, i + 1);
    }
  }

  lemma {:induction false} CollectsNothing(asked: seq<Wanted>, at: nat, end: nat, lower: string -> string, k: nat,
                                           found: Found)
    returns (all: Found)
    requires Distinct(asked) && k < |asked| && at < end
    requires Within(found, asked[..k]) && |found| == k && AllEmpty(found)
    ensures Collect(asked, Requests(asked, NameOf, |asked|), EmptyAnswers(|asked|, at)[k..], at, end, lower, found) ==
            Outcome(Ok(all), at)
    ensures AllEmpty(all) && Within(all, asked)
    decreases |asked| - k
  {
    hide Requests, Answers, Refuses, Within, AllEmpty, Distinct;
    var requests, heard := Requests(asked, NameOf, |asked|), EmptyAnswers(|asked|, at);
    assert heard[k..][0] == heard[k] && heard[k..][1..] == heard[k + 1..];
    OwnAnswer(asked, k, heard[k].event, lower);
    OneMoreEmpty(asked, k, found);
    all := found[asked[k] := []];
    if k + 1 < |asked| {
      all := CollectsNothing(asked, at, end, lower, k + 1, all);
    } else {
      assert asked[..k + 1] == asked;
    }
  }

  lemma OwnAnswer(asked: seq<Wanted>, k: nat, e: BusEvent, lower: string -> string)
    requires k < |asked| && e == Response(Some(NameOf(k)), [])
    ensures Answers(asked, Requests(asked, NameOf, |asked|), e, lower) == Some(asked[k])
    ensures !Refuses(Requests(asked, NameOf, |asked|), e)
  {
    hide Requests, NameOf;
    NamesAreFresh(|asked|);
    RequestsAreTheirOwn(asked, NameOf, |asked|);
  }

  lemma OneMoreEmpty(asked: seq<Wanted>, k: nat, found: Found)
    requires Distinct(asked) && k < |asked| && Within(found, asked[..k]) && AllEmpty(found)
    ensures asked[k] !in found
    ensures var more := found[asked[k] := []];
      Within(more, asked[..k + 1]) && |more| == |found| + 1 && AllEmpty(more)
  {
    assert asked[k] !in asked[..k];
    assert asked[..k + 1] == asked[..k] + [asked[k]];
  }

  lemma OneEmptyWindow(wanted: seq<Wanted>, batch: nat, start: nat, end: nat, lower: string -> string)
    requires batch > 0 && |Unique(wanted)| > batch && start < end
    ensures EmptyHanded(wanted, batch, (k: nat) => Emptily(batch, start, end), start, end, lower)
  {
    hide Requests, EmptyAnswers, SendAll, Usable;
    var unique, windows := Unique(wanted), (k: nat) => Emptily(batch, start, end);
    var asked := unique[..batch];
    UniqueKeepsFirsts(wanted, |wanted|);
    SendsAtOnce(asked, start, end, end, 0);
    var nothing: Found := map[];
    var all := CollectsNothing(asked, start, end, lower, 0, nothing);
    assert EmptyAnswers(batch, start)[0..] == EmptyAnswers(batch, start);
    assert DescribeWindow(asked, windows(0), start, end, lower) == Outcome(Ok(all), start);
    assert nothing + all == all;
    NoneEmptyIsUsable(all);
    assert unique[batch] !in asked && unique[batch] in unique;
  }

  lemma NoneEmptyIsUsable(found: Found)
    requires AllEmpty(found)
    ensures !Usable(found)
  {}
}
