/**
 * What an ask and a query make of the events that reach them (src/client.rs, src/refusal.rs,
 * src/events.rs). Events carry the time they arrive; handling one takes no time, and one that arrives at
 * the very instant a window closes is too late for it.
 */
module ReplyCollector {
  import opened Wrappers
  import opened Numbers
  import opened Text

  const MAX_AUDIO_CLIP_BYTES: nat := 4 * 1024 * 1024

  const MAX_REPLY_MEDIA_BYTES: nat := 16 * 1024 * 1024

  const EVENT_RECOGNIZER_LOOP_UTTERANCE: string := "recognizer_loop:utterance"

  /** The event names the collectors tell apart. */
  datatype Kind =
    | Speak
    | OvosUtteranceSpeak
    | IntentFailure
    | IntentUnmatched
    | PolicyDenied
    | QueryTimeout
    | UtteranceHandled
    | QueryComplete
    | AudioQueue
    | Other(name: string)

  /** `clip` is the length of the embedded audio, when there is any. */
  datatype Event = Event(
    kind: Kind,
    requestId: Option<string>,
    sessionId: Option<string>,
    deniedType: Option<string>,
    text: string,
    clip: Option<nat>)

  datatype Failure =
    | Refused(deniedType: Option<string>)
    | Unanswered(said: string)
    | Fault(kind: Kind)
    | TimedOut

  datatype Reply = Reply(
    text: string,
    utterances: seq<string>,
    ok: bool,
    sessionId: Option<string>,
    events: seq<Event>,
    droppedMedia: nat,
    failure: Option<Event>)

  predicate IsSpeech(e: Event)
  {
    e.kind == Speak || e.kind == OvosUtteranceSpeak
  }

  predicate IsSoftFailure(e: Event)
  {
    e.kind == IntentFailure || e.kind == IntentUnmatched
  }

  predicate IsHardFailure(e: Event)
  {
    e.kind == PolicyDenied || e.kind == QueryTimeout
  }

  // ---------------------------------------------------------------------------------------------
  // Which events are this ask's
  // ---------------------------------------------------------------------------------------------

  /** An event as the collector sees it: when, and how many utterances the client has out by then. */
  datatype Arrival = Arrival(at: nat, event: Event, asks: nat, queries: nat, sends: nat)

  /** A denial without a request id is taken only when this ask is the one utterance it can refuse. */
  predicate RefusalBelongsToAsk(requestId: Option<string>, own: string, deniedType: Option<string>,
                                asks: nat, queries: nat, sends: nat)
  {
    match requestId
    case Some(id) =>
      if id != [] then id == own
      else deniedType == Some(EVENT_RECOGNIZER_LOOP_UTTERANCE) && asks == 1 && queries == 0 && sends == 0
    case None => deniedType == Some(EVENT_RECOGNIZER_LOOP_UTTERANCE) && asks == 1 && queries == 0 && sends == 0
  }

  predicate Correlates(own: string, a: Arrival)
  {
    if a.event.kind == PolicyDenied then
      RefusalBelongsToAsk(a.event.requestId, own, a.event.deniedType, a.asks, a.queries, a.sends)
    else a.event.requestId == Some(own)
  }

  // ---------------------------------------------------------------------------------------------
  // The media budget
  // ---------------------------------------------------------------------------------------------

  predicate FitsBudget(chars: nat, e: Event)
  {
    e.kind == AudioQueue ==>
      e.clip.Some? && e.clip.value <= MAX_AUDIO_CLIP_BYTES * 2 && chars + e.clip.value <= MAX_REPLY_MEDIA_BYTES * 2
  }

  function ClipLength(e: Event): nat
  {
    if e.kind == AudioQueue && e.clip.Some? then e.clip.value else 0
  }

  /** The encoded media of the events kept so far. */
  function MediaOf(events: seq<Event>): nat
  {
    if events == [] then 0 else MediaOf(events[..|events| - 1]) + ClipLength(events[|events| - 1])
  }

  class ReplyMediaBudget {
    var chars: nat
    var dropped: nat

    constructor ()
      ensures chars == 0 && dropped == 0
    {
      chars, dropped := 0, 0;
    }

    method Accept(e: Event) returns (accepted: bool)
      modifies this
      ensures accepted == FitsBudget(old(chars), e)
      ensures accepted <==>
              (e.kind != AudioQueue ||
               (e.clip.Some? && e.clip.value <= 8 * 1024 * 1024 && old(chars) + e.clip.value <= 32 * 1024 * 1024))
      ensures chars == old(chars) + if accepted then ClipLength(e) else 0
      ensures dropped == old(dropped) + if accepted then 0 else 1
    {
      if e.kind != AudioQueue {
        return true;
      }
      if e.clip.None? {
        dropped := dropped + 1;
        return false;
      }
      if e.clip.value > MAX_AUDIO_CLIP_BYTES * 2 || chars + e.clip.value > MAX_REPLY_MEDIA_BYTES * 2 {
        dropped := dropped + 1;
        return false;
      }
      chars := chars + e.clip.value;
      accepted := true;
    }
  }

  // ---------------------------------------------------------------------------------------------
  // What the kept events say
  // ---------------------------------------------------------------------------------------------

  /** An event that was kept, and when it was handled. */
  datatype Heard = Heard(at: nat, event: Event)

  function Push(fragments: seq<string>, text: string): seq<string>
  {
    var normalized := Normalize(text);
    if normalized == [] || (fragments != [] && fragments[|fragments| - 1] == normalized) then fragments
    else fragments + [normalized]
  }

  method PushFragment(fragments: seq<string>, text: string) returns (pushed: seq<string>)
    ensures pushed == Push(fragments, text)
  {
    var normalized := Normalize(text);
    if normalized == [] {
      return fragments;
    }
    if fragments == [] || fragments[|fragments| - 1] != normalized {
      return fragments + [normalized];
    }
    pushed := fragments;
  }

  /** The normalised speech, adjacent repeats collapsed. */
  function Fragments(heard: seq<Heard>): seq<string>
    decreases |heard|
  {
    if heard == [] then []
    else
      var most, last := Fragments(heard[..|heard| - 1]), heard[|heard| - 1].event;
      if IsSpeech(last) then Push(most, last.text) else most
  }

  predicate Says(e: Event)
  {
    IsSpeech(e) && !IsBlank(e.text)
  }

  /** An event that ends a turn without an answer, or ends it at all: speech may still follow. */
  predicate Ends(e: Event)
  {
    IsSoftFailure(e) || e.kind == UtteranceHandled
  }

  /** When the first event of a kind was handled. */
  function First(heard: seq<Heard>, kind: Event -> bool): Option<nat>
    decreases |heard|
  {
    if heard == [] then None
    else
      match First(heard[..|heard| - 1], kind)
      case Some(t) => Some(t)
      case None => if kind(heard[|heard| - 1].event) then Some(heard[|heard| - 1].at) else None
  }

  function LastSoft(heard: seq<Heard>): Option<Event>
    decreases |heard|
  {
    if heard == [] then None
    else if IsSoftFailure(heard[|heard| - 1].event) then Some(heard[|heard| - 1].event)
    else LastSoft(heard[..|heard| - 1])
  }

  function Events(heard: seq<Heard>): (r: seq<Event>)
    ensures |r| == |heard|
  {
    seq(|heard|, i requires 0 <= i < |heard| => heard[i].event)
  }

  function Turns(heard: seq<Heard>): seq<Event>
    decreases |heard|
  {
    if heard == [] then []
    else
      Turns(heard[..|heard| - 1]) +
      if heard[|heard| - 1].event.kind == UtteranceHandled then [heard[|heard| - 1].event] else []
  }

  predicate FailedHard(heard: seq<Heard>)
  {
    heard != [] && IsHardFailure(heard[|heard| - 1].event)
  }

  // ---------------------------------------------------------------------------------------------
  // When an ask stops listening
  // ---------------------------------------------------------------------------------------------

  datatype Windows = Windows(deadline: nat, emptyReplyWait: nat, replySettle: nat)

  function Closes(w: Windows, from: Option<nat>, window: nat): Option<nat>
  {
    if from.Some? then Some(Min(from.value + window, w.deadline)) else None
  }

  /** The settle window counts from the first words, the empty-reply window from the first end of a turn. */
  function Wake(w: Windows, heard: seq<Heard>): nat
  {
    match Closes(w, First(heard, Says), w.replySettle)
    case Some(t) => t
    case None =>
      match Closes(w, First(heard, Ends), w.emptyReplyWait)
      case Some(t) => t
      case None => w.deadline
  }

  /** What an ask kept, when it stopped, and how many clips it dropped. */
  datatype Listened = Listened(heard: seq<Heard>, end: nat, dropped: nat)

  /** Listening on from `now`, with `heard` kept and `dropped` clips dropped so far. */
  function Listen(w: Windows, own: string, arrivals: seq<Arrival>, now: nat, heard: seq<Heard>, dropped: nat): Listened
    decreases |arrivals|
  {
    if FailedHard(heard) then Listened(heard, now, dropped)
    else if now >= Wake(w, heard) || arrivals == [] || arrivals[0].at >= Wake(w, heard) then
      Listened(heard, Max(now, Wake(w, heard)), dropped)
    else
      var a, then' := arrivals[0], Max(now, arrivals[0].at);
      if !Correlates(own, a) then Listen(w, own, arrivals[1..], then', heard, dropped)
      else if !FitsBudget(MediaOf(Events(heard)), a.event) then Listen(w, own, arrivals[1..], then', heard, dropped + 1)
      else Listen(w, own, arrivals[1..], then', heard + [Heard(then', a.event)], dropped)
  }

  // ---------------------------------------------------------------------------------------------
  // The outcome
  // ---------------------------------------------------------------------------------------------

  function FailureError(e: Event): Failure
  {
    if e.kind == PolicyDenied then Refused(e.deniedType)
    else if IsSoftFailure(e) then Unanswered(Trim(e.text))
    else Fault(e.kind)
  }

  /** The first session id that is not blank. */
  function FirstSession(events: seq<Event>): Option<string>
  {
    if events == [] then None
    else if events[0].sessionId.Some? && !IsBlank(events[0].sessionId.value) then events[0].sessionId
    else FirstSession(events[1..])
  }

  function FailureOf(heard: seq<Heard>): Option<Event>
  {
    if FailedHard(heard) then Some(heard[|heard| - 1].event)
    else if Fragments(heard) == [] then LastSoft(heard)
    else None
  }

  function OrElse(first: Option<string>, second: Option<string>): Option<string>
  {
    if first.Some? then first else second
  }

  function Outcome(l: Listened, session: Option<string>): Result<Reply, Failure>
  {
    var fragments, failure := Fragments(l.heard), FailureOf(l.heard);
    if fragments == [] then Err(if failure.Some? then FailureError(failure.value) else TimedOut)
    else
      Ok(Reply(Join(fragments), fragments, failure.None?, OrElse(FirstSession(Events(l.heard)), session),
               Events(l.heard), l.dropped, failure))
  }

  method FindSession(events: seq<Event>) returns (session: Option<string>)
    ensures session == FirstSession(events)
  {
    for i := 0 to |events|
      invariant FirstSession(events) == FirstSession(events[i..])
    {
      assert events[i..][1..] == events[i + 1..];
      if events[i].sessionId.Some? && !IsBlank(events[i].sessionId.value) {
        return events[i].sessionId;
      }
    }
    session := None;
  }

  // ---------------------------------------------------------------------------------------------
  // The collector
  // ---------------------------------------------------------------------------------------------

  /** What the collector's variables stand for while it has kept `heard` and met no hard failure. */
  ghost predicate Tracks(w: Windows, heard: seq<Heard>, events: seq<Event>, fragments: seq<string>,
                         soft: Option<Event>, emptyDeadline: Option<nat>, settleDeadline: Option<nat>,
                         turns: seq<Event>)
  {
    && events == Events(heard) && fragments == Fragments(heard) && soft == LastSoft(heard)
    && emptyDeadline == Closes(w, First(heard, Ends), w.emptyReplyWait)
    && settleDeadline == Closes(w, First(heard, Says), w.replySettle)
    && turns == Turns(heard)
  }

  /** There are fragments exactly when something was said. */
  lemma {:induction false} FragmentsMeanSpeech(heard: seq<Heard>)
    ensures Fragments(heard) != [] <==> First(heard, Says).Some?
    decreases |heard|
  {
    if heard != [] {
      FragmentsMeanSpeech(heard[..|heard| - 1]);
      NormalizeIsEmptyOnlyIfBlank(heard[|heard| - 1].event.text);
    }
  }

  /** What one more kept event adds to each thing the collector keeps track of. */
  lemma OneMoreHeard(heard: seq<Heard>, at: nat, e: Event)
    ensures var more := heard + [Heard(at, e)];
      && FailedHard(more) == IsHardFailure(e)
      && Events(more) == Events(heard) + [e]
      && MediaOf(Events(more)) == MediaOf(Events(heard)) + ClipLength(e)
      && Fragments(more) == (if IsSpeech(e) then Push(Fragments(heard), e.text) else Fragments(heard))
      && LastSoft(more) == (if IsSoftFailure(e) then Some(e) else LastSoft(heard))
      && Turns(more) == Turns(heard) + (if e.kind == UtteranceHandled then [e] else [])
  {
    hide Push, Normalize;
    var more := heard + [Heard(at, e)];
    assert more[..|heard|] == heard;
    assert Events(more) == Events(heard) + [e];
    assert Events(more)[..|heard|] == Events(heard);
  }

  lemma FirstOfOneMore(heard: seq<Heard>, at: nat, e: Event, kind: Event -> bool)
    ensures First(heard + [Heard(at, e)], kind) ==
            if First(heard, kind).Some? then First(heard, kind) else if kind(e) then Some(at) else None
  {
    assert (heard + [Heard(at, e)])[..|heard|] == heard;
  }

  lemma TracksOneMore(w: Windows, heard: seq<Heard>, at: nat, e: Event, events: seq<Event>, fragments: seq<string>,
                      soft: Option<Event>, emptyDeadline: Option<nat>, settleDeadline: Option<nat>, turns: seq<Event>)
    requires Tracks(w, heard, events, fragments, soft, emptyDeadline, settleDeadline, turns)
    ensures var pushed := if IsSpeech(e) then Push(fragments, e.text) else fragments;
      Tracks(w, heard + [Heard(at, e)], events + [e], pushed,
             if IsSoftFailure(e) then Some(e) else soft,
             if (IsSoftFailure(e) || e.kind == UtteranceHandled) && emptyDeadline.None?
             then Some(Min(at + w.emptyReplyWait, w.deadline)) else emptyDeadline,
             if IsSpeech(e) && pushed != [] && settleDeadline.None?
             then Some(Min(at + w.replySettle, w.deadline)) else settleDeadline,
             if e.kind == UtteranceHandled then turns + [e] else turns)
    ensures FailedHard(heard + [Heard(at, e)]) == IsHardFailure(e)
    ensures MediaOf(Events(heard + [Heard(at, e)])) == MediaOf(Events(heard)) + ClipLength(e)
  {
    hide First, Fragments, LastSoft, Turns, MediaOf, Events, Push;
    OneMoreHeard(heard, at, e);
    FirstOfOneMore(heard, at, e, Ends);
    FirstOfOneMore(heard, at, e, Says);
    FragmentsMeanSpeech(heard);
    FragmentsMeanSpeech(heard + [Heard(at, e)]);
  }

  /** Waits for the reply: `now` is the clock, and `remembered` the ends of turns handed to the conversation. */
  method CollectAskReply(arrivals: seq<Arrival>, own: string, session: Option<string>, start: nat, w: Windows)
    returns (r: Result<Reply, Failure>, end: nat, remembered: seq<Event>)
    ensures var l := Listen(w, own, arrivals, start, [], 0);
      r == Outcome(l, session) && end == l.end && remembered == Turns(l.heard)
  {
    hide First, Fragments, LastSoft, Turns, MediaOf, Events, Correlates, Normalize, Push, Join, FirstSession,
         FailureError, FitsBudget;
    var events: seq<Event>, fragments: seq<string> := [], [];
    var budget := new ReplyMediaBudget();
    var hard: Option<Event>, soft: Option<Event> := None, None;
    var emptyDeadline: Option<nat>, settleDeadline: Option<nat> := None, None;
    var now: nat, i: nat := start, 0;
    remembered := [];
    ghost var heard: seq<Heard> := [];
    NothingHeard();
    assert arrivals[0..] == arrivals;
    while true
      invariant i <= |arrivals| && hard == None && !FailedHard(heard)
      invariant Tracks(w, heard, events, fragments, soft, emptyDeadline, settleDeadline, remembered)
      invariant budget.chars == MediaOf(Events(heard))
      invariant Listen(w, own, arrivals, start, [], 0) == Listen(w, own, arrivals[i..], now, heard, budget.dropped)
      decreases |arrivals| - i
    {
      var wake: nat := if settleDeadline.Some? then settleDeadline.value
                       else if emptyDeadline.Some? then emptyDeadline.value else w.deadline;
      wake := Min(wake, w.deadline);
      assert wake == Wake(w, heard);
      hide Tracks, Wake;
      if now >= wake || i == |arrivals| || arrivals[i].at >= wake {
        now := Max(now, wake);
        break;
      }
      var a := arrivals[i];
      assert arrivals[i..][1..] == arrivals[i + 1..];
      i := i + 1;
      now := Max(now, a.at);
      if !Correlates(own, a) {
        continue;
      }
      var accepted := budget.Accept(a.event);
      if !accepted {
        continue;
      }
      var e := a.event;
      TracksOneMore(w, heard, now, e, events, fragments, soft, emptyDeadline, settleDeadline, remembered);
      heard := heard + [Heard(now, e)];
      if IsSpeech(e) {
        fragments := PushFragment(fragments, e.text);
        if fragments != [] && settleDeadline.None? {
          settleDeadline := Some(Min(now + w.replySettle, w.deadline));
        }
      } else if IsSoftFailure(e) {
        soft := Some(e);
        if emptyDeadline.None? {
          emptyDeadline := Some(Min(now + w.emptyReplyWait, w.deadline));
        }
      } else if IsHardFailure(e) {
        hard := Some(e);
      } else if e.kind == UtteranceHandled {
        remembered := remembered + [e];
        if emptyDeadline.None? {
          emptyDeadline := Some(Min(now + w.emptyReplyWait, w.deadline));
        }
      }
      events := events + [e];
      if hard.Some? {
        break;
      }
    }
    end := now;
    var failure := if hard.Some? then hard else if fragments == [] then soft else None;
    if fragments == [] {
      r := Err(if failure.Some? then FailureError(failure.value) else TimedOut);
      return;
    }
    var found := FindSession(events);
    r := Ok(Reply(Join(fragments), fragments, failure.None?, OrElse(found, session), events, budget.dropped, failure));
  }

  lemma NothingHeard()
    ensures Events([]) == [] && Fragments([]) == [] && LastSoft([]) == None && Turns([]) == []
    ensures First([], Ends) == None && First([], Says) == None && MediaOf([]) == 0
  {}

  // ---------------------------------------------------------------------------------------------
  // Events that are not this ask's never matter
  // ---------------------------------------------------------------------------------------------

  /**
   * What is this ask's: what carries its own request id, and of the denials that carry none, those of an utterance
   * while this ask is the only utterance the client has out.
   */
  predicate IsMine(own: string, a: Arrival)
  {
    match a.event.requestId
    case Some(id) =>
      if id == "" && a.event.kind == PolicyDenied then IsMineAlone(a) else id == own
    case None => a.event.kind == PolicyDenied && IsMineAlone(a)
  }

  predicate IsMineAlone(a: Arrival)
  {
    a.event.deniedType == Some("recognizer_loop:utterance") && a.asks == 1 && a.queries == 0 && a.sends == 0
  }

  lemma CorrelatesMeansMine(own: string, a: Arrival)
    ensures Correlates(own, a) <==> IsMine(own, a)
  {}

  /** The arrivals that are this ask's. */
  function Own(own: string, arrivals: seq<Arrival>): (r: seq<Arrival>)
    ensures |r| <= |arrivals|
    ensures forall a <- r :: a in arrivals && IsMine(own, a)
    ensures forall a <- arrivals :: IsMine(own, a) ==> a in r
  {
    if arrivals == [] then []
    else
      assert arrivals == [arrivals[0]] + arrivals[1..];
      if IsMine(own, arrivals[0]) then [arrivals[0]] + Own(own, arrivals[1..])
      else Own(own, arrivals[1..])
  }

  ghost predicate InOrder(arrivals: seq<Arrival>)
  {
    forall i, j :: 0 <= i < j < |arrivals| ==> arrivals[i].at <= arrivals[j].at
  }

  /** Waiting for what comes no earlier than `later` may as well start then, if the window is still open then. */
  lemma WaitingIsIdle(w: Windows, own: string, arrivals: seq<Arrival>, now: nat, later: nat, heard: seq<Heard>,
                      dropped: nat)
    requires now <= later < Wake(w, heard)
    requires arrivals != [] ==> later <= arrivals[0].at
    ensures Listen(w, own, arrivals, now, heard, dropped) == Listen(w, own, arrivals, later, heard, dropped)
            || FailedHard(heard)
  {
    hide Wake, Correlates, FitsBudget, MediaOf, Events;
  }

  lemma OwnComesNoEarlier(own: string, arrivals: seq<Arrival>)
    requires InOrder(arrivals)
    ensures forall a <- Own(own, arrivals) :: arrivals[0].at <= a.at
  {
    hide Own, IsMine;
    forall a <- Own(own, arrivals) ensures arrivals[0].at <= a.at {
      var i :| 0 <= i < |arrivals| && arrivals[i] == a;
    }
  }

  lemma {:induction false} OnlyOwnMatter(w: Windows, own: string, arrivals: seq<Arrival>, now: nat, heard: seq<Heard>,
                                         dropped: nat)
    requires InOrder(arrivals)
    ensures Listen(w, own, arrivals, now, heard, dropped) == Listen(w, own, Own(own, arrivals), now, heard, dropped)
    decreases |arrivals|
  {
    hide Wake, Correlates, IsMine, FitsBudget, MediaOf, Events;
    if FailedHard(heard) || arrivals == [] {
    } else {
      var a, rest := arrivals[0], arrivals[1..];
      var mine := Own(own, arrivals);
      CorrelatesMeansMine(own, a);
      if now >= Wake(w, heard) || a.at >= Wake(w, heard) {
        OwnComesNoEarlier(own, arrivals);
      } else if Correlates(own, a) {
        assert mine[1..] == Own(own, rest);
        OnlyOwnMatter(w, own, rest, Max(now, a.at), heard, dropped + 1);
        OnlyOwnMatter(w, own, rest, Max(now, a.at), heard + [Heard(Max(now, a.at), a.event)], dropped);
      } else {
        OnlyOwnMatter(w, own, rest, Max(now, a.at), heard, dropped);
        if now < a.at {
          OwnComesNoEarlier(own, arrivals);
          WaitingIsIdle(w, own, mine, now, a.at, heard, dropped);
        }
      }
    }
  }

  /**
   * Two inputs that differ only in events that are not this ask's give it the same reply or the same
   * error, the same kept events and dropped clips, and end it at the same moment.
   */
  lemma ForeignEventsNeverMatter(w: Windows, own: string, some: seq<Arrival>, others: seq<Arrival>, start: nat,
                                 session: Option<string>)
    requires InOrder(some) && InOrder(others) && Own(own, some) == Own(own, others)
    ensures Listen(w, own, some, start, [], 0) == Listen(w, own, others, start, [], 0)
    ensures Outcome(Listen(w, own, some, start, [], 0), session) ==
            Outcome(Listen(w, own, others, start, [], 0), session)
  {
    OnlyOwnMatter(w, own, some, start, [], 0);
    OnlyOwnMatter(w, own, others, start, [], 0);
  }

  // ---------------------------------------------------------------------------------------------
  // When an ask ends
  // ---------------------------------------------------------------------------------------------

  /** `heard` came in order, each event while the windows the earlier ones had opened were still open. */
  ghost predicate Timely(w: Windows, start: nat, heard: seq<Heard>)
  {
    && (forall i :: 0 <= i < |heard| ==> start <= heard[i].at < Wake(w, heard[..i]))
    && forall i, j :: 0 <= i < j < |heard| ==> heard[i].at <= heard[j].at && !IsHardFailure(heard[i].event)
  }

  /** The earliest handled event of a kind, found by its place. */
  lemma {:induction false} FirstIsTheEarliest(heard: seq<Heard>, kind: Event -> bool, k: nat)
    requires k < |heard| && kind(heard[k].event) && forall i :: 0 <= i < k ==> !kind(heard[i].event)
    ensures First(heard, kind) == Some(heard[k].at)
    decreases |heard|
  {
    var most := heard[..|heard| - 1];
    if k < |most| {
      FirstIsTheEarliest(most, kind, k);
    } else {
      NoFirst(most, kind);
    }
  }

  lemma {:induction false} NoFirst(heard: seq<Heard>, kind: Event -> bool)
    requires forall i :: 0 <= i < |heard| ==> !kind(heard[i].event)
    ensures First(heard, kind) == None
    decreases |heard|
  {
    if heard != [] {
      NoFirst(heard[..|heard| - 1], kind);
    }
  }

  lemma {:induction false} FirstHasAPlace(heard: seq<Heard>, kind: Event -> bool) returns (k: nat)
    requires First(heard, kind).Some?
    ensures k < |heard| && kind(heard[k].event) && First(heard, kind) == Some(heard[k].at)
    ensures forall i :: 0 <= i < k ==> !kind(heard[i].event)
    decreases |heard|
  {
    var most := heard[..|heard| - 1];
    if First(most, kind).Some? {
      k := FirstHasAPlace(most, kind);
    } else {
      k := |most|;
      if i :| 0 <= i < k && kind(heard[i].event) {
        assert most[i] == heard[i];
        NoneMeansNone(most, kind, i);
      }
    }
  }

  lemma {:induction false} NoneMeansNone(heard: seq<Heard>, kind: Event -> bool, i: nat)
    requires i < |heard| && First(heard, kind) == None
    ensures !kind(heard[i].event)
    decreases |heard|
  {
    if i < |heard| - 1 {
      NoneMeansNone(heard[..|heard| - 1], kind, i);
    }
  }

  /** Handling one more event moves the closing time, but never to before now. */
  lemma WakeAfterOneMore(w: Windows, heard: seq<Heard>, at: nat, e: Event)
    requires at < Wake(w, heard)
    ensures at <= Wake(w, heard + [Heard(at, e)]) <= w.deadline
  {
    FirstOfOneMore(heard, at, e, Ends);
    FirstOfOneMore(heard, at, e, Says);
  }

  lemma {:induction false} ListensInTime(w: Windows, own: string, arrivals: seq<Arrival>, start: nat, now: nat,
                                         heard: seq<Heard>, dropped: nat)
    requires Timely(w, start, heard) && start <= now
    requires heard != [] ==> heard[|heard| - 1].at <= now
    requires FailedHard(heard) ==> now == heard[|heard| - 1].at
    requires !FailedHard(heard) && start != now ==> now <= Wake(w, heard)
    ensures var l := Listen(w, own, arrivals, now, heard, dropped);
      && heard <= l.heard && Timely(w, start, l.heard)
      && l.end == if FailedHard(l.heard) then l.heard[|l.heard| - 1].at else Max(start, Wake(w, l.heard))
    decreases |arrivals|
  {
    hide Timely, Wake, Correlates, FitsBudget, MediaOf, Events;
    if FailedHard(heard) {
    } else if now >= Wake(w, heard) || arrivals == [] || arrivals[0].at >= Wake(w, heard) {
    } else {
      var a, then' := arrivals[0], Max(now, arrivals[0].at);
      if !Correlates(own, a) {
        ListensInTime(w, own, arrivals[1..], start, then', heard, dropped);
      } else if !FitsBudget(MediaOf(Events(heard)), a.event) {
        ListensInTime(w, own, arrivals[1..], start, then', heard, dropped + 1);
      } else {
        var more := heard + [Heard(then', a.event)];
        OneMoreInTime(w, start, heard, then', a.event);
        WakeAfterOneMore(w, heard, then', a.event);
        ListensInTime(w, own, arrivals[1..], start, then', more, dropped);
      }
    }
  }

  lemma OneMoreInTime(w: Windows, start: nat, heard: seq<Heard>, at: nat, e: Event)
    requires Timely(w, start, heard) && !FailedHard(heard) && start <= at < Wake(w, heard)
    requires heard != [] ==> heard[|heard| - 1].at <= at
    ensures Timely(w, start, heard + [Heard(at, e)])
  {
    hide Wake;
    var more := heard + [Heard(at, e)];
    forall i | 0 <= i < |more|
      ensures start <= more[i].at < Wake(w, more[..i])
    {
      assert more[..i] == if i == |heard| then heard else heard[..i];
    }
  }

  lemma WakeIsBounded(w: Windows, heard: seq<Heard>)
    ensures Wake(w, heard) <= w.deadline
  {}

  /**
   * An ask never outlives its deadline. It ends at its hard failure, or else when its window closes: the settle
   * window counted from the first words said, or with nothing said the empty-reply window counted from the first
   * end of a turn, or with neither the deadline itself. No later event starts a window again.
   */
  lemma AskEndsInTime(w: Windows, own: string, arrivals: seq<Arrival>, start: nat)
    ensures var l := Listen(w, own, arrivals, start, [], 0);
      && start <= l.end <= Max(start, w.deadline)
      && Timely(w, start, l.heard)
      && l.end == if FailedHard(l.heard) then l.heard[|l.heard| - 1].at else Max(start, Wake(w, l.heard))
  {
    hide Wake;
    var l := Listen(w, own, arrivals, start, [], 0);
    ListensInTime(w, own, arrivals, start, start, [], 0);
    WakeIsBounded(w, l.heard);
    if l.heard != [] {
      WakeIsBounded(w, l.heard[..|l.heard| - 1]);
    }
  }

  /** Something was said: words, in one of the two kinds of speech. */
  predicate WasSaid(e: Event)
  {
    e.kind in {Speak, OvosUtteranceSpeak} && exists c <- e.text :: !IsWhitespace(c)
  }

  lemma SaidMeansSays(e: Event)
    ensures WasSaid(e) <==> Says(e)
  {}

  /** The ask ended without a denial and without the hub's timeout. */
  ghost predicate EndedByTheClock(l: Listened)
  {
    l.heard != [] ==> l.heard[|l.heard| - 1].event.kind !in {PolicyDenied, QueryTimeout}
  }

  /** Once something was said, the ask settles a fixed time after the first words, whatever comes later. */
  lemma SettlesAfterTheFirstWords(w: Windows, own: string, arrivals: seq<Arrival>, start: nat, k: nat)
    requires var l := Listen(w, own, arrivals, start, [], 0);
      && k < |l.heard| && WasSaid(l.heard[k].event) && EndedByTheClock(l)
      && forall i :: 0 <= i < k ==> !WasSaid(l.heard[i].event)
    ensures var l := Listen(w, own, arrivals, start, [], 0);
      l.end == Min(l.heard[k].at + w.replySettle, w.deadline)
  {
    hide First, WasSaid, Says, Listen;
    var l := Listen(w, own, arrivals, start, [], 0);
    AskEndsInTime(w, own, arrivals, start);
    forall i | 0 <= i <= k ensures WasSaid(l.heard[i].event) <==> Says(l.heard[i].event) {
      SaidMeansSays(l.heard[i].event);
    }
    FirstIsTheEarliest(l.heard, Says, k);
    WakeIsBounded(w, l.heard[..k]);
  }

  /** With nothing said, the ask waits a fixed time after the first end of a turn, whatever comes later. */
  lemma GivesUpAfterTheFirstEnd(w: Windows, own: string, arrivals: seq<Arrival>, start: nat, k: nat)
    requires var l := Listen(w, own, arrivals, start, [], 0);
      && k < |l.heard| && l.heard[k].event.kind in {IntentFailure, IntentUnmatched, UtteranceHandled}
      && EndedByTheClock(l)
      && (forall i :: 0 <= i < k ==> l.heard[i].event.kind !in {IntentFailure, IntentUnmatched, UtteranceHandled})
      && forall i :: 0 <= i < |l.heard| ==> !WasSaid(l.heard[i].event)
    ensures var l := Listen(w, own, arrivals, start, [], 0);
      l.end == Min(l.heard[k].at + w.emptyReplyWait, w.deadline)
  {
    hide First, WasSaid, Says, Listen;
    var l := Listen(w, own, arrivals, start, [], 0);
    AskEndsInTime(w, own, arrivals, start);
    FirstIsTheEarliest(l.heard, Ends, k);
    forall i | 0 <= i < |l.heard| ensures !Says(l.heard[i].event) {
      SaidMeansSays(l.heard[i].event);
    }
    NoFirst(l.heard, Says);
    WakeIsBounded(w, l.heard[..k]);
  }

  /** With nothing said and no turn ended, the ask waits to its deadline. */
  lemma WaitsToTheDeadline(w: Windows, own: string, arrivals: seq<Arrival>, start: nat)
    requires var l := Listen(w, own, arrivals, start, [], 0);
      && EndedByTheClock(l)
      && forall i :: 0 <= i < |l.heard| ==>
           !WasSaid(l.heard[i].event) && l.heard[i].event.kind !in {IntentFailure, IntentUnmatched, UtteranceHandled}
    ensures Listen(w, own, arrivals, start, [], 0).end == Max(start, w.deadline)
  {
    hide First, WasSaid, Says, Listen;
    var l := Listen(w, own, arrivals, start, [], 0);
    AskEndsInTime(w, own, arrivals, start);
    forall i | 0 <= i < |l.heard| ensures !Says(l.heard[i].event) {
      SaidMeansSays(l.heard[i].event);
    }
    NoFirst(l.heard, Says);
    NoFirst(l.heard, Ends);
  }

  // ---------------------------------------------------------------------------------------------
  // What an ask keeps
  // ---------------------------------------------------------------------------------------------

  /** What the media budget keeps of events, were there no windows at all, and how many it drops. */
  function Kept(own: seq<Arrival>, start: nat): (seq<Heard>, nat)
    decreases |own|
  {
    if own == [] then ([], 0)
    else
      var (heard, dropped) := Kept(own[..|own| - 1], start);
      var a := own[|own| - 1];
      if FitsBudget(MediaOf(Events(heard)), a.event) then (heard + [Heard(Max(start, a.at), a.event)], dropped)
      else (heard, dropped + 1)
  }

  /**
   * An ask keeps what the budget allows of its own events before it ends, and none of the rest: it misses one of
   * its own events only when that came at or after the end, or came behind its hard failure.
   */
  lemma {:induction false} KeepsAllUpToTheEnd(w: Windows, own: string, all: seq<Arrival>, start: nat, n: nat, now: nat)
    returns (k: nat)
    requires InOrder(all) && n <= |all| && (forall a <- all :: IsMine(own, a))
    requires now == if n == 0 then start else Max(start, all[n - 1].at)
    ensures n <= k <= |all|
    ensures var l := Listen(w, own, all[n..], now, Kept(all[..n], start).0, Kept(all[..n], start).1);
      && (l.heard, l.dropped) == Kept(all[..k], start)
      && (!FailedHard(l.heard) ==> forall i :: k <= i < |all| ==> l.end <= Max(start, all[i].at))
      && forall i :: n <= i < k ==> Max(start, all[i].at) <= l.end
    decreases |all| - n
  {
    hide Wake, Correlates, IsMine, FitsBudget, MediaOf, Events, Kept;
    var (heard, dropped) := Kept(all[..n], start);
    var l := Listen(w, own, all[n..], now, heard, dropped);
    if FailedHard(heard) || now >= Wake(w, heard) || n == |all| || all[n].at >= Wake(w, heard) {
      k := n;
      assert all[n..] != [] ==> all[n..][0] == all[n];
    } else {
      assert all[n..][1..] == all[n + 1..];
      CorrelatesMeansMine(own, all[n]);
      KeptOneMore(all, start, n);
      k := KeepsAllUpToTheEnd(w, own, all, start, n + 1, Max(now, all[n].at));
      assert Max(now, all[n].at) == Max(start, all[n].at);
      EndsNoEarlier(w, own, all[n + 1..], Max(now, all[n].at), Kept(all[..n + 1], start).0,
                    Kept(all[..n + 1], start).1);
    }
  }

  lemma KeptOneMore(all: seq<Arrival>, start: nat, n: nat)
    requires n < |all|
    ensures Kept(all[..n + 1], start) ==
            var (heard, dropped) := Kept(all[..n], start);
            if FitsBudget(MediaOf(Events(heard)), all[n].event)
            then (heard + [Heard(Max(start, all[n].at), all[n].event)], dropped) else (heard, dropped + 1)
  {
    hide FitsBudget, MediaOf, Events;
    assert all[..n + 1][..n] == all[..n];
  }

  lemma {:induction false} EndsNoEarlier(w: Windows, own: string, arrivals: seq<Arrival>, now: nat, heard: seq<Heard>,
                                         dropped: nat)
    ensures now <= Listen(w, own, arrivals, now, heard, dropped).end
    decreases |arrivals|
  {
    hide Wake, Correlates, FitsBudget, MediaOf, Events;
    if !FailedHard(heard) && now < Wake(w, heard) && arrivals != [] && arrivals[0].at < Wake(w, heard) {
      var then' := Max(now, arrivals[0].at);
      EndsNoEarlier(w, own, arrivals[1..], then', heard, dropped);
      EndsNoEarlier(w, own, arrivals[1..], then', heard, dropped + 1);
      EndsNoEarlier(w, own, arrivals[1..], then', heard + [Heard(then', arrivals[0].event)], dropped);
    }
  }

  lemma {:induction false} KeptIsWithinBudget(own: seq<Arrival>, start: nat)
    ensures MediaOf(Events(Kept(own, start).0)) <= MAX_REPLY_MEDIA_BYTES * 2
    ensures |Kept(own, start).0| + Kept(own, start).1 == |own|
    decreases |own|
  {
    hide MediaOf, Events, MAX_REPLY_MEDIA_BYTES;
    if own == [] {
      NothingHeard();
      assert MediaOf(Events([])) == 0;
    } else {
      KeptIsWithinBudget(own[..|own| - 1], start);
      var a := own[|own| - 1];
      OneMoreHeard(Kept(own[..|own| - 1], start).0, Max(start, a.at), a.event);
    }
  }

  /**
   * What an ask goes by is decided by its own events: it kept a first part of them as far as the budget allows,
   * every one of that part came by the end, and unless a hard failure ended it every later one came too late.
   */
  lemma AskKeepsItsOwnEvents(w: Windows, own: string, arrivals: seq<Arrival>, start: nat) returns (k: nat)
    requires InOrder(arrivals)
    ensures var l, mine := Listen(w, own, arrivals, start, [], 0), Own(own, arrivals);
      && k <= |mine|
      && (l.heard, l.dropped) == Kept(mine[..k], start)
      && (forall i :: 0 <= i < k ==> Max(start, mine[i].at) <= l.end)
      && (!FailedHard(l.heard) ==> forall i :: k <= i < |mine| ==> l.end <= Max(start, mine[i].at))
      && MediaOf(Events(l.heard)) <= 32 * 1024 * 1024
      && |l.heard| + l.dropped == k
  {
    hide MediaOf, Events, IsMine;
    var mine := Own(own, arrivals);
    OnlyOwnMatter(w, own, arrivals, start, [], 0);
    OwnIsInOrder(own, arrivals);
    assert mine[..0] == [] && mine[0..] == mine;
    k := KeepsAllUpToTheEnd(w, own, mine, start, 0, start);
    KeptIsWithinBudget(mine[..k], start);
  }

  lemma {:induction false} KeptComesFrom(own: seq<Arrival>, start: nat, i: nat) returns (j: nat)
    requires i < |Kept(own, start).0|
    ensures j < |own| && Kept(own, start).0[i] == Heard(Max(start, own[j].at), own[j].event)
    decreases |own|
  {
    hide FitsBudget, MediaOf, Events;
    var n := |own| - 1;
    if i < |Kept(own[..n], start).0| {
      j := KeptComesFrom(own[..n], start, i);
    } else {
      j := n;
    }
  }

  /** Every event an ask goes by was its own: the reply to another, or another's refusal, is never among them. */
  lemma AskKeepsOnlyItsOwn(w: Windows, own: string, arrivals: seq<Arrival>, start: nat, i: nat) returns (j: nat)
    requires InOrder(arrivals) && i < |Listen(w, own, arrivals, start, [], 0).heard|
    ensures var kept := Listen(w, own, arrivals, start, [], 0).heard[i];
      && j < |arrivals| && kept == Heard(Max(start, arrivals[j].at), arrivals[j].event)
      && (kept.event.kind != PolicyDenied ==> kept.event.requestId == Some(own))
      && (kept.event.kind == PolicyDenied ==>
            || kept.event.requestId == Some(own)
            || (&& (kept.event.requestId == None || kept.event.requestId == Some(""))
                && kept.event.deniedType == Some("recognizer_loop:utterance")
                && arrivals[j].asks == 1 && arrivals[j].queries == 0 && arrivals[j].sends == 0))
  {
    hide Listen, Kept;
    var k := AskKeepsItsOwnEvents(w, own, arrivals, start);
    var mine := Own(own, arrivals);
    var m := KeptComesFrom(mine[..k], start, i);
    assert mine[m] in mine && mine[m] in arrivals;
    j :| 0 <= j < |arrivals| && arrivals[j] == mine[m];
  }

  lemma {:induction false} OwnIsInOrder(own: string, arrivals: seq<Arrival>)
    requires InOrder(arrivals)
    ensures InOrder(Own(own, arrivals))
    decreases |arrivals|
  {
    hide IsMine;
    if arrivals != [] {
      var mine := Own(own, arrivals[1..]);
      OwnIsInOrder(own, arrivals[1..]);
      OwnComesNoEarlier(own, arrivals);
      assert forall a <- mine :: a in Own(own, arrivals);
    }
  }

  // ---------------------------------------------------------------------------------------------
  // What an ask reports
  // ---------------------------------------------------------------------------------------------

  /** The normalised words of each event that said something, in order. */
  function Spoken(heard: seq<Heard>): seq<string>
    decreases |heard|
  {
    if heard == [] then []
    else
      Spoken(heard[..|heard| - 1]) +
      if Says(heard[|heard| - 1].event) then [Normalize(heard[|heard| - 1].event.text)] else []
  }

  /** A sequence with every run of equal neighbours reduced to one. */
  function Collapse(texts: seq<string>): seq<string>
  {
    if |texts| <= 1 then texts
    else if texts[0] == texts[1] then Collapse(texts[1..])
    else [texts[0]] + Collapse(texts[1..])
  }

  lemma {:induction false} CollapseOneMore(texts: seq<string>, text: string)
    ensures Collapse(texts + [text]) ==
            if texts != [] && texts[|texts| - 1] == text then Collapse(texts) else Collapse(texts) + [text]
    ensures texts != [] ==> Collapse(texts) != [] && Collapse(texts)[|Collapse(texts)| - 1] == texts[|texts| - 1]
    decreases |texts|
  {
    if |texts| >= 1 {
      CollapseOneMore(texts[1..], text);
      assert (texts + [text])[1..] == texts[1..] + [text];
    }
    if |texts| > 1 && texts[0] != texts[1] {
      assert [texts[0]] + (Collapse(texts[1..]) + [text]) == [texts[0]] + Collapse(texts[1..]) + [text];
    }
  }

  /** Each text as often as its count says. */
  function Repeated(texts: seq<string>, counts: seq<nat>): seq<string>
    requires |texts| == |counts|
  {
    if texts == [] then [] else seq(counts[0], _ => texts[0]) + Repeated(texts[1..], counts[1..])
  }

  /** Repeating each of the texts left gives back what was collapsed, and no two neighbours are equal. */
  lemma {:induction false} CollapseOnlyDropsRepeats(texts: seq<string>) returns (counts: seq<nat>)
    ensures |counts| == |Collapse(texts)| && forall i :: 0 <= i < |counts| ==> counts[i] > 0
    ensures texts == Repeated(Collapse(texts), counts)
    ensures forall i :: 0 < i < |Collapse(texts)| ==> Collapse(texts)[i - 1] != Collapse(texts)[i]
    ensures texts != [] ==> Collapse(texts) != [] && Collapse(texts)[0] == texts[0]
  {
    if |texts| <= 1 {
      counts := seq(|texts|, _ => 1);
      if |texts| == 1 {
        assert Repeated(texts[1..], counts[1..]) == [];
        assert seq(1, _ => texts[0]) == texts;
      }
    } else {
      var rest := CollapseOnlyDropsRepeats(texts[1..]);
      var collapsed := Collapse(texts[1..]);
      assert texts == [texts[0]] + texts[1..];
      if texts[0] == texts[1] {
        counts := [rest[0] + 1] + rest[1..];
        assert seq(rest[0] + 1, _ => texts[0]) == [texts[0]] + seq(rest[0], _ => collapsed[0]);
        assert counts[1..] == rest[1..];
      } else {
        counts := [1] + rest;
        assert counts[1..] == rest && ([texts[0]] + collapsed)[1..] == collapsed;
        assert seq(1, _ => texts[0]) == [texts[0]];
      }
    }
  }

  lemma {:induction false} RepeatedAre(texts: seq<string>, counts: seq<nat>)
    requires |texts| == |counts| && forall i :: 0 <= i < |counts| ==> counts[i] > 0
    ensures forall t <- texts :: t in Repeated(texts, counts)
  {
    if texts != [] {
      RepeatedAre(texts[1..], counts[1..]);
      assert seq(counts[0], _ => texts[0])[0] == texts[0];
      assert texts == [texts[0]] + texts[1..];
    }
  }

  /** What was said in one stretch of events and then in another. */
  lemma {:induction false} SpokenInParts(some: seq<Heard>, others: seq<Heard>)
    ensures Spoken(some + others) == Spoken(some) + Spoken(others)
    decreases |others|
  {
    hide Normalize, Says;
    if others == [] {
      assert some + others == some;
    } else {
      var n := |others| - 1;
      SpokenInParts(some, others[..n]);
      assert (some + others)[..|some| + n] == some + others[..n];
    }
  }

  /** One event adds its words, white space normalised, when it is speech that has any. */
  lemma OneIsSpoken(h: Heard)
    ensures Spoken([h]) == if WasSaid(h.event) then [Normalize(h.event.text)] else []
  {
    hide Normalize, WasSaid, Says;
    SaidMeansSays(h.event);
    assert [h][..0] == [];
  }

  /** The ends of turns handed on are those of one stretch of events and then those of the next. */
  lemma {:induction false} TurnsInParts(some: seq<Heard>, others: seq<Heard>)
    ensures Turns(some + others) == Turns(some) + Turns(others)
    decreases |others|
  {
    if others == [] {
      assert some + others == some;
    } else {
      var n := |others| - 1;
      TurnsInParts(some, others[..n]);
      assert (some + others)[..|some| + n] == some + others[..n];
      var last := if others[n].event.kind == UtteranceHandled then [others[n].event] else [];
      assert Turns(some) + (Turns(others[..n]) + last) == Turns(some) + Turns(others[..n]) + last;
    }
  }

  /** One event is handed on when it ends a turn. */
  lemma OneTurnsOver(h: Heard)
    ensures Turns([h]) == if h.event.kind == UtteranceHandled then [h.event] else []
  {
    assert [h][..0] == [];
  }

  lemma {:induction false} CollapseSpoken(heard: seq<Heard>)
    ensures Fragments(heard) == Collapse(Spoken(heard))
    ensures forall f <- Spoken(heard) :: f != []
    decreases |heard|
  {
    hide Normalize, Collapse, IsBlank, IsSpeech;
    NothingCollapses();
    if heard != [] {
      var most, e := heard[..|heard| - 1], heard[|heard| - 1].event;
      CollapseSpoken(most);
      NormalizeIsEmptyOnlyIfBlank(e.text);
      if Says(e) {
        CollapseOneMore(Spoken(most), Normalize(e.text));
        assert Spoken(heard) == Spoken(most) + [Normalize(e.text)];
      } else {
        assert Spoken(heard) == Spoken(most);
      }
    }
  }

  lemma NothingCollapses()
    ensures Collapse([]) == []
  {}

  /** The fragments are the words said, normalised, with adjacent repeats collapsed. */
  lemma FragmentsAreTheWordsSaid(heard: seq<Heard>)
    ensures Fragments(heard) == Collapse(Spoken(heard))
    ensures forall f <- Fragments(heard) :: f != []
    ensures forall i :: 0 < i < |Fragments(heard)| ==> Fragments(heard)[i - 1] != Fragments(heard)[i]
  {
    hide Fragments, Spoken, Collapse;
    CollapseSpoken(heard);
    var counts := CollapseOnlyDropsRepeats(Spoken(heard));
    RepeatedAre(Collapse(Spoken(heard)), counts);
  }

  /** The last event of the two kinds that say nothing was found. */
  lemma {:induction false} LastSoftHasAPlace(heard: seq<Heard>)
    ensures LastSoft(heard).None? <==> forall h <- heard :: h.event.kind !in {IntentFailure, IntentUnmatched}
    ensures LastSoft(heard).Some? ==> exists i :: IsLastSoft(heard, i) && LastSoft(heard) == Some(heard[i].event)
    decreases |heard|
  {
    if heard != [] {
      var n := |heard| - 1;
      var most := heard[..n];
      LastSoftHasAPlace(most);
      assert heard == most + [heard[n]];
      if IsSoftFailure(heard[n].event) {
        assert IsLastSoft(heard, n);
      } else if LastSoft(most).Some? {
        var i :| IsLastSoft(most, i) && LastSoft(most) == Some(most[i].event);
        assert IsLastSoft(heard, i);
      }
    }
  }

  ghost predicate IsLastSoft(heard: seq<Heard>, i: int)
  {
    && 0 <= i < |heard| && heard[i].event.kind in {IntentFailure, IntentUnmatched}
    && forall j :: i < j < |heard| ==> heard[j].event.kind !in {IntentFailure, IntentUnmatched}
  }

  ghost predicate Includes(heard: seq<Heard>, kind: Event -> bool)
  {
    exists i :: 0 <= i < |heard| && kind(heard[i].event)
  }

  lemma SomeIsFirst(heard: seq<Heard>, kind: Event -> bool)
    ensures First(heard, kind).Some? <==> Includes(heard, kind)
  {
    if First(heard, kind).Some? {
      var k := FirstHasAPlace(heard, kind);
    } else if i :| 0 <= i < |heard| && kind(heard[i].event) {
      NoneMeansNone(heard, kind, i);
    }
  }

  /** Some kept event is of one of these kinds. */
  ghost predicate HeardOneOf(heard: seq<Heard>, kinds: set<Kind>)
  {
    exists i :: 0 <= i < |heard| && heard[i].event.kind in kinds
  }

  /** What a reply says of the events it was made from. */
  ghost predicate RepliesWith(reply: Reply, heard: seq<Heard>, dropped: nat, session: Option<string>)
  {
    && reply.utterances == Collapse(Spoken(heard))
    && reply.text == Join(reply.utterances)
    && |reply.events| == |heard| && (forall i :: 0 <= i < |heard| ==> reply.events[i] == heard[i].event)
    && reply.droppedMedia == dropped
    && reply.sessionId == (if FirstSession(reply.events).Some? then FirstSession(reply.events) else session)
    && (reply.ok <==> !HeardOneOf(heard, {PolicyDenied, QueryTimeout}))
    && (if reply.ok then reply.failure == None else reply.failure == Some(heard[|heard| - 1].event))
  }

  /** What an error says of the events it was made from, of which the last is a hard failure if any is. */
  ghost predicate FailsWith(error: Failure, heard: seq<Heard>)
  {
    if HeardOneOf(heard, {PolicyDenied}) then error == Refused(heard[|heard| - 1].event.deniedType)
    else if HeardOneOf(heard, {QueryTimeout}) then error == Fault(QueryTimeout)
    else if HeardOneOf(heard, {IntentFailure, IntentUnmatched}) then
      exists i :: IsLastSoft(heard, i) && error == Unanswered(Trim(heard[i].event.text))
    else error == TimedOut
  }

  /**
   * There is a reply exactly when something was said in time, and it is `ok` exactly when no hard failure came.
   * With nothing said the error tells the four endings apart: refused, a fault, unanswered, or timed out.
   */
  lemma OutcomeFollowsFromWhatWasHeard(w: Windows, own: string, arrivals: seq<Arrival>, start: nat,
                                       session: Option<string>)
    ensures var l := Listen(w, own, arrivals, start, [], 0);
      var r := Outcome(l, session);
      && (r.Ok? <==> exists i :: 0 <= i < |l.heard| && WasSaid(l.heard[i].event))
      && (r.Ok? ==> RepliesWith(r.value, l.heard, l.dropped, session))
      && (r.Err? ==> FailsWith(r.error, l.heard))
  {
    hide First, Normalize, Wake, Spoken, Collapse, Fragments, FirstSession, Trim, Join, LastSoft, Says, WasSaid, Listen;
    var l := Listen(w, own, arrivals, start, [], 0);
    AskEndsInTime(w, own, arrivals, start);
    WordsWereHeard(l.heard);
    FragmentsAreTheWordsSaid(l.heard);
    LastSoftHasAPlace(l.heard);
    HardFailuresComeLast(w, start, l.heard);
    hide HeardOneOf, IsLastSoft;
    SoftFailuresAreHeard(l.heard);
  }

  lemma SoftFailuresAreHeard(heard: seq<Heard>)
    ensures HeardOneOf(heard, {IntentFailure, IntentUnmatched}) <==>
            exists h <- heard :: h.event.kind in {IntentFailure, IntentUnmatched}
  {
    if h :| h in heard && h.event.kind in {IntentFailure, IntentUnmatched} {
      var i :| 0 <= i < |heard| && heard[i] == h;
    }
  }

  lemma WordsWereHeard(heard: seq<Heard>)
    ensures Fragments(heard) != [] <==> exists i :: 0 <= i < |heard| && WasSaid(heard[i].event)
  {
    hide Fragments, First, Says, WasSaid;
    FragmentsMeanSpeech(heard);
    SomeIsFirst(heard, Says);
    forall i | 0 <= i < |heard| ensures WasSaid(heard[i].event) <==> Says(heard[i].event) {
      SaidMeansSays(heard[i].event);
    }
  }

  /** A hard failure ends an ask: it is the last event kept. */
  lemma HardFailuresComeLast(w: Windows, start: nat, heard: seq<Heard>)
    requires Timely(w, start, heard)
    ensures HeardOneOf(heard, {PolicyDenied, QueryTimeout}) <==> FailedHard(heard)
    ensures HeardOneOf(heard, {PolicyDenied}) <==> FailedHard(heard) && heard[|heard| - 1].event.kind == PolicyDenied
    ensures HeardOneOf(heard, {QueryTimeout}) <==> FailedHard(heard) && heard[|heard| - 1].event.kind == QueryTimeout
  {
    hide Wake;
  }

  /** The session of a reply is the first one an event names, blank names passed over. */
  lemma {:induction false} FirstSessionIsTheFirst(events: seq<Event>)
    ensures FirstSession(events).None? <==> forall e <- events :: NamesNoSession(e)
    ensures FirstSession(events).Some? ==>
              exists i :: 0 <= i < |events| && events[i].sessionId == FirstSession(events) && !NamesNoSession(events[i])
                          && forall j :: 0 <= j < i ==> NamesNoSession(events[j])
  {
    hide IsBlank;
    if events != [] {
      FirstSessionIsTheFirst(events[1..]);
      assert events == [events[0]] + events[1..];
      if NamesNoSession(events[0]) && FirstSession(events).Some? {
        var i :| 0 <= i < |events[1..]| && events[1..][i].sessionId == FirstSession(events)
                 && !NamesNoSession(events[1..][i]) && forall j :: 0 <= j < i ==> NamesNoSession(events[1..][j]);
        assert events[i + 1] == events[1..][i];
        assert forall j :: 0 < j < i + 1 ==> events[j] == events[1..][j - 1];
      }
    }
  }

  predicate NamesNoSession(e: Event)
  {
    e.sessionId.None? || IsBlank(e.sessionId.value)
  }

  // ---------------------------------------------------------------------------------------------
  // Queries
  // ---------------------------------------------------------------------------------------------

  /** A message as a query sees it: the query it answers, and the event it carries when it carries one. */
  datatype Message = Message(at: nat, queryId: Option<string>, event: Option<Event>)

  datatype QueryFailure =
    | Failed(kind: Kind)
    | NoReply
    | QueryTimedOut

  predicate Concludes(e: Event)
  {
    e.kind == QueryComplete || IsHardFailure(e)
  }

  predicate Answers(query: string, m: Message)
  {
    m.queryId == Some(query) && m.event.Some?
  }

  /** A message waiting when the query starts is read even with no time left. */
  predicate TooLate(m: Message, start: nat, timeout: nat)
  {
    m.at > start && m.at >= start + timeout
  }

  /** What a query gathered up to the event that concluded it, and how many clips it dropped. */
  datatype Gathered = Gathered(heard: seq<Heard>, dropped: nat)

  function Gather(query: string, messages: seq<Message>, start: nat, timeout: nat, heard: seq<Heard>, dropped: nat)
    : Option<Gathered>
    decreases |messages|
  {
    if messages == [] || TooLate(messages[0], start, timeout) then None
    else
      var m, rest := messages[0], messages[1..];
      if !Answers(query, m) then Gather(query, rest, start, timeout, heard, dropped)
      else if !FitsBudget(MediaOf(Events(heard)), m.event.value)
      then Gather(query, rest, start, timeout, heard, dropped + 1)
      else
        var more := heard + [Heard(m.at, m.event.value)];
        if Concludes(m.event.value) then Some(Gathered(more, dropped))
        else Gather(query, rest, start, timeout, more, dropped)
  }

  function QueryOutcome(gathered: Option<Gathered>, session: string): Result<Reply, QueryFailure>
  {
    if gathered.None? then Err(QueryTimedOut)
    else
      var heard := gathered.value.heard;
      var fragments, failure := Fragments(heard), FailureOf(heard);
      if fragments == [] then Err(if failure.Some? then Failed(failure.value.kind) else NoReply)
      else
        Ok(Reply(Join(fragments), fragments, failure.None?, OrElse(FirstSession(Events(heard)), Some(session)),
                 Events(heard), gathered.value.dropped, failure))
  }

  method CollectQueryReply(messages: seq<Message>, query: string, session: string, start: nat, timeout: nat)
    returns (r: Result<Reply, QueryFailure>)
    ensures r == QueryOutcome(Gather(query, messages, start, timeout, [], 0), session)
  {
    hide Fragments, LastSoft, MediaOf, Events, Normalize, Push, Join, FirstSession, FitsBudget, First, Turns, TooLate;
    var events: seq<Event>, fragments: seq<string> := [], [];
    var budget := new ReplyMediaBudget();
    var failure: Option<Event>, soft: Option<Event> := None, None;
    ghost var heard: seq<Heard> := [];
    var i: nat := 0;
    var concluded := false;
    NothingHeard();
    assert messages[0..] == messages;
    while !concluded
      invariant i <= |messages| && events == Events(heard) && fragments == Fragments(heard) && soft == LastSoft(heard)
      invariant budget.chars == MediaOf(Events(heard))
      invariant failure == if FailedHard(heard) then Some(heard[|heard| - 1].event) else None
      invariant !concluded ==> failure == None
      invariant Gather(query, messages, start, timeout, [], 0) ==
                if concluded then Some(Gathered(heard, budget.dropped))
                else Gather(query, messages[i..], start, timeout, heard, budget.dropped)
      decreases |messages| - i, !concluded
    {
      if i == |messages| || TooLate(messages[i], start, timeout) {
        return Err(QueryTimedOut);
      }
      var m := messages[i];
      assert messages[i..][1..] == messages[i + 1..];
      i := i + 1;
      if m.queryId != Some(query) {
        continue;
      }
      if m.event.None? {
        continue;
      }
      var e := m.event.value;
      var accepted := budget.Accept(e);
      if !accepted {
        continue;
      }
      OneMoreHeard(heard, m.at, e);
      heard := heard + [Heard(m.at, e)];
      if e.kind == QueryComplete {
        events := events + [e];
        concluded := true;
        continue;
      }
      if IsSpeech(e) {
        fragments := PushFragment(fragments, e.text);
      } else if IsSoftFailure(e) {
        soft := Some(e);
      } else if IsHardFailure(e) {
        failure := Some(e);
      }
      events := events + [e];
      concluded := failure.Some?;
    }
    if fragments == [] {
      failure := if failure.Some? then failure else soft;
      return Err(if failure.Some? then Failed(failure.value.kind) else NoReply);
    }
    var found := FindSession(events);
    r := Ok(Reply(Join(fragments), fragments, failure.None?, OrElse(found, Some(session)), events, budget.dropped,
                  failure));
  }

  /** The messages that answer a query: those with an event that carry its id. */
  function AnswersTo(query: string, messages: seq<Message>): (r: seq<Message>)
    ensures forall m <- r :: m in messages && m.queryId == Some(query) && m.event.Some?
    ensures forall m <- messages :: m.queryId == Some(query) && m.event.Some? ==> m in r
  {
    if messages == [] then []
    else
      assert messages == [messages[0]] + messages[1..];
      if messages[0].queryId == Some(query) && messages[0].event.Some?
      then [messages[0]] + AnswersTo(query, messages[1..])
      else AnswersTo(query, messages[1..])
  }

  ghost predicate MessagesInOrder(messages: seq<Message>)
  {
    forall i, j :: 0 <= i < j < |messages| ==> messages[i].at <= messages[j].at
  }

  lemma {:induction false} OnlyAnswersMatter(query: string, messages: seq<Message>, start: nat, timeout: nat,
                                             heard: seq<Heard>, dropped: nat)
    requires MessagesInOrder(messages)
    ensures Gather(query, messages, start, timeout, heard, dropped) ==
            Gather(query, AnswersTo(query, messages), start, timeout, heard, dropped)
    decreases |messages|
  {
    hide FitsBudget, MediaOf, Events, Concludes;
    var answers := AnswersTo(query, messages);
    if messages != [] {
      var m, rest := messages[0], messages[1..];
      if TooLate(m, start, timeout) {
        if answers != [] {
          assert answers[0] in answers && answers[0] in messages;
          var i :| 0 <= i < |messages| && messages[i] == answers[0];
        }
      } else if Answers(query, m) {
        assert answers[1..] == AnswersTo(query, rest);
        OnlyAnswersMatter(query, rest, start, timeout, heard, dropped + 1);
        OnlyAnswersMatter(query, rest, start, timeout, heard + [Heard(m.at, m.event.value)], dropped);
      } else {
        OnlyAnswersMatter(query, rest, start, timeout, heard, dropped);
      }
    }
  }

  /** What a query reports depends on nothing but the messages that carry its own query id. */
  lemma OtherQueriesNeverMatter(query: string, some: seq<Message>, others: seq<Message>, start: nat, timeout: nat,
                                session: string)
    requires MessagesInOrder(some) && MessagesInOrder(others) && AnswersTo(query, some) == AnswersTo(query, others)
    ensures QueryOutcome(Gather(query, some, start, timeout, [], 0), session) ==
            QueryOutcome(Gather(query, others, start, timeout, [], 0), session)
  {
    OnlyAnswersMatter(query, some, start, timeout, [], 0);
    OnlyAnswersMatter(query, others, start, timeout, [], 0);
  }

  ghost predicate ConcludesInTime(query: string, m: Message, start: nat, timeout: nat)
  {
    && m.queryId == Some(query) && m.event.Some?
    && m.event.value.kind in {QueryComplete, PolicyDenied, QueryTimeout}
    && (m.at <= start || m.at < start + timeout)
  }

  /** A query concludes exactly when a concluding answer comes in time, and it gathers nothing after the first. */
  lemma {:induction false} GathersUpToTheConclusion(query: string, messages: seq<Message>, start: nat, timeout: nat,
                                                    heard: seq<Heard>, dropped: nat)
    requires MessagesInOrder(messages) && forall h <- heard :: !Concludes(h.event)
    ensures var g := Gather(query, messages, start, timeout, heard, dropped);
      && (g.Some? <==> exists m <- messages :: ConcludesInTime(query, m, start, timeout))
      && (g.Some? ==>
            && |g.value.heard| > |heard| && heard <= g.value.heard
            && forall i :: 0 <= i < |g.value.heard| ==>
                 (Concludes(g.value.heard[i].event) <==> i == |g.value.heard| - 1))
    decreases |messages|
  {
    hide MediaOf, Events;
    if messages != [] && !TooLate(messages[0], start, timeout) {
      var m, rest := messages[0], messages[1..];
      assert messages == [m] + rest;
      if !Answers(query, m) {
        GathersUpToTheConclusion(query, rest, start, timeout, heard, dropped);
      } else if !FitsBudget(MediaOf(Events(heard)), m.event.value) {
        GathersUpToTheConclusion(query, rest, start, timeout, heard, dropped + 1);
      } else if Concludes(m.event.value) {
        assert ConcludesInTime(query, m, start, timeout);
      } else {
        GathersUpToTheConclusion(query, rest, start, timeout, heard + [Heard(m.at, m.event.value)], dropped);
      }
    } else if messages != [] {
      forall m <- messages ensures TooLate(m, start, timeout) {
        var i :| 0 <= i < |messages| && messages[i] == m;
      }
    }
  }

  /** Every event a query goes by carried its own id. */
  lemma {:induction false} GathersOnlyItsOwn(query: string, messages: seq<Message>, start: nat, timeout: nat,
                                             heard: seq<Heard>, dropped: nat, i: nat)
    requires var g := Gather(query, messages, start, timeout, heard, dropped);
      g.Some? && |heard| <= i < |g.value.heard|
    ensures var kept := Gather(query, messages, start, timeout, heard, dropped).value.heard[i];
      exists m <- messages :: m.queryId == Some(query) && m.event == Some(kept.event) && m.at == kept.at
    decreases |messages|
  {
    hide FitsBudget, MediaOf, Events, TooLate;
    var m, rest := messages[0], messages[1..];
    assert messages == [m] + rest;
    if !Answers(query, m) {
      GathersOnlyItsOwn(query, rest, start, timeout, heard, dropped, i);
    } else if !FitsBudget(MediaOf(Events(heard)), m.event.value) {
      GathersOnlyItsOwn(query, rest, start, timeout, heard, dropped + 1, i);
    } else if !Concludes(m.event.value) {
      GathersKeepTheFirst(query, rest, start, timeout, heard + [Heard(m.at, m.event.value)], dropped);
      if i > |heard| {
        GathersOnlyItsOwn(query, rest, start, timeout, heard + [Heard(m.at, m.event.value)], dropped, i);
      }
    }
  }

  lemma {:induction false} GathersKeepTheFirst(query: string, messages: seq<Message>, start: nat, timeout: nat,
                                               heard: seq<Heard>, dropped: nat)
    ensures var g := Gather(query, messages, start, timeout, heard, dropped);
      g.Some? ==> |heard| <= |g.value.heard| && g.value.heard[..|heard|] == heard
    decreases |messages|
  {
    hide FitsBudget, MediaOf, Events, TooLate;
    if messages != [] {
      var m, rest := messages[0], messages[1..];
      GathersKeepTheFirst(query, rest, start, timeout, heard, dropped);
      GathersKeepTheFirst(query, rest, start, timeout, heard, dropped + 1);
      if Answers(query, m) {
        GathersKeepTheFirst(query, rest, start, timeout, heard + [Heard(m.at, m.event.value)], dropped);
      }
    }
  }

  /**
   * A query times out, whatever it heard, exactly when nothing concluded it in time. Otherwise it replies exactly
   * when something was said, `ok` when the hub said it was complete, and without words it names the hard failure
   * that concluded it, or the last soft one, or says that there was no reply.
   */
  lemma QueryOutcomeFollowsFromTheConclusion(query: string, messages: seq<Message>, start: nat, timeout: nat,
                                             session: string)
    requires MessagesInOrder(messages)
    ensures var g := Gather(query, messages, start, timeout, [], 0);
      var r := QueryOutcome(g, session);
      && (r == Err(QueryTimedOut) <==> forall m <- messages :: !ConcludesInTime(query, m, start, timeout))
      && (g.Some? ==>
            var heard := g.value.heard;
            && heard != [] && heard[|heard| - 1].event.kind in {QueryComplete, PolicyDenied, QueryTimeout}
            && (r.Ok? <==> exists i :: 0 <= i < |heard| && WasSaid(heard[i].event))
            && (r.Ok? ==> RepliesWith(r.value, heard, g.value.dropped, Some(session)))
            && (r.Err? ==> QueryFailsWith(r.error, heard)))
  {
    hide First, Normalize, Spoken, Collapse, Fragments, FirstSession, Join, LastSoft, TooLate, Says, WasSaid, Gather;
    GathersUpToTheConclusion(query, messages, start, timeout, [], 0);
    var g := Gather(query, messages, start, timeout, [], 0);
    if g.Some? {
      WordsWereHeard(g.value.heard);
      FragmentsAreTheWordsSaid(g.value.heard);
      LastSoftHasAPlace(g.value.heard);
      ConclusionsComeLast(g.value.heard);
    }
  }

  ghost predicate QueryFailsWith(error: QueryFailure, heard: seq<Heard>)
    requires heard != []
  {
    if heard[|heard| - 1].event.kind != QueryComplete then error == Failed(heard[|heard| - 1].event.kind)
    else if HeardOneOf(heard, {IntentFailure, IntentUnmatched}) then
      exists i :: IsLastSoft(heard, i) && error == Failed(heard[i].event.kind)
    else error == NoReply
  }

  lemma ConclusionsComeLast(heard: seq<Heard>)
    requires heard != []
    requires forall i :: 0 <= i < |heard| ==> (Concludes(heard[i].event) <==> i == |heard| - 1)
    ensures HeardOneOf(heard, {PolicyDenied, QueryTimeout}) <==> FailedHard(heard)
    ensures FailedHard(heard) || heard[|heard| - 1].event.kind == QueryComplete
  {}
}
