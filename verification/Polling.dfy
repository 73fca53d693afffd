/**
 * The two waits of the control plane that poll until something is decided (src/control.rs): a device sign-in, and
 * the admission of a new connection. Times are in milliseconds. A wait is described by the polls it makes, each with
 * its answer and the time that passes around it; a run that is out of polls is one that is still waiting.
 */
module Polling {
  import opened Wrappers
  import opened Numbers
  import opened Json
  import opened Text

  const DEVICE_SLOW_DOWN: nat := 5000

  function Sum(waits: seq<nat>): nat
  {
    if waits == [] then 0 else waits[0] + Sum(waits[1..])
  }

  /** The least number of intervals that make up a span. */
  function Intervals(span: nat, interval: nat): nat
    requires interval > 0
  {
    (span + interval - 1) / interval
  }

  lemma FewerThanIntervals(n: nat, span: nat, interval: nat)
    requires interval > 0 && (n - 1) * interval < span
    ensures n <= Intervals(span, interval)
  {
    var q := Intervals(span, interval);
    assert q * interval >= span by {
      assert span + interval - 1 == q * interval + (span + interval - 1) % interval;
    }
    if q < n {
      MoreTimes(q, n - 1, interval);
    }
  }

  lemma MoreTimes(a: nat, b: nat, c: nat)
    requires a <= b
    ensures a * c <= b * c
  {}

  // ---------------------------------------------------------------------------------------------
  // One device token request
  // ---------------------------------------------------------------------------------------------

  /** What came back: nothing, or a status with a body and what the body parses to. */
  datatype Answer =
    | Nothing
    | Answer(status: nat, text: string, parsed: Option<Json>)

  datatype LoginError =
    | LoginPending(interval: nat)
    | LoginDenied
    | LoginExpired
    | AuthorizationDenied
    | AuthorizationExpired
    | LoginTimeout
    | EmptyToken
    | TokenIsNoJson
    | ApiResponse(status: nat)
    | Unreachable

  predicate IsSuccess(status: nat)
  {
    200 <= status < 300
  }

  /** The `error` a body names. */
  function ErrorOf(parsed: Option<Json>): Option<string>
  {
    if parsed.Some? && parsed.value.Object? && "error" in parsed.value.fields && parsed.value.fields["error"].String?
    then Some(parsed.value.fields["error"].text) else None
  }

  /** One request for the token. A pending answer carries the interval to wait, longer after a `slow_down`. */
  function DeviceTokenOnce(answer: Answer, interval: nat): Result<Json, LoginError>
  {
    match answer
    case Nothing => Err(Unreachable)
    case Answer(status, text, parsed) =>
      if IsSuccess(status) then
        if IsBlank(text) then Err(EmptyToken)
        else if parsed.None? then Err(TokenIsNoJson)
        else Ok(parsed.value)
      else
        var error := if status == 400 then ErrorOf(parsed) else None;
        if error == Some("authorization_pending") then Err(LoginPending(interval))
        else if error == Some("slow_down") then Err(LoginPending(interval + DEVICE_SLOW_DOWN))
        else if error == Some("access_denied") then Err(LoginDenied)
        else if error == Some("expired_token") then Err(LoginExpired)
        else Err(ApiResponse(status))
  }

  predicate Asks(answer: Answer, error: string)
  {
    && answer.Answer? && answer.status == 400 && answer.parsed.Some? && answer.parsed.value.Object?
    && "error" in answer.parsed.value.fields && answer.parsed.value.fields["error"] == String(error)
  }

  /** The server wants the device to go on polling. */
  predicate GoesOn(answer: Answer)
  {
    Asks(answer, "authorization_pending") || Asks(answer, "slow_down")
  }

  lemma PendingMeansGoOn(answer: Answer, interval: nat)
    ensures var r := DeviceTokenOnce(answer, interval); r.Err? && r.error.LoginPending? <==> GoesOn(answer)
    ensures GoesOn(answer) ==> DeviceTokenOnce(answer, interval).error ==
                               LoginPending(interval + if Asks(answer, "slow_down") then DEVICE_SLOW_DOWN else 0)
    ensures !GoesOn(answer) ==> forall other :: DeviceTokenOnce(answer, other) == DeviceTokenOnce(answer, interval)
  {
    assert "authorization_pending" != "slow_down" by { assert |"slow_down"| == 9 && |"authorization_pending"| == 21; }
  }

  // ---------------------------------------------------------------------------------------------
  // Polling for the device token
  // ---------------------------------------------------------------------------------------------

  /** One poll: its answer, how long it took, and by how much the sleep after it overran. */
  datatype Exchange = Exchange(answer: Answer, took: nat, late: nat)

  /** How far a wait got: its result if it is over, the sleeps it took, and the time by then. */
  datatype Run<+R> = Run(result: Option<R>, sleeps: seq<nat>, end: nat)

  function After<R>(nap: nat, run: Run<R>): Run<R>
  {
    run.(sleeps := [nap] + run.sleeps)
  }

  /** What a deciding answer is to the caller of the wait. */
  function Decided(r: Result<Json, LoginError>): Result<Json, LoginError>
  {
    if r == Err(LoginDenied) then Err(AuthorizationDenied)
    else if r == Err(LoginExpired) then Err(AuthorizationExpired)
    else r
  }

  function PollDevice(exchanges: seq<Exchange>, wait: nat, timeout: nat, elapsed: nat): Run<Result<Json, LoginError>>
  {
    if exchanges == [] then Run(None, [], elapsed)
    else
      var x, rest := exchanges[0], exchanges[1..];
      var r, now := DeviceTokenOnce(x.answer, wait), elapsed + x.took;
      if r.Ok? || !r.error.LoginPending? then Run(Some(Decided(r)), [], now)
      else if now >= timeout then Run(Some(Err(LoginTimeout)), [], now)
      else
        var nap := Min(r.error.interval, timeout - now);
        After(nap, PollDevice(rest, r.error.interval, timeout, now + nap + x.late))
  }

  method PollDeviceToken(exchanges: seq<Exchange>, interval: nat, timeout: nat)
    returns (run: Run<Result<Json, LoginError>>)
    ensures run == PollDevice(exchanges, interval, timeout, 0)
  {
    hide DeviceTokenOnce;
    var wait, elapsed: nat, sleeps: seq<nat> := interval, 0, [];
    assert exchanges[0..] == exchanges;
    for i := 0 to |exchanges|
      invariant PollDevice(exchanges, interval, timeout, 0) ==
                Slept(sleeps, PollDevice(exchanges[i..], wait, timeout, elapsed))
    {
      assert exchanges[i..][1..] == exchanges[i + 1..];
      var x := exchanges[i];
      elapsed := elapsed + x.took;
      match DeviceTokenOnce(x.answer, wait) {
        case Ok(token) => return Run(Some(Ok(token)), sleeps, elapsed);
        case Err(LoginPending(next)) => wait := next;
        case Err(LoginDenied) => return Run(Some(Err(AuthorizationDenied)), sleeps, elapsed);
        case Err(LoginExpired) => return Run(Some(Err(AuthorizationExpired)), sleeps, elapsed);
        case Err(error) => return Run(Some(Err(error)), sleeps, elapsed);
      }
      var remaining := if elapsed < timeout then timeout - elapsed else 0;
      if remaining == 0 {
        return Run(Some(Err(LoginTimeout)), sleeps, elapsed);
      }
      var nap := Min(wait, remaining);
      elapsed := elapsed + nap + x.late;
      SleptOneMore(sleeps, nap, PollDevice(exchanges[i + 1..], wait, timeout, elapsed));
      sleeps := sleeps + [nap];
    }
    run := Run(None, sleeps, elapsed);
  }

  function Slept<R>(sleeps: seq<nat>, run: Run<R>): Run<R>
  {
    run.(sleeps := sleeps + run.sleeps)
  }

  lemma SleptOneMore<R>(sleeps: seq<nat>, nap: nat, run: Run<R>)
    ensures Slept(sleeps, After(nap, run)) == Slept(sleeps + [nap], run)
  {
    assert sleeps + ([nap] + run.sleeps) == sleeps + [nap] + run.sleeps;
  }

  /** The sleeps of a device sign-in never add up to more than its timeout. */
  lemma {:induction false} SleepsFitTheTimeout(exchanges: seq<Exchange>, wait: nat, timeout: nat, elapsed: nat)
    requires elapsed <= timeout
    ensures Sum(PollDevice(exchanges, wait, timeout, elapsed).sleeps) <= timeout - elapsed
    decreases |exchanges|
  {
    hide DeviceTokenOnce;
    if exchanges != [] {
      var x, rest := exchanges[0], exchanges[1..];
      var r, now := DeviceTokenOnce(x.answer, wait), elapsed + x.took;
      if r.Err? && r.error.LoginPending? && now < timeout {
        var nap := Min(r.error.interval, timeout - now);
        if now + nap + x.late <= timeout {
          SleepsFitTheTimeout(rest, r.error.interval, timeout, now + nap + x.late);
        } else {
          LateSleepsNoMore(rest, r.error.interval, timeout, now + nap + x.late);
        }
      }
    }
  }

  lemma LateSleepsNoMore(exchanges: seq<Exchange>, wait: nat, timeout: nat, elapsed: nat)
    requires timeout <= elapsed
    ensures PollDevice(exchanges, wait, timeout, elapsed).sleeps == []
    ensures exchanges != [] ==> PollDevice(exchanges, wait, timeout, elapsed).result.Some?
  {
    hide DeviceTokenOnce;
  }

  lemma {:induction false} DeviceSleepsAreFew(exchanges: seq<Exchange>, wait: nat, timeout: nat, elapsed: nat,
                                              interval: nat)
    requires 0 < interval <= wait && elapsed < timeout
    ensures (|PollDevice(exchanges, wait, timeout, elapsed).sleeps| - 1) * interval < timeout - elapsed
    decreases |exchanges|
  {
    hide DeviceTokenOnce;
    if exchanges != [] {
      var x, rest := exchanges[0], exchanges[1..];
      var r, now := DeviceTokenOnce(x.answer, wait), elapsed + x.took;
      if r.Err? && r.error.LoginPending? && now < timeout {
        PendingMeansGoOn(x.answer, wait);
        var next := r.error.interval;
        var nap := Min(next, timeout - now);
        if now + nap + x.late < timeout {
          DeviceSleepsAreFew(rest, next, timeout, now + nap + x.late, interval);
          var n := |PollDevice(rest, next, timeout, now + nap + x.late).sleeps|;
          assert n * interval == (n - 1) * interval + interval;
        } else {
          LateSleepsNoMore(rest, next, timeout, now + nap + x.late);
        }
      }
    }
  }

  function SlowDowns(exchanges: seq<Exchange>): nat
  {
    if exchanges == [] then 0
    else (if Asks(exchanges[0].answer, "slow_down") then 1 else 0) + SlowDowns(exchanges[1..])
  }

  /** What a run of the wait looks like, from the answers it got. */
  ghost predicate FollowsTheAnswers(exchanges: seq<Exchange>, wait: nat, timeout: nat,
                                    run: Run<Result<Json, LoginError>>)
  {
    var n := |run.sleeps|;
    && n <= |exchanges|
    && (forall i :: 0 <= i < n ==> GoesOn(exchanges[i].answer))
    && (forall i :: 0 <= i < n - 1 ==> run.sleeps[i] == wait + 5000 * SlowDowns(exchanges[..i + 1]))
    && (n > 0 ==> run.sleeps[n - 1] <= wait + 5000 * SlowDowns(exchanges[..n]))
    && match run.result
       case None => n == |exchanges|
       case Some(r) =>
         n < |exchanges| &&
         if GoesOn(exchanges[n].answer) then r == Err(LoginTimeout) && run.end >= timeout
         else r == Decided(DeviceTokenOnce(exchanges[n].answer, 0))
  }

  lemma {:induction false} PollingFollowsTheAnswers(exchanges: seq<Exchange>, wait: nat, timeout: nat, elapsed: nat)
    ensures FollowsTheAnswers(exchanges, wait, timeout, PollDevice(exchanges, wait, timeout, elapsed))
    decreases |exchanges|
  {
    hide DeviceTokenOnce, Asks, GoesOn, FollowsTheAnswers;
    if exchanges == [] || !GoesOn(exchanges[0].answer) || elapsed + exchanges[0].took >= timeout {
      FollowsWithoutSleep(exchanges, wait, timeout, elapsed);
    } else {
      var x, rest := exchanges[0], exchanges[1..];
      PendingMeansGoOn(x.answer, wait);
      var next, now := DeviceTokenOnce(x.answer, wait).error.interval, elapsed + x.took;
      var nap := Min(next, timeout - now);
      PollingFollowsTheAnswers(rest, next, timeout, now + nap + x.late);
      if now + nap + x.late >= timeout {
        LateSleepsNoMore(rest, next, timeout, now + nap + x.late);
      }
      FollowsOneMore(exchanges, wait, timeout, nap, PollDevice(rest, next, timeout, now + nap + x.late));
    }
  }

  lemma FollowsWithoutSleep(exchanges: seq<Exchange>, wait: nat, timeout: nat, elapsed: nat)
    requires exchanges == [] || !GoesOn(exchanges[0].answer) || elapsed + exchanges[0].took >= timeout
    ensures FollowsTheAnswers(exchanges, wait, timeout, PollDevice(exchanges, wait, timeout, elapsed))
  {
    hide DeviceTokenOnce, Asks, GoesOn;
    if exchanges != [] {
      PendingMeansGoOn(exchanges[0].answer, wait);
      PendingMeansGoOn(exchanges[0].answer, 0);
    }
  }

  lemma FollowsOneMore(exchanges: seq<Exchange>, wait: nat, timeout: nat, nap: nat,
                       after: Run<Result<Json, LoginError>>)
    requires exchanges != [] && GoesOn(exchanges[0].answer)
    requires var next := wait + if Asks(exchanges[0].answer, "slow_down") then DEVICE_SLOW_DOWN else 0;
      && FollowsTheAnswers(exchanges[1..], next, timeout, after)
      && nap <= next && (after.sleeps != [] ==> nap == next)
    ensures FollowsTheAnswers(exchanges, wait, timeout, After(nap, after))
  {
    hide DeviceTokenOnce, Asks, Decided, GoesOn;
    var run, n := After(nap, after), |after.sleeps| + 1;
    forall i | 0 <= i < n
      ensures GoesOn(exchanges[i].answer)
      ensures SlowDowns(exchanges[..i + 1]) ==
              (if Asks(exchanges[0].answer, "slow_down") then 1 else 0) + SlowDowns(exchanges[1..][..i])
      ensures i > 0 ==> run.sleeps[i] == after.sleeps[i - 1]
    {
      assert exchanges[..i + 1][1..] == exchanges[1..][..i];
      assert i > 0 ==> exchanges[i] == exchanges[1..][i - 1];
    }
    assert SlowDowns(exchanges[1..][..0]) == 0;
  }

  /**
   * A device sign-in follows its answers: it polls on while it is told to, each full sleep is the first interval and
   * five seconds for every `slow_down` so far, only the last sleep is cut short by the timeout, and the first other
   * answer decides it. Its sleeps fit the timeout, and with a positive interval it has ended after as many polls as
   * there are intervals in the timeout, and one.
   */
  lemma DeviceSignInEnds(exchanges: seq<Exchange>, interval: nat, timeout: nat)
    ensures var run := PollDevice(exchanges, interval, timeout, 0);
      && FollowsTheAnswers(exchanges, interval, timeout, run)
      && Sum(run.sleeps) <= timeout
      && (interval > 0 ==>
            && |run.sleeps| <= Intervals(timeout, interval)
            && (|exchanges| > Intervals(timeout, interval) ==> run.result.Some?))
  {
    hide Intervals;
    var run := PollDevice(exchanges, interval, timeout, 0);
    PollingFollowsTheAnswers(exchanges, interval, timeout, 0);
    SleepsFitTheTimeout(exchanges, interval, timeout, 0);
    if interval > 0 {
      if timeout > 0 {
        DeviceSleepsAreFew(exchanges, interval, timeout, 0, interval);
        FewerThanIntervals(|run.sleeps|, timeout, interval);
      } else {
        LateSleepsNoMore(exchanges, interval, timeout, 0);
      }
    }
  }

  /**
   * What a sign-in that is over, and did not time out, comes to, told by the answer that ended it: a token from a
   * success with a body that is JSON, the person's refusal, the code's expiry, or another failure.
   */
  lemma SignInTellsAnswersApart(exchanges: seq<Exchange>, interval: nat, timeout: nat)
    ensures var run := PollDevice(exchanges, interval, timeout, 0);
      run.result.Some? && run.result.value != Err(LoginTimeout) ==>
        && |run.sleeps| < |exchanges|
        && EndsSignIn(exchanges[|run.sleeps|].answer, run.result.value)
  {
    hide PollDevice, DeviceTokenOnce, GoesOn, EndsSignIn;
    var run := PollDevice(exchanges, interval, timeout, 0);
    PollingFollowsTheAnswers(exchanges, interval, timeout, 0);
    if run.result.Some? && run.result.value != Err(LoginTimeout) {
      AnswersEndSignIns(exchanges[|run.sleeps|].answer);
    }
  }

  predicate EndsSignIn(answer: Answer, result: Result<Json, LoginError>)
  {
    match answer
    case Nothing => result == Err(Unreachable)
    case Answer(status, text, parsed) =>
      if 200 <= status < 300 then
        result == if IsBlank(text) then Err(EmptyToken)
                  else if parsed.Some? then Ok(parsed.value)
                  else Err(TokenIsNoJson)
      else
        && !GoesOn(answer)
        && result == if Asks(answer, "access_denied") then Err(AuthorizationDenied)
                     else if Asks(answer, "expired_token") then Err(AuthorizationExpired)
                     else Err(ApiResponse(status))
  }

  lemma AnswersEndSignIns(answer: Answer)
    requires !GoesOn(answer)
    ensures EndsSignIn(answer, Decided(DeviceTokenOnce(answer, 0)))
  {
    hide IsBlank;
    assert "access_denied"[0] != "expired_token"[0] && "access_denied"[1] != "authorization_pending"[1];
    assert "slow_down"[0] != "access_denied"[0] && "slow_down"[0] != "expired_token"[0];
    assert "expired_token"[0] != "authorization_pending"[0];
  }

  // ---------------------------------------------------------------------------------------------
  // Waiting for an admission
  // ---------------------------------------------------------------------------------------------

  /** What a read of the operation gives: its state, a refusal with the wait it asks for, or no answer at all. */
  datatype Reading =
    | Operation(state: Option<string>, errorCode: Option<string>, message: Option<string>)
    | Refusal(status: nat, asked: Option<nat>)
    | NoAnswer

  datatype WaitError =
    | IntervalIsZero
    | PointsElsewhere
    | NoOperationId
    | AdmissionFailed(errorCode: Option<string>, status: Option<nat>, said: string)
    | AdmissionTimeout
    | Passed(reading: Reading)

  /** One poll: what it read, how long that took, the time spent on it, and by how much the sleep after it overran. */
  datatype Poll = Poll(reading: Reading, took: nat, handling: nat, late: nat)

  datatype Verdict =
    | Over(result: Result<(), WaitError>)
    | RideOut(wait: nat)

  function OneBoundedLine(text: string): (r: string)
    ensures |r| <= 203
  {
    var line := Normalize(text);
    if |line| > 200 then line[..200] + "..." else line
  }

  function NonEmpty(text: Option<string>): Option<string>
  {
    if text == Some([]) then None else text
  }

  /** What a failed operation said: its message, else its code, else nothing. */
  function Said(errorCode: Option<string>, message: Option<string>): string
  {
    var line := if message.Some? then OneBoundedLine(message.value) else [];
    if line != [] then line
    else if NonEmpty(errorCode).Some? then errorCode.value
    else "no detail"
  }

  predicate Decides(state: Option<string>)
  {
    state == Some("failed") || state == Some("timed_out")
  }

  function Judge(reading: Reading, interval: nat): Verdict
  {
    match reading
    case Operation(state, errorCode, message) =>
      if state == Some("ready") then Over(Ok(()))
      else if Decides(state) then Over(Err(AdmissionFailed(NonEmpty(errorCode), None, Said(errorCode, message))))
      else RideOut(interval)
    case Refusal(status, asked) =>
      if status == 404 then Over(Ok(()))
      else if status == 401 || status == 403 then Over(Err(Passed(reading)))
      else if status == 429 then RideOut(Max(interval, if asked.Some? then asked.value else 0))
      else if status >= 500 then RideOut(interval)
      else Over(Err(AdmissionFailed(None, Some(status), [])))
    case NoAnswer => Over(Err(Passed(reading)))
  }

  predicate IsRateLimit(reading: Reading)
  {
    reading.Refusal? && reading.status == 429
  }

  /** What one poll leads to: the end of the wait, or a sleep and the time after it. */
  datatype Turn =
    | Ends(result: Result<(), WaitError>, end: nat)
    | Sleeps(nap: nat, next: nat)

  function TurnOf(p: Poll, deadline: nat, interval: nat, now: nat): Turn
  {
    var read := now + p.took;
    if read >= deadline then Ends(Err(AdmissionTimeout), Max(now, deadline))
    else
      match Judge(p.reading, interval)
      case Over(result) => Ends(result, read)
      case RideOut(wait) =>
        var handled := read + p.handling;
        if IsRateLimit(p.reading) && wait > deadline - read then Ends(Err(AdmissionTimeout), read)
        else if handled >= deadline then Ends(Err(AdmissionTimeout), handled)
        else
          var nap := Min(wait, deadline - handled);
          Sleeps(nap, handled + nap + p.late)
  }

  function Admit(polls: seq<Poll>, deadline: nat, interval: nat, now: nat): Run<Result<(), WaitError>>
  {
    if polls == [] then Run(None, [], now)
    else
      match TurnOf(polls[0], deadline, interval, now)
      case Ends(result, end) => Run(Some(result), [], end)
      case Sleeps(nap, next) => After(nap, Admit(polls[1..], deadline, interval, next))
  }

  /** What is known of the operation to wait on: whether its link leads elsewhere, and its id when it has one. */
  datatype Target = Target(elsewhere: bool, id: Option<string>)

  function WaitOn(target: Option<Target>, polls: seq<Poll>, start: nat, timeout: nat, interval: nat)
    : Run<Result<(), WaitError>>
  {
    if target.None? then Run(Some(Ok(())), [], start)
    else if interval == 0 then Run(Some(Err(IntervalIsZero)), [], start)
    else if target.value.elsewhere then Run(Some(Err(PointsElsewhere)), [], start)
    else if target.value.id.None? then Run(Some(Err(NoOperationId)), [], start)
    else Admit(polls, start + timeout, interval, start)
  }

  /** What one reading means for the wait. */
  method JudgeReading(reading: Reading, interval: nat) returns (verdict: Verdict)
    ensures verdict == Judge(reading, interval)
  {
    hide Said;
    match reading {
      case Operation(state, errorCode, message) =>
        if state == Some("ready") {
          return Over(Ok(()));
        }
        if Decides(state) {
          return Over(Err(AdmissionFailed(NonEmpty(errorCode), None, Said(errorCode, message))));
        }
      case Refusal(status, asked) =>
        if status == 404 {
          return Over(Ok(()));
        }
        if status == 401 || status == 403 {
          return Over(Err(Passed(reading)));
        }
        if status == 429 {
          return RideOut(Max(interval, if asked.Some? then asked.value else 0));
        }
        if status < 500 {
          return Over(Err(AdmissionFailed(None, Some(status), [])));
        }
      case NoAnswer => return Over(Err(Passed(reading)));
    }
    verdict := RideOut(interval);
  }

  method WaitForAdmission(target: Option<Target>, polls: seq<Poll>, start: nat, timeout: nat, interval: nat)
    returns (run: Run<Result<(), WaitError>>)
    ensures run == WaitOn(target, polls, start, timeout, interval)
  {
    hide Judge, IsRateLimit;
    if target.None? {
      return Run(Some(Ok(())), [], start);
    }
    if interval == 0 {
      return Run(Some(Err(IntervalIsZero)), [], start);
    }
    if target.value.elsewhere {
      return Run(Some(Err(PointsElsewhere)), [], start);
    }
    if target.value.id.None? {
      return Run(Some(Err(NoOperationId)), [], start);
    }
    hide TurnOf;
    var deadline: nat, now: nat, sleeps: seq<nat> := start + timeout, start, [];
    assert polls[0..] == polls;
    for i := 0 to |polls|
      invariant WaitOn(target, polls, start, timeout, interval) ==
                Slept(sleeps, Admit(polls[i..], deadline, interval, now))
    {
      assert polls[i..][1..] == polls[i + 1..];
      var turn := TakeTurn(polls[i], deadline, interval, now);
      if turn.Ends? {
        return Run(Some(turn.result), sleeps, turn.end);
      }
      now := turn.next;
      SleptOneMore(sleeps, turn.nap, Admit(polls[i + 1..], deadline, interval, now));
      sleeps := sleeps + [turn.nap];
    }
    run := Run(None, sleeps, now);
  }

  /** One poll, and the sleep after it. */
  method TakeTurn(p: Poll, deadline: nat, interval: nat, start: nat) returns (turn: Turn)
    ensures turn == TurnOf(p, deadline, interval, start)
  {
    hide Judge, IsRateLimit;
    if start + p.took >= deadline {
      return Ends(Err(AdmissionTimeout), Max(start, deadline));
    }
    var now := start + p.took;
    var verdict := JudgeReading(p.reading, interval);
    if verdict.Over? {
      return Ends(verdict.result, now);
    }
    if IsRateLimit(p.reading) && verdict.wait > deadline - now {
      return Ends(Err(AdmissionTimeout), now);
    }
    now := now + p.handling;
    if now >= deadline {
      return Ends(Err(AdmissionTimeout), now);
    }
    var nap := Min(verdict.wait, deadline - now);
    turn := Sleeps(nap, now + nap + p.late);
  }

  // ---------------------------------------------------------------------------------------------
  // What the wait may count on
  // ---------------------------------------------------------------------------------------------

  lemma PastTheDeadline(polls: seq<Poll>, deadline: nat, interval: nat, now: nat)
    requires deadline <= now
    ensures Admit(polls, deadline, interval, now).sleeps == [] && Admit(polls, deadline, interval, now).end == now
    ensures polls != [] ==> Admit(polls, deadline, interval, now).result == Some(Err(AdmissionTimeout))
  {
    hide Judge;
  }

  /** No reading is itself a timeout. */
  lemma NoReadingTimesOut(reading: Reading, interval: nat)
    ensures Judge(reading, interval) != Over(Err(AdmissionTimeout))
  {
    hide Said;
  }

  lemma {:induction false} AdmissionSleepsAreFew(polls: seq<Poll>, deadline: nat, interval: nat, now: nat)
    requires 0 < interval && now < deadline
    ensures (|Admit(polls, deadline, interval, now).sleeps| - 1) * interval < deadline - now
    decreases |polls|
  {
    hide Judge, IsRateLimit;
    if polls != [] {
      var p, rest := polls[0], polls[1..];
      if Judge(p.reading, interval).RideOut? {
        RidingOutTakesItsTime(p.reading, interval);
      }
      var verdict, handled := Judge(p.reading, interval), now + p.took + p.handling;
      if verdict.RideOut? && handled < deadline {
        var next := handled + Min(verdict.wait, deadline - handled) + p.late;
        if next < deadline {
          AdmissionSleepsAreFew(rest, deadline, interval, next);
          var n := |Admit(rest, deadline, interval, next).sleeps|;
          assert n * interval == (n - 1) * interval + interval;
        } else {
          PastTheDeadline(rest, deadline, interval, next);
        }
      }
    }
  }

  /** No poll and no sleep takes more than `slack` longer than it was given. */
  ghost predicate Prompt(polls: seq<Poll>, slack: nat)
  {
    forall p <- polls :: p.handling + p.late <= slack
  }

  lemma {:induction false} AdmissionEndsInTime(polls: seq<Poll>, deadline: nat, interval: nat, now: nat, slack: nat)
    requires Prompt(polls, slack)
    ensures now <= Admit(polls, deadline, interval, now).end <= Max(now, deadline + slack)
    decreases |polls|
  {
    hide Judge, IsRateLimit;
    if polls != [] {
      var p, rest := polls[0], polls[1..];
      var verdict, handled := Judge(p.reading, interval), now + p.took + p.handling;
      assert Prompt(rest, slack);
      if verdict.RideOut? && handled < deadline {
        AdmissionEndsInTime(rest, deadline, interval, handled + Min(verdict.wait, deadline - handled) + p.late, slack);
      }
    }
  }

  /** What a run of the wait looks like, from what it read. */
  ghost predicate FollowsTheReadings(polls: seq<Poll>, deadline: nat, interval: nat, run: Run<Result<(), WaitError>>)
  {
    var n := |run.sleeps|;
    && n <= |polls|
    && (forall i :: 0 <= i < n ==> Judge(polls[i].reading, interval).RideOut?)
    && (forall i :: 0 <= i < n - 1 ==> run.sleeps[i] == Judge(polls[i].reading, interval).wait)
    && (n > 0 && run.end < deadline ==> run.sleeps[n - 1] == Judge(polls[n - 1].reading, interval).wait)
    && match run.result
       case None => n == |polls|
       case Some(r) =>
         n < |polls| &&
         if r == Err(AdmissionTimeout) then
           || run.end >= deadline
           || (IsRateLimit(polls[n].reading) && run.end + Judge(polls[n].reading, interval).wait > deadline)
         else Judge(polls[n].reading, interval) == Over(r) && run.end < deadline
  }

  lemma {:induction false} AdmissionFollowsTheReadings(polls: seq<Poll>, deadline: nat, interval: nat, now: nat)
    ensures FollowsTheReadings(polls, deadline, interval, Admit(polls, deadline, interval, now))
    decreases |polls|
  {
    hide Judge, IsRateLimit, FollowsTheReadings;
    if polls == [] || Judge(polls[0].reading, interval).Over? || now + polls[0].took + polls[0].handling >= deadline
       || (IsRateLimit(polls[0].reading) && Judge(polls[0].reading, interval).wait > deadline - (now + polls[0].took)) {
      FollowsAtOnce(polls, deadline, interval, now);
    } else {
      var p, rest := polls[0], polls[1..];
      var wait, handled := Judge(p.reading, interval).wait, now + p.took + p.handling;
      var nap := Min(wait, deadline - handled);
      var next := handled + nap + p.late;
      AdmissionFollowsTheReadings(rest, deadline, interval, next);
      if next >= deadline {
        PastTheDeadline(rest, deadline, interval, next);
      }
      FollowsOneMoreReading(polls, deadline, interval, nap, Admit(rest, deadline, interval, next));
    }
  }

  lemma FollowsAtOnce(polls: seq<Poll>, deadline: nat, interval: nat, now: nat)
    requires Admit(polls, deadline, interval, now).sleeps == []
    ensures FollowsTheReadings(polls, deadline, interval, Admit(polls, deadline, interval, now))
  {
    hide IsRateLimit;
    if polls != [] {
      NoReadingTimesOut(polls[0].reading, interval);
    }
    hide Judge;
  }

  lemma FollowsOneMoreReading(polls: seq<Poll>, deadline: nat, interval: nat, nap: nat, after: Run<Result<(),
                              WaitError>>)
    requires polls != [] && Judge(polls[0].reading, interval).RideOut?
    requires FollowsTheReadings(polls[1..], deadline, interval, after)
    requires nap == Judge(polls[0].reading, interval).wait || (after.sleeps == [] && after.end >= deadline)
    ensures FollowsTheReadings(polls, deadline, interval, After(nap, after))
  {
    hide Judge, IsRateLimit;
    var run, n := After(nap, after), |after.sleeps| + 1;
    forall i | 0 < i < n
      ensures polls[i] == polls[1..][i - 1] && run.sleeps[i] == after.sleeps[i - 1]
    {}
  }

  /**
   * The wait for an admission ends by its deadline, give or take what a sleep overruns, and within as many polls as
   * there are intervals in its timeout, and one. It follows what it reads: it rides out unfinished operations, rate
   * limits and faults, sleeping the interval, or what a rate limit asked for when that is longer, cut short only by the
   * deadline; the first other reading is its result. It times out only at its deadline, or at once when a rate limit
   * asks for more than is left.
   */
  lemma AdmissionWaitEnds(polls: seq<Poll>, id: string, start: nat, timeout: nat, interval: nat, slack: nat)
    requires interval > 0 && Prompt(polls, slack)
    ensures var run := WaitOn(Some(Target(false, Some(id))), polls, start, timeout, interval);
      && run.end <= start + timeout + slack
      && |run.sleeps| <= Intervals(timeout, interval)
      && (|polls| > Intervals(timeout, interval) ==> run.result.Some?)
      && FollowsTheReadings(polls, start + timeout, interval, run)
  {
    hide Intervals, FollowsTheReadings, Admit;
    var deadline := start + timeout;
    var run := Admit(polls, deadline, interval, start);
    AdmissionFollowsTheReadings(polls, deadline, interval, start);
    RunsOutOfPolls(polls, deadline, interval, run);
    AdmissionEndsInTime(polls, deadline, interval, start, slack);
    if timeout > 0 {
      AdmissionSleepsAreFew(polls, deadline, interval, start);
      FewerThanIntervals(|run.sleeps|, timeout, interval);
    } else {
      PastTheDeadline(polls, deadline, interval, start);
    }
  }

  /** With nothing to wait for a wait is well over at once; with no interval, a link elsewhere or no id it fails. */
  lemma NothingIsPolledInVain(target: Option<Target>, polls: seq<Poll>, start: nat, timeout: nat, interval: nat)
    ensures var run := WaitOn(target, polls, start, timeout, interval);
      && (target.None? ==> run == Run(Some(Ok(())), [], start))
      && (target.Some? && interval == 0 ==> run == Run(Some(Err(IntervalIsZero)), [], start))
      && (target.Some? && interval > 0 && target.value.elsewhere ==> run == Run(Some(Err(PointsElsewhere)), [], start))
      && (target.Some? && interval > 0 && !target.value.elsewhere && target.value.id == None ==>
            run == Run(Some(Err(NoOperationId)), [], start))
  {
    hide Admit;
  }

  lemma RunsOutOfPolls(polls: seq<Poll>, deadline: nat, interval: nat, run: Run<Result<(), WaitError>>)
    requires FollowsTheReadings(polls, deadline, interval, run)
    ensures run.result.None? ==> |run.sleeps| == |polls|
  {}

  /**
   * What an admission wait comes to, told by what it read. It rides out operations that are neither ready nor failed,
   * rate limits and faults of the API, sleeping the interval each time, or what a rate limit asked for when that is
   * longer. A connection is admitted when its operation is ready or gone. A token that is refused and an API out of
   * reach are passed on as they are. A failed admission is what the operation itself said, or a refusal that waiting
   * cannot cure. It times out at its deadline, or before only when a rate limit asks for more than is left.
   */
  lemma AdmissionTellsReadingsApart(polls: seq<Poll>, id: string, start: nat, timeout: nat, interval: nat)
    requires interval > 0
    ensures var run := WaitOn(Some(Target(false, Some(id))), polls, start, timeout, interval);
      var n := |run.sleeps|;
      && n <= |polls|
      && (forall i :: 0 <= i < n ==> IsRiddenOut(polls[i].reading))
      && (forall i :: 0 <= i < n - 1 ==> run.sleeps[i] == SleepAfter(polls[i].reading, interval))
      && (run.result.Some? ==>
            && n < |polls|
            && if run.result.value == Err(AdmissionTimeout) then
                 || run.end >= start + timeout
                 || (&& polls[n].reading.Refusal? && polls[n].reading.status == 429
                     && run.end + SleepAfter(polls[n].reading, interval) > start + timeout)
               else run.end < start + timeout && EndsWait(polls[n].reading, run.result.value))
  {
    hide Judge, EndsWait, IsRiddenOut, SleepAfter, Admit;
    var run := Admit(polls, start + timeout, interval, start);
    var n := |run.sleeps|;
    AdmissionFollowsTheReadings(polls, start + timeout, interval, start);
    forall i | 0 <= i < n
      ensures IsRiddenOut(polls[i].reading)
      ensures Judge(polls[i].reading, interval).wait == SleepAfter(polls[i].reading, interval)
    {
      RidingOutTakesItsTime(polls[i].reading, interval);
    }
    if run.result.Some? {
      if run.result.value != Err(AdmissionTimeout) {
        VerdictsEndWaits(polls[n].reading, interval, run.result.value);
      } else if run.end < start + timeout {
        RateLimitsAreRiddenOut(polls[n].reading, interval);
        RidingOutTakesItsTime(polls[n].reading, interval);
      }
    }
  }

  predicate IsRiddenOut(reading: Reading)
  {
    || (reading.Operation? && reading.state !in {Some("ready"), Some("failed"), Some("timed_out")})
    || (reading.Refusal? && (reading.status == 429 || reading.status >= 500))
  }

  /** The interval, or what a rate limit asks for when that is longer. */
  function SleepAfter(reading: Reading, interval: nat): nat
  {
    if reading.Refusal? && reading.status == 429 && reading.asked.Some? && reading.asked.value > interval
    then reading.asked.value else interval
  }

  predicate EndsWait(reading: Reading, result: Result<(), WaitError>)
  {
    match reading
    case Operation(state, errorCode, message) =>
      && state in {Some("ready"), Some("failed"), Some("timed_out")}
      && (if state == Some("ready") then result == Ok(()) else IsOwnFailure(errorCode, message, result))
    case Refusal(status, _) =>
      if status == 404 then result == Ok(())
      else if status in {401, 403} then result == Err(Passed(reading))
      else status != 429 && status < 500 && result == Err(AdmissionFailed(None, Some(status), []))
    case NoAnswer => result == Err(Passed(reading))
  }

  /** A failure in the operation's own words: its message on one line, else its code, else that there is no detail. */
  predicate IsOwnFailure(errorCode: Option<string>, message: Option<string>, result: Result<(), WaitError>)
  {
    var code := if errorCode == Some("") then None else errorCode;
    var line := if message.Some? then Normalize(message.value) else "";
    var said := if line != "" then (if |line| <= 200 then line else line[..200] + "...")
                else if code.Some? then code.value else "no detail";
    result == Err(AdmissionFailed(code, None, said))
  }

  lemma RidingOutTakesItsTime(reading: Reading, interval: nat)
    requires Judge(reading, interval).RideOut?
    ensures Judge(reading, interval).wait == SleepAfter(reading, interval) >= interval
    ensures IsRiddenOut(reading)
  {}

  lemma RateLimitsAreRiddenOut(reading: Reading, interval: nat)
    requires IsRateLimit(reading)
    ensures reading.Refusal? && reading.status == 429 && Judge(reading, interval).RideOut?
  {}

  lemma VerdictsEndWaits(reading: Reading, interval: nat, result: Result<(), WaitError>)
    requires Judge(reading, interval) == Over(result)
    ensures EndsWait(reading, result)
  {
    hide Normalize;
    assert "ready"[0] != "failed"[0] && "ready"[0] != "timed_out"[0];
  }

  // ---------------------------------------------------------------------------------------------
  // When an admission wait polls
  // ---------------------------------------------------------------------------------------------

  /** When poll `i` is read, after the sleeps before it. */
  function ReadTime(polls: seq<Poll>, sleeps: seq<nat>, start: nat, i: nat): nat
    requires i < |polls| && i <= |sleeps|
  {
    if i == 0 then start + polls[0].took
    else
      ReadTime(polls, sleeps, start, i - 1) + polls[i - 1].handling + sleeps[i - 1] + polls[i - 1].late
      + polls[i].took
  }

  lemma {:induction false} ReadTimeLater(polls: seq<Poll>, sleeps: seq<nat>, start: nat, i: nat)
    requires 0 < i < |polls| && i <= |sleeps|
    ensures ReadTime(polls, sleeps, start, i) ==
            ReadTime(polls[1..], sleeps[1..], start + polls[0].took + polls[0].handling + sleeps[0] + polls[0].late,
                     i - 1)
  {
    if i > 1 {
      ReadTimeLater(polls, sleeps, start, i - 1);
    } else {
      assert ReadTime(polls, sleeps, start, 0) == start + polls[0].took;
    }
  }

  /** Sleep `i` is as long as its reading asks for, cut short by the deadline, and a rate limit asks for no more. */
  ghost predicate SleepsInTime(polls: seq<Poll>, sleeps: seq<nat>, start: nat, deadline: nat, interval: nat, i: nat)
    requires i < |polls| && i < |sleeps|
  {
    var read := ReadTime(polls, sleeps, start, i);
    && read + polls[i].handling < deadline
    && sleeps[i] == Min(SleepAfter(polls[i].reading, interval), deadline - (read + polls[i].handling))
    && (polls[i].reading.Refusal? && polls[i].reading.status == 429 ==>
          read + SleepAfter(polls[i].reading, interval) <= deadline)
  }

  /**
   * The wait, minute by minute: every sleep is as long as its reading asks for, only the deadline cuts it short, and a
   * rate limit that asks for more than is left is not slept out. What decides ends the wait when it is read.
   */
  lemma {:induction false} AdmissionSleepsExactly(polls: seq<Poll>, start: nat, deadline: nat, interval: nat)
    ensures var run := Admit(polls, deadline, interval, start);
      && |run.sleeps| <= |polls|
      && (forall i :: 0 <= i < |run.sleeps| ==> SleepsInTime(polls, run.sleeps, start, deadline, interval, i))
      && (run.result.Some? && run.result.value != Err(AdmissionTimeout) ==>
            |run.sleeps| < |polls| && run.end == ReadTime(polls, run.sleeps, start, |run.sleeps|))
    decreases |polls|
  {
    hide Judge, SleepAfter, TurnOf, SleepsInTime;
    if polls != [] {
      var run := Admit(polls, deadline, interval, start);
      var turn := TurnOf(polls[0], deadline, interval, start);
      TurnsAreInTime(polls, deadline, interval, start, run.sleeps);
      if turn.Sleeps? {
        AdmissionSleepsExactly(polls[1..], turn.next, deadline, interval);
        var rest := Admit(polls[1..], deadline, interval, turn.next);
        assert run.sleeps[1..] == rest.sleeps;
        forall i | 0 < i < |run.sleeps| ensures SleepsInTime(polls, run.sleeps, start, deadline, interval, i) {
          SleepsInTimeLater(polls, run.sleeps, start, turn.next, deadline, interval, i);
        }
        if run.result.Some? && run.result.value != Err(AdmissionTimeout) {
          ReadTimeLater(polls, run.sleeps, start, |run.sleeps|);
        }
      }
    }
  }

  lemma TurnsAreInTime(polls: seq<Poll>, deadline: nat, interval: nat, now: nat, sleeps: seq<nat>)
    requires polls != []
    ensures var turn := TurnOf(polls[0], deadline, interval, now);
      && (turn.Ends? && turn.result != Err(AdmissionTimeout) ==> turn.end == now + polls[0].took)
      && (turn.Sleeps? ==> turn.next == now + polls[0].took + polls[0].handling + turn.nap + polls[0].late)
      && (turn.Sleeps? && sleeps != [] && sleeps[0] == turn.nap ==>
            SleepsInTime(polls, sleeps, now, deadline, interval, 0))
  {
    hide Judge, SleepAfter;
    if Judge(polls[0].reading, interval).RideOut? {
      RidingOutTakesItsTime(polls[0].reading, interval);
    }
  }

  lemma SleepsInTimeLater(polls: seq<Poll>, sleeps: seq<nat>, start: nat, next: nat, deadline: nat, interval: nat,
                          i: nat)
    requires 0 < i < |polls| && i < |sleeps|
    requires next == start + polls[0].took + polls[0].handling + sleeps[0] + polls[0].late
    requires SleepsInTime(polls[1..], sleeps[1..], next, deadline, interval, i - 1)
    ensures SleepsInTime(polls, sleeps, start, deadline, interval, i)
  {
    hide SleepAfter;
    ReadTimeLater(polls, sleeps, start, i);
  }
}
