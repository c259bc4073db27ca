/**
 The retry loop around one chat-completion request: a fixed schedule of attempts for transient failures,
 and a deadline, not an attempt count, for a server that answers 503 and says when to come back
 (section 15.6.4 of RFC 9110; the delay-seconds form of Retry-After, section 10.2.3).
 */
module RetryLoop {
  import opened Options

  type Seconds = r: real | r >= 0.0 witness 0.0

  /** What one request comes back with: nothing, or the status, the parsed Retry-After, and what the body says. */
  datatype Answer =
    | Transport
    | Response(status: int, retryAfter: Option<real>, reasoningOnly: bool)

  /** One round: how long the sleep before it overruns, how long the request takes, and its answer. */
  datatype Exchange = Exchange(overrun: Seconds, duration: Seconds, answer: Answer)

  datatype Outcome = Returned(answer: Answer) | Raised

  /** The schedule of the first three attempts, in seconds. */
  const BACKOFFS: seq<real> := [10.0, 30.0, 60.0]

  const N_ATTEMPTS := 4

  /** The server's interval, held between one second and a minute. */
  function WaitOf(answer: Answer): Option<real>
    requires answer.Response?
  {
    if answer.retryAfter.None? then None
    else Some(RealMin(RealMax(answer.retryAfter.value, 1.0), 60.0))
  }

  function RealMin(a: real, b: real): real {
    if b < a then b else a
  }

  function RealMax(a: real, b: real): real {
    if a < b then b else a
  }

  /** A 503 that says how long to wait: no attempt is spent on it. */
  predicate Busy(answer: Answer) {
    answer.Response? && answer.status == 503 && answer.retryAfter.Some?
  }

  predicate ReasoningOnly(answer: Answer) {
    answer.Response? && answer.status == 502 && answer.reasoningOnly
  }

  /** The loop's variables, with the clock and a tally of requests and sleep. */
  datatype Loop = Loop(attempt: nat, delay: real, clock: real, sent: nat, slept: real)

  datatype Turn = Again(loop: Loop) | Stop(outcome: Outcome, loop: Loop)

  /** The clock, the tally and the default delay after the sleep and the request of one round. */
  function Round(v: Loop, x: Exchange): Loop {
    var sleeps := if v.delay != 0.0 then v.delay + x.overrun else 0.0;
    Loop(v.attempt, if v.attempt < 3 then BACKOFFS[v.attempt] else 0.0, v.clock + sleeps + x.duration, v.sent + 1,
         v.slept + if v.delay != 0.0 then v.delay else 0.0)
  }

  /** One turn of the loop. */
  function Step(v: Loop, x: Exchange, deadline: real): Turn {
    var w := Round(v, x);
    match x.answer
    case Transport =>
      if v.attempt == 3 then Stop(Raised, w) else Again(w.(attempt := v.attempt + 1))
    case Response(status, _, _) =>
      if status < 500 then Stop(Returned(x.answer), w)
      else
        var wait := WaitOf(x.answer);
        if Busy(x.answer) then
          var remaining := deadline - w.clock;
          if remaining <= 0.0 then Stop(Returned(x.answer), w)
          else Again(w.(delay := RealMin(wait.value, remaining)))
        else if ReasoningOnly(x.answer) || v.attempt == 3 then Stop(Returned(x.answer), w)
        else Again(w.(attempt := v.attempt + 1, delay := wait.GetOr(w.delay)))
  }

  // ----- termination: attempts left, then whole seconds of busy time left

  /** The whole number of seconds that covers `r`. */
  function Ceil(r: real): (n: int)
    ensures n as real >= r > n as real - 1.0
  {
    -((-r).Floor)
  }

  lemma CeilDrops(r: real, d: real)
    requires d >= 1.0
    ensures Ceil(r - d) < Ceil(r)
  {
  }

  lemma CeilMonotone(a: real, b: real)
    requires a <= b
    ensures Ceil(a) <= Ceil(b)
  {
  }

  /** Whole busy seconds still ahead once the pending sleep is over. */
  function BusyLeft(v: Loop, deadline: real): nat {
    Max(0, Ceil(deadline - v.clock - v.delay))
  }

  /** The loop goes on with attempts in hand and a sleep that is not negative. */
  predicate Ready(v: Loop) {
    v.attempt < N_ATTEMPTS && v.delay >= 0.0
  }

  /** A turn that goes on has used up an attempt, or the busy time still ahead has shrunk. */
  lemma TurnDecreases(v: Loop, x: Exchange, deadline: real)
    requires Ready(v) && Step(v, x, deadline).Again?
    ensures var w := Step(v, x, deadline).loop;
            && Ready(w) && BusyLeft(w, deadline) <= BusyLeft(v, deadline)
            && (v.attempt < w.attempt || (v.attempt == w.attempt && BusyLeft(w, deadline) < BusyLeft(v, deadline)))
  {
    var w := Step(v, x, deadline).loop;
    var remaining := deadline - w.clock;
    assert remaining <= deadline - v.clock - v.delay;
    CeilMonotone(remaining, deadline - v.clock - v.delay);
    CeilMonotone(remaining - w.delay, remaining);
    if Busy(x.answer) && w.delay >= 1.0 {
      CeilDrops(remaining, w.delay);
    }
  }

  /** The whole run against a server, from the loop's variables to the outcome. */
  function RunFrom(server: nat -> Exchange, v: Loop, deadline: real): (Outcome, Loop)
    requires Ready(v)
    decreases N_ATTEMPTS - v.attempt, BusyLeft(v, deadline)
  {
    match Step(v, server(v.sent), deadline)
    case Stop(outcome, w) => (outcome, w)
    case Again(w) =>
      TurnDecreases(v, server(v.sent), deadline);
      RunFrom(server, w, deadline)
  }

  const START := Loop(0, 0.0, 0.0, 0, 0.0)

  lemma RunUnfolds(server: nat -> Exchange, v: Loop, deadline: real)
    requires Ready(v)
    ensures var turn := Step(v, server(v.sent), deadline);
            && (turn.Stop? ==> RunFrom(server, v, deadline) == (turn.outcome, turn.loop))
            && (turn.Again? ==>
                  && Ready(turn.loop) && BusyLeft(turn.loop, deadline) <= BusyLeft(v, deadline)
                  && (v.attempt < turn.loop.attempt ||
                      (v.attempt == turn.loop.attempt && BusyLeft(turn.loop, deadline) < BusyLeft(v, deadline)))
                  && RunFrom(server, v, deadline) == RunFrom(server, turn.loop, deadline))
  {
    hide Ceil;
    if Step(v, server(v.sent), deadline).Again? {
      TurnDecreases(v, server(v.sent), deadline);
    }
  }

  /** A whole call. Without `retry5xx` the one answer is the outcome, whatever it is. */
  function Call(server: nat -> Exchange, retry5xx: bool, busyBudget: real): (Outcome, Loop) {
    if retry5xx then RunFrom(server, START, busyBudget) else (Verdict(server(0).answer), Round(START, server(0)))
  }

  lemma RoundIs(v: Loop, x: Exchange)
    ensures v.delay == 0.0 ==> Round(v, x).clock == v.clock + x.duration && Round(v, x).slept == v.slept
    ensures v.delay != 0.0 ==>
      Round(v, x).clock == v.clock + (v.delay + x.overrun) + x.duration && Round(v, x).slept == v.slept + v.delay
    ensures Round(v, x).delay == if v.attempt < |BACKOFFS| then BACKOFFS[v.attempt] else 0.0
    ensures Round(v, x).attempt == v.attempt && Round(v, x).sent == v.sent + 1
  {
  }

  /** `busyBudget` is the configured cap, or the caller's own timeout; the clock starts at zero. */
  method PostChatCompletion(server: nat -> Exchange, retry5xx: bool, busyBudget: real)
    returns (outcome: Outcome, sent: nat, slept: real)
    ensures var (o, w) := Call(server, retry5xx, busyBudget); outcome == o && sent == w.sent && slept == w.slept
  {
    if !retry5xx {
      var answer := server(0).answer;
      return if answer.Transport? then Raised else Returned(answer), 1, 0.0;
    }
    assert Ready(START);
    hide RunFrom, BusyLeft, RealMin, RealMax, ReasoningOnly, WaitOf, Ready, Round;
    outcome := Raised;
    var deadline := busyBudget;
    var attempt, delay, clock := 0, 0.0, 0.0;
    sent, slept := 0, 0.0;
    while attempt < N_ATTEMPTS
      invariant outcome == Raised && Ready(Loop(attempt, delay, clock, sent, slept))
      invariant RunFrom(server, Loop(attempt, delay, clock, sent, slept), deadline) == RunFrom(server, START, deadline)
      decreases N_ATTEMPTS - attempt, BusyLeft(Loop(attempt, delay, clock, sent, slept), deadline)
    {
      var x := server(sent);
      ghost var v := Loop(attempt, delay, clock, sent, slept);
      RunUnfolds(server, v, deadline);
      RoundIs(v, x);
      if delay != 0.0 {
        clock := clock + (delay + x.overrun);
        slept := slept + delay;
      }
      delay := if attempt < |BACKOFFS| then BACKOFFS[attempt] else 0.0;
      clock := clock + x.duration;
      sent := sent + 1;
      assert Round(v, x) == Loop(attempt, delay, clock, sent, slept);
      match x.answer {
        case Transport =>
          if attempt == |BACKOFFS| {
            return;
          }
          attempt := attempt + 1;
        case Response(status, _, _) =>
          outcome := Returned(x.answer);
          if status < 500 {
            return;
          }
          var wait := WaitOf(x.answer);
          if status == 503 && wait.Some? {
            var remaining := deadline - clock;
            if remaining <= 0.0 {
              return;
            }
            delay := RealMin(wait.value, remaining);
          } else {
            if ReasoningOnly(x.answer) || attempt == |BACKOFFS| {
              return;
            }
            if wait.Some? {
              delay := wait.value;
            }
            attempt := attempt + 1;
          }
      }
      outcome := Raised;
      assert Step(v, x, deadline) == Again(Loop(attempt, delay, clock, sent, slept));
    }
  }

  // ----- how much it can cost

  /** However the server behaves, at most one request for each busy second of the budget, and four more. */
  lemma {:induction false} RequestsAreBounded(server: nat -> Exchange, v: Loop, deadline: real)
    requires Ready(v)
    ensures v.sent < RunFrom(server, v, deadline).1.sent <= v.sent + BusyLeft(v, deadline) + (N_ATTEMPTS - v.attempt)
    decreases N_ATTEMPTS - v.attempt, BusyLeft(v, deadline)
  {
    hide Ceil;
    var turn := Step(v, server(v.sent), deadline);
    if turn.Again? {
      TurnDecreases(v, server(v.sent), deadline);
      RequestsAreBounded(server, turn.loop, deadline);
    }
  }

  /** What has been slept, what is about to be, the busy time after that, and a minute for each attempt left. */
  function SleepBound(v: Loop, deadline: real): real {
    v.slept + v.delay + RealMax(deadline - v.clock - v.delay, 0.0) + 60.0 * (3 - v.attempt) as real
  }

  lemma TurnKeepsSleepBound(v: Loop, x: Exchange, deadline: real)
    requires Ready(v)
    ensures Step(v, x, deadline).Again? ==> SleepBound(Step(v, x, deadline).loop, deadline) <= SleepBound(v, deadline)
    ensures Step(v, x, deadline).Stop? ==> Step(v, x, deadline).loop.slept <= SleepBound(v, deadline)
  {
    var w := Step(v, x, deadline).loop;
    assert w.clock >= v.clock + v.delay && w.slept == v.slept + v.delay;
  }

  lemma {:induction false} SleepIsBounded(server: nat -> Exchange, v: Loop, deadline: real)
    requires Ready(v)
    ensures RunFrom(server, v, deadline).1.slept <= SleepBound(v, deadline)
    decreases N_ATTEMPTS - v.attempt, BusyLeft(v, deadline)
  {
    hide Ceil, SleepBound;
    var turn := Step(v, server(v.sent), deadline);
    TurnKeepsSleepBound(v, server(v.sent), deadline);
    if turn.Again? {
      TurnDecreases(v, server(v.sent), deadline);
      SleepIsBounded(server, turn.loop, deadline);
    }
  }

  /** A whole call: at most the budget in whole seconds and four requests, and the budget and 180 s of sleep. */
  lemma CallIsBounded(server: nat -> Exchange, retry5xx: bool, busyBudget: real)
    ensures var w := Call(server, retry5xx, busyBudget).1;
            && (!retry5xx ==> w.sent == 1 && w.slept == 0.0)
            && w.sent <= Max(0, Ceil(busyBudget)) + 4
            && w.slept <= RealMax(busyBudget, 0.0) + 180.0
  {
    hide Ceil, RunFrom;
    RequestsAreBounded(server, START, busyBudget);
    SleepIsBounded(server, START, busyBudget);
  }

  // ----- busy answers do not change the verdict

  /** The answers the run got, from request `k` up to request `n`. */
  function Answers(server: nat -> Exchange, k: nat, n: nat): seq<Answer>
    requires k <= n
    decreases n - k
  {
    if k == n then [] else [server(k).answer] + Answers(server, k + 1, n)
  }

  function WithoutBusy(answers: seq<Answer>): seq<Answer> {
    if answers == [] then []
    else (if Busy(answers[0]) then [] else [answers[0]]) + WithoutBusy(answers[1..])
  }

  /** An answer that ends the call whatever attempts are left. */
  predicate Decisive(answer: Answer) {
    answer.Response? && (answer.status < 500 || ReasoningOnly(answer))
  }

  function Verdict(answer: Answer): Outcome {
    if answer.Transport? then Raised else Returned(answer)
  }

  /** The simple form: the first decisive answer, or whatever the last of `tries` answers is. */
  function Decide(answers: seq<Answer>, tries: nat): Option<Outcome> {
    if answers == [] || tries == 0 then None
    else if Decisive(answers[0]) || tries == 1 then Some(Verdict(answers[0]))
    else Decide(answers[1..], tries - 1)
  }

  predicate GaveUpBusy(outcome: Outcome) {
    outcome.Returned? && Busy(outcome.answer)
  }

  /**
   Within the deadline the busy answers might as well not have been sent: the outcome is what four plain
   tries make of the other answers. Past the deadline the last answer is a busy one, and the other
   answers alone decide nothing.
   */
  lemma {:induction false} BusyAnswersDoNotMatter(server: nat -> Exchange, v: Loop, deadline: real)
    requires Ready(v)
    ensures var (outcome, w) := RunFrom(server, v, deadline);
            && v.sent < w.sent
            && Decide(WithoutBusy(Answers(server, v.sent, w.sent)), N_ATTEMPTS - v.attempt)
                 == if GaveUpBusy(outcome) then None else Some(outcome)
    decreases N_ATTEMPTS - v.attempt, BusyLeft(v, deadline)
  {
    RequestsAreBounded(server, v, deadline);
    RunUnfolds(server, v, deadline);
    hide WaitOf, RunFrom, BusyLeft, WithoutBusy, RealMin, ReasoningOnly;
    var x, w := server(v.sent), RunFrom(server, v, deadline).1;
    var later := Answers(server, v.sent + 1, w.sent);
    assert Answers(server, v.sent, w.sent) == [x.answer] + later;
    FirstAnswerCounts(x.answer, later, N_ATTEMPTS - v.attempt);
    var turn := Step(v, x, deadline);
    if turn.Again? {
      BusyAnswersDoNotMatter(server, turn.loop, deadline);
    }
  }

  /** A busy answer first in line counts for nothing, and any other for one try. */
  lemma FirstAnswerCounts(first: Answer, later: seq<Answer>, tries: nat)
    requires tries > 0
    ensures Decide(WithoutBusy([first] + later), tries)
         == if Busy(first) then Decide(WithoutBusy(later), tries)
            else if Decisive(first) || tries == 1 then Some(Verdict(first))
            else Decide(WithoutBusy(later), tries - 1)
    ensures WithoutBusy([]) == [] && forall n :: Decide([], n) == None
  {
    hide Busy, Decisive;
    var rest := WithoutBusy(later);
    assert ([first] + later)[1..] == later;
    assert [] + rest == rest && ([first] + rest)[1..] == rest;
  }

  /** The outcome of a whole call, told by its answers alone. */
  lemma OutcomeOfACall(server: nat -> Exchange, busyBudget: real)
    ensures var (outcome, w) := Call(server, true, busyBudget);
            Decide(WithoutBusy(Answers(server, 0, w.sent)), 4) == if GaveUpBusy(outcome) then None else Some(outcome)
  {
    hide RunFrom, Answers, WithoutBusy, Decide;
    BusyAnswersDoNotMatter(server, START, busyBudget);
  }

  // ----- the same call against the server's script without its busy answers

  /** The exchanges from the k-th up to the n-th, the busy ones left out. */
  function Kept(server: nat -> Exchange, k: nat, n: nat): seq<Exchange>
    requires k <= n
    decreases n - k
  {
    if k == n then [] else (if Busy(server(k).answer) then [] else [server(k)]) + Kept(server, k + 1, n)
  }

  /** A server that plays the first `n` exchanges without the busy ones, and is unreachable after them. */
  function Erased(server: nat -> Exchange, n: nat): nat -> Exchange {
    var kept := Kept(server, 0, n);
    (k: nat) => if k < |kept| then kept[k] else Exchange(0.0, 0.0, Transport)
  }

  lemma {:induction false} KeptAnswers(server: nat -> Exchange, k: nat, n: nat)
    requires k <= n
    ensures var kept, answers := Kept(server, k, n), WithoutBusy(Answers(server, k, n));
      |kept| == |answers| && forall i :: 0 <= i < |kept| ==> kept[i].answer == answers[i] && !Busy(answers[i])
    decreases n - k
  {
    if k < n {
      KeptAnswers(server, k + 1, n);
      assert Answers(server, k, n)[1..] == Answers(server, k + 1, n);
    }
  }

  lemma {:induction false} AnswersAre(server: nat -> Exchange, k: nat, answers: seq<Answer>)
    requires forall i :: 0 <= i < |answers| ==> server(k + i).answer == answers[i]
    ensures Answers(server, k, k + |answers|) == answers
    decreases |answers|
  {
    if answers != [] {
      AnswersAre(server, k + 1, answers[1..]);
    }
  }

  /** Against a server with no busy answer the loop's outcome is the plain decision, whatever the deadline. */
  lemma {:induction false} PlainRunDecides(server: nat -> Exchange, v: Loop, deadline: real, n: nat)
    requires Ready(v) && v.sent <= n && forall k :: v.sent <= k < n ==> !Busy(server(k).answer)
    requires Decide(Answers(server, v.sent, n), N_ATTEMPTS - v.attempt).Some?
    ensures Decide(Answers(server, v.sent, n), N_ATTEMPTS - v.attempt) == Some(RunFrom(server, v, deadline).0)
    decreases n - v.sent
  {
    hide Ceil, WaitOf, BusyLeft;
    var answers := Answers(server, v.sent, n);
    assert v.sent < n;
    assert answers[0] == server(v.sent).answer && answers[1..] == Answers(server, v.sent + 1, n);
    RunUnfolds(server, v, deadline);
    var turn := Step(v, server(v.sent), deadline);
    if turn.Again? {
      PlainRunDecides(server, turn.loop, deadline, n);
    }
  }

  /**
   Take the busy answers out of the server's script: unless the call gave up busy, the call against what is
   left has the same outcome.
   */
  lemma ErasedScriptSameOutcome(server: nat -> Exchange, busyBudget: real)
    ensures var (outcome, w) := Call(server, true, busyBudget);
      GaveUpBusy(outcome) || Call(Erased(server, w.sent), true, busyBudget).0 == outcome
  {
    hide RunFrom, Answers, WithoutBusy, Decide, Kept;
    OutcomeOfACall(server, busyBudget);
    var (outcome, w) := Call(server, true, busyBudget);
    if !GaveUpBusy(outcome) {
      var plain := Erased(server, w.sent);
      KeptAnswers(server, 0, w.sent);
      var answers := WithoutBusy(Answers(server, 0, w.sent));
      AnswersAre(plain, 0, answers);
      PlainRunDecides(plain, START, busyBudget, |answers|);
    }
  }

  // ----- how long each sleep is

  /** Answers among the first `i` that used up an attempt. */
  function Spent(server: nat -> Exchange, i: nat): nat {
    if i == 0 then 0 else Spent(server, i - 1) + if Busy(server(i - 1).answer) then 0 else 1
  }

  /** What a Retry-After comes to: what the server says, but no less than a second and no more than a minute. */
  function Told(seconds: real): real {
    if seconds < 1.0 then 1.0 else if seconds > 60.0 then 60.0 else seconds
  }

  /**
   The sleep before request `i`: after a busy answer as long as told, or what is left of the budget if that is
   less; after another answer as long as told, or the ten, thirty and sixty seconds of the schedule.
   */
  function Pause(server: nat -> Exchange, deadline: real, i: nat): real
    decreases i, 0
  {
    if i == 0 then 0.0
    else
      var answer := server(i - 1).answer;
      if answer.Response? && answer.retryAfter.Some? then
        var told := Told(answer.retryAfter.value);
        var left := deadline - ClockAfter(server, deadline, i - 1);
        if answer.status == 503 && left < told then left else told
      else if Spent(server, i - 1) == 0 then 10.0
      else if Spent(server, i - 1) == 1 then 30.0
      else 60.0
  }

  /** The clock when request `i` has been answered. */
  function ClockAfter(server: nat -> Exchange, deadline: real, i: nat): real
    decreases i, 1
  {
    var pause := Pause(server, deadline, i);
    (if i == 0 then 0.0 else ClockAfter(server, deadline, i - 1))
    + (if pause == 0.0 then 0.0 else pause + server(i).overrun) + server(i).duration
  }

  /** The sleeps before the first `n` requests. */
  function Pauses(server: nat -> Exchange, deadline: real, n: nat): real {
    if n == 0 then 0.0 else Pauses(server, deadline, n - 1) + Pause(server, deadline, n - 1)
  }

  /** The loop's variables before request `k`. */
  function Before(server: nat -> Exchange, deadline: real, k: nat): Loop {
    Loop(Spent(server, k), Pause(server, deadline, k), if k == 0 then 0.0 else ClockAfter(server, deadline, k - 1), k,
         Pauses(server, deadline, k))
  }

  lemma RoundIsNext(server: nat -> Exchange, deadline: real, k: nat)
    ensures var w := Round(Before(server, deadline, k), server(k));
      w.clock == ClockAfter(server, deadline, k) && w.slept == Pauses(server, deadline, k + 1) && w.sent == k + 1
  {
    hide Busy, Told;
  }

  lemma StepIsNext(server: nat -> Exchange, deadline: real, k: nat)
    requires Ready(Before(server, deadline, k)) && Step(Before(server, deadline, k), server(k), deadline).Again?
    ensures Step(Before(server, deadline, k), server(k), deadline).loop == Before(server, deadline, k + 1)
  {
    RoundIsNext(server, deadline, k);
    RoundIs(Before(server, deadline, k), server(k));
    hide Round, ClockAfter, Pauses;
  }

  lemma {:induction false} RunFollowsPauses(server: nat -> Exchange, deadline: real, k: nat)
    requires Ready(Before(server, deadline, k))
    ensures var w := RunFrom(server, Before(server, deadline, k), deadline).1;
      w.slept == Pauses(server, deadline, w.sent)
    decreases N_ATTEMPTS - Spent(server, k), BusyLeft(Before(server, deadline, k), deadline)
  {
    var v := Before(server, deadline, k);
    RunUnfolds(server, v, deadline);
    RoundIsNext(server, deadline, k);
    StopIsRound(v, server(k), deadline);
    if Step(v, server(k), deadline).Again? {
      StepIsNext(server, deadline, k);
      hide RunFrom, Step, Pause, ClockAfter, Pauses, BusyLeft, Round;
      RunFollowsPauses(server, deadline, k + 1);
    }
  }

  lemma StopIsRound(v: Loop, x: Exchange, deadline: real)
    ensures Step(v, x, deadline).Stop? ==> Step(v, x, deadline).loop == Round(v, x)
  {
  }

  /** A call sleeps exactly the pauses its answers call for, and without `retry5xx` asks once and does not sleep. */
  lemma CallSleepsPauses(server: nat -> Exchange, retry5xx: bool, busyBudget: real)
    ensures var w := Call(server, retry5xx, busyBudget).1;
      && w.slept == Pauses(server, busyBudget, w.sent)
      && (!retry5xx ==> w.sent == 1)
    ensures !retry5xx ==>
              Call(server, retry5xx, busyBudget).0
                == if server(0).answer.Transport? then Raised else Returned(server(0).answer)
  {
    assert Before(server, busyBudget, 0) == START;
    RunFollowsPauses(server, busyBudget, 0);
    RoundIsNext(server, busyBudget, 0);
  }

  /**
   The answers that stop the loop: any below 500, a 502 that is reasoning only, a busy one with no budget left, and
   whatever comes of the fourth attempt; no other does.
   */
  lemma StopsIff(server: nat -> Exchange, deadline: real, k: nat)
    requires Ready(Before(server, deadline, k))
    ensures var answer := server(k).answer;
      Step(Before(server, deadline, k), server(k), deadline).Stop?
      <==> if answer.Response? && answer.status == 503 && answer.retryAfter.Some? then
             ClockAfter(server, deadline, k) >= deadline
           else
             || Spent(server, k) == 3
             || (answer.Response? && (answer.status < 500 || (answer.status == 502 && answer.reasoningOnly)))
  {
    RoundIsNext(server, deadline, k);
    hide ClockAfter, Pauses, Pause;
  }
}
