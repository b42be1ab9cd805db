/**
 What the poll loop (`internal/client/client.go`, `pollCascade`) remembers from turn to turn and when
 it goes on, as functions of the answers it gets. `CascadePoll` has the loop itself.
 */
module PollTurns {
  import opened Options
  import opened PollRules

  datatype StepsAnswer = Steps(steps: seq<Step>) | StepsUnparsable | StepsTransient | StepsHard
  datatype StatusAnswer = Status(status: nat) | StatusTransient | StatusHard

  /** The answers in one turn of the loop; times are milliseconds since the start. */
  datatype Turn = Turn(
    test: int,
    cancelled: bool,
    steps: StepsAnswer,
    stallAt: int,
    growAt: int,
    status: StatusAnswer,
    retryAt: int,
    retryCancelled: bool,
    idleAt: int,
    sweep: StepsAnswer
  )

  type Environment = nat -> Turn

  const IdleGrace := 8_000
  const NoGrowthStall := 25_000
  const StallRetryMin := 300
  const MaxTransient := 6

  /** Between two tests of the loop the poll interval passes. */
  ghost predicate Paced(env: Environment) {
    env(0).test >= 0 && forall n: nat :: env(n + 1).test >= env(n).test + PollInterval
  }

  /** The snapshots answered in the first `n` turns. */
  ghost function Snapshots(env: Environment, n: nat): seq<seq<Step>> {
    if n == 0 then []
    else Snapshots(env, n - 1) + if env(n - 1).steps.Steps? then [env(n - 1).steps.steps] else []
  }

  /** How many turns up to the `n`-th in a row met a transient error. */
  ghost function Streak(env: Environment, n: nat): nat {
    if n > 0 && env(n - 1).steps.StepsTransient? then 1 + Streak(env, n - 1) else 0
  }

  /**
   How many turns up to the `n`-th met a transient error at the status call, with no status in between;
   turns that did not come to the status call do not count.
   */
  ghost function StatusStreak(env: Environment, n: nat): nat {
    if n == 0 then 0
    else if !env(n - 1).steps.Steps? then StatusStreak(env, n - 1)
    else if env(n - 1).status.StatusTransient? then 1 + StatusStreak(env, n - 1)
    else 0
  }

  /** The first error step with a text. */
  function FirstError(steps: seq<Step>): (r: Option<string>)
    ensures r.None? <==> forall i :: 0 <= i < |steps| ==> !(steps[i].typ == 17 && steps[i].errorText != "")
    ensures r.Some? ==> exists i :: 0 <= i < |steps| && steps[i].typ == 17 && steps[i].errorText == r.value != ""
  {
    if steps == [] then None
    else if steps[0].typ == 17 && steps[0].errorText != "" then Some(steps[0].errorText)
    else FirstError(steps[1..])
  }

  // ----- the text passed on, in the order it was -----

  /** The part of a text beyond what was passed on. */
  function Beyond(done: string, live: string): string {
    if |live| > |done| then live[|done|..] else ""
  }

  /** What is new in the first `n` steps of a snapshot. */
  function NewText(seen: seq<seq<Step>>, steps: seq<Step>, n: nat): string
    requires n <= |steps|
  {
    if n == 0 then ""
    else NewText(seen, steps, n - 1) + Beyond(Passed(seen, n - 1), Live(steps[n - 1]))
  }

  function TextAfter(seen: seq<seq<Step>>): string {
    if seen == [] then ""
    else
      var front, steps := seen[..|seen| - 1], seen[|seen| - 1];
      TextAfter(front) + NewText(front, steps, |steps|)
  }

  lemma TextAfterSnoc(seen: seq<seq<Step>>, steps: seq<Step>)
    ensures TextAfter(seen + [steps]) == TextAfter(seen) + NewText(seen, steps, |steps|)
  {
    assert (seen + [steps])[..|seen|] == seen;
  }

  /** A step of the snapshot has more text than was passed on of it. */
  ghost predicate Longer(seen: seq<seq<Step>>, steps: seq<Step>, n: nat)
    requires n <= |steps|
  {
    exists i :: 0 <= i < n && |Live(steps[i])| > |Passed(seen, i)|
  }

  lemma {:induction false} NothingNewIff(seen: seq<seq<Step>>, steps: seq<Step>, n: nat)
    requires n <= |steps|
    ensures NewText(seen, steps, n) == "" <==> !Longer(seen, steps, n)
  {
    hide Live, Passed;
    if n > 0 {
      NothingNewIff(seen, steps, n - 1);
    }
  }

  /** A snapshot that is not taken in is a loss exactly if one of its steps has grown. */
  lemma LeftOutIff(seen: seq<seq<Step>>, steps: seq<Step>)
    ensures TextAfter(seen + [steps]) == TextAfter(seen) <==> !Longer(seen, steps, |steps|)
  {
    TextAfterSnoc(seen, steps);
    NothingNewIff(seen, steps, |steps|);
  }

  /** Something the loop counts as growth is in the first `n` steps: a tool, thinking or text. */
  predicate Grown(seen: seq<seq<Step>>, steps: seq<Step>, n: nat)
    requires n <= |steps|
  {
    n > 0 &&
    var s, i := steps[n - 1], n - 1;
    || Grown(seen, steps, i)
    || !(Keys(s.tools) <= Keys(AllTools(seen) + StepTools(steps[..i])))
    || |s.thinking| > |Thought(seen, i)|
    || |Live(s)| > |Passed(seen, i)|
  }

  // ----- what is remembered, and when the loop goes on -----

  /** The snapshots taken in, and what else the next turn depends on. */
  datatype Memory = Memory(seen: seq<seq<Step>>, stepsErrs: nat, statusErrs: nat, idleCount: nat, sawActive: bool,
                           lastStatus: nat, lastGrowthAt: int, lastStepCount: nat)

  const AtStart := Memory([], 0, 0, 0, false, 0, 0, 0)

  function ColdLimit(inputCh: nat): int {
    var limit := 30_000 + inputCh / 1500 * 5_000;
    if limit > MaxWait then MaxWait else limit
  }

  /** A snapshot came, and no step of it is an error. */
  predicate Answered(turn: Turn) {
    !turn.cancelled && turn.steps.Steps? && FirstError(turn.steps.steps).None?
  }

  /** Nothing at all for too long. */
  predicate StalledCold(m: Memory, turn: Turn, inputCh: nat) {
    && Answered(turn) && turn.stallAt > ColdLimit(inputCh) && m.sawActive
    && TextAfter(m.seen) == "" && Keys(AllTools(m.seen)) == {}
  }

  /** Nothing more for too long. The snapshot just read is not looked at. */
  predicate Stalled(m: Memory, turn: Turn) {
    && Answered(turn) && TextAfter(m.seen) != "" && m.lastStatus != 1
    && turn.stallAt - m.lastGrowthAt > NoGrowthStall
  }

  predicate StalledWarm(m: Memory, turn: Turn) {
    Stalled(m, turn) && |TextAfter(m.seen)| >= StallRetryMin
  }

  /** The status half of a turn, the snapshot being taken in, leads to another turn. */
  predicate StatusGoesOn(m: Memory, turn: Turn) {
    match turn.status
    case StatusHard => false
    case StatusTransient => m.statusErrs < MaxTransient && !turn.retryCancelled
    case Status(status) =>
      || status != 1
      || (!m.sawActive && turn.idleAt <= IdleGrace)
      || m.idleCount + 1 < if TextAfter(m.seen) != "" then 2 else 4
  }

  /** After a snapshot was taken in. */
  function Watched(m: Memory, steps: seq<Step>, growAt: int): Memory {
    m.(seen := m.seen + [steps], stepsErrs := 0,
       lastStepCount := if |steps| > m.lastStepCount then |steps| else m.lastStepCount,
       lastGrowthAt := if |steps| > m.lastStepCount || Grown(m.seen, steps, |steps|) then growAt else m.lastGrowthAt)
  }

  /** The turn leads to another turn. */
  predicate GoesOn(m: Memory, turn: Turn, inputCh: nat) {
    && !turn.cancelled
    && match turn.steps
       case StepsHard => false
       case StepsUnparsable => false
       case StepsTransient => m.stepsErrs < MaxTransient && !turn.retryCancelled
       case Steps(steps) =>
         && Answered(turn) && !StalledCold(m, turn, inputCh) && !Stalled(m, turn)
         && StatusGoesOn(Watched(m, steps, turn.growAt), turn)
  }

  /** After the status call. */
  function Checked(m: Memory, turn: Turn): Memory {
    match turn.status
    case StatusHard => m
    case StatusTransient => m.(statusErrs := m.statusErrs + 1, lastGrowthAt := turn.retryAt)
    case Status(status) =>
      if status != 1 then m.(statusErrs := 0, lastStatus := status, sawActive := true, idleCount := 0)
      else if !m.sawActive && turn.idleAt <= IdleGrace then m.(statusErrs := 0, lastStatus := status)
      else m.(statusErrs := 0, lastStatus := status, idleCount := m.idleCount + 1)
  }

  function Next(m: Memory, turn: Turn): Memory {
    match turn.steps
    case Steps(steps) => Checked(Watched(m, steps, turn.growAt), turn)
    case StepsTransient => m.(stepsErrs := m.stepsErrs + 1, lastGrowthAt := turn.growAt)
    case _ => m
  }

  /** When a turn ends the loop as a stall, in milliseconds and characters. */
  lemma StallsIff(m: Memory, turn: Turn, inputCh: nat)
    requires Answered(turn)
    ensures StalledCold(m, turn, inputCh) <==>
              && m.sawActive && TextAfter(m.seen) == "" && AllTools(m.seen) == []
              && (turn.stallAt > 30_000 + inputCh / 1500 * 5_000 || turn.stallAt > 180_000)
    ensures Stalled(m, turn) <==> TextAfter(m.seen) != "" && m.lastStatus != 1 && turn.stallAt - m.lastGrowthAt > 25_000
    ensures StalledWarm(m, turn) <==> Stalled(m, turn) && |TextAfter(m.seen)| >= 300
  {
    hide TextAfter, AllTools;
    KeysAreNone(AllTools(m.seen));
  }

  lemma KeysAreNone(tools: seq<Tool>)
    ensures Keys(tools) == {} <==> tools == []
  {
    hide KeyOf;
    if tools != [] {
      assert tools[0] in tools && KeyOf(tools[0]) in Keys(tools);
    }
  }

  lemma {:induction false} GrownAt(seen: seq<seq<Step>>, steps: seq<Step>, i: nat, n: nat)
    requires i < n <= |steps|
    requires |steps[i].thinking| > |Thought(seen, i)| || |Live(steps[i])| > |Passed(seen, i)|
    ensures Grown(seen, steps, n)
  {
    hide Live, Passed, Thought, Keys, AllTools, StepTools;
    if i < n - 1 {
      GrownAt(seen, steps, i, n - 1);
    }
  }

  lemma {:induction false} NotGrown(seen: seq<seq<Step>>, steps: seq<Step>, n: nat)
    requires n <= |steps|
    requires forall i :: 0 <= i < n ==>
               steps[i].tools == [] && |steps[i].thinking| <= |Thought(seen, i)| && |Live(steps[i])| <= |Passed(seen, i)|
    ensures !Grown(seen, steps, n)
  {
    hide Live, Passed, Thought, AllTools, StepTools;
    if n > 0 {
      NotGrown(seen, steps, n - 1);
    }
  }

  /**
   What the stall is measured from: a snapshot in which some step has more text or thinking than was passed
   on moves it, and so do more steps than ever; one with nothing new leaves it.
   */
  lemma GrowthIsNoted(m: Memory, turn: Turn)
    requires turn.steps.Steps? && turn.status.Status?
    ensures |turn.steps.steps| > m.lastStepCount ==> Next(m, turn).lastGrowthAt == turn.growAt
    ensures forall i :: 0 <= i < |turn.steps.steps| ==>
              var s := turn.steps.steps[i];
              || (|s.thinking| <= |Thought(m.seen, i)|
                  && |if s.response != "" then s.response else s.text| <= |Passed(m.seen, i)|)
              || Next(m, turn).lastGrowthAt == turn.growAt
    ensures (forall i :: 0 <= i < |turn.steps.steps| ==>
               var s := turn.steps.steps[i];
               && s.tools == [] && |s.thinking| <= |Thought(m.seen, i)|
               && |if s.response != "" then s.response else s.text| <= |Passed(m.seen, i)|) ==>
              |turn.steps.steps| <= m.lastStepCount ==> Next(m, turn).lastGrowthAt == m.lastGrowthAt
  {
    hide Grown, Passed, Thought;
    var steps := turn.steps.steps;
    forall i | 0 <= i < |steps| && (|steps[i].thinking| > |Thought(m.seen, i)| || |Live(steps[i])| > |Passed(m.seen, i)|)
      ensures Grown(m.seen, steps, |steps|)
    {
      GrownAt(m.seen, steps, i, |steps|);
    }
    if forall i :: 0 <= i < |steps| ==>
         steps[i].tools == [] && |steps[i].thinking| <= |Thought(m.seen, i)| && |Live(steps[i])| <= |Passed(m.seen, i)| {
      NotGrown(m.seen, steps, |steps|);
    }
  }

  /** What is remembered after `n` turns. */
  ghost function Remembered(env: Environment, n: nat): Memory {
    if n == 0 then AtStart else Next(Remembered(env, n - 1), env(n - 1))
  }

  /** The cascade counts as active from the first status other than idle. */
  lemma {:induction false} ActiveIff(env: Environment, n: nat)
    ensures Remembered(env, n).sawActive <==>
            exists k: nat :: k < n && env(k).steps.Steps? && env(k).status.Status? && env(k).status != Status(1)
  {
    if n > 0 {
      ActiveIff(env, n - 1);
    }
  }

  /** The loop comes to turn `n`. */
  ghost predicate Reached(env: Environment, inputCh: nat, n: nat) {
    forall k: nat :: k < n ==> env(k).test < MaxWait && GoesOn(Remembered(env, k), env(k), inputCh)
  }

  /** It ends there with a warm stall. */
  ghost predicate StallsWarmAt(env: Environment, inputCh: nat, n: nat) {
    Reached(env, inputCh, n) && env(n).test < MaxWait && StalledWarm(Remembered(env, n), env(n))
  }

  /** The counters are streaks, within the budget while the loop goes on, and the snapshots are those answered. */
  lemma {:induction false} StreaksAre(env: Environment, inputCh: nat, n: nat)
    requires Reached(env, inputCh, n)
    ensures var m := Remembered(env, n);
            && m.seen == Snapshots(env, n)
            && m.stepsErrs == Streak(env, n) <= MaxTransient && m.statusErrs == StatusStreak(env, n) <= MaxTransient
  {
    hide *;
    if n == 0 {
      NoStreaks(env);
    } else {
      ReachedBefore(env, inputCh, n);
      LastTurn(env, n - 1);
      RememberedNext(env, n - 1);
      StreaksAre(env, inputCh, n - 1);
      NextCounters(Remembered(env, n - 1), env(n - 1), inputCh);
    }
  }

  lemma NoStreaks(env: Environment)
    ensures var m := Remembered(env, 0);
            && m.seen == Snapshots(env, 0)
            && m.stepsErrs == Streak(env, 0) <= MaxTransient && m.statusErrs == StatusStreak(env, 0) <= MaxTransient
  {
  }

  /** What one turn more makes of snapshots and streaks. */
  lemma LastTurn(env: Environment, n: nat)
    ensures var turn := env(n);
            && Snapshots(env, n + 1) == Snapshots(env, n) + (if turn.steps.Steps? then [turn.steps.steps] else [])
            && Streak(env, n + 1) == (if turn.steps.StepsTransient? then 1 + Streak(env, n) else 0)
            && StatusStreak(env, n + 1) ==
               if !turn.steps.Steps? then StatusStreak(env, n)
               else if turn.status.StatusTransient? then 1 + StatusStreak(env, n) else 0
  {
  }

  lemma NextCounters(m: Memory, turn: Turn, inputCh: nat)
    requires GoesOn(m, turn, inputCh) && m.stepsErrs <= MaxTransient && m.statusErrs <= MaxTransient
    ensures var next := Next(m, turn);
            && next.seen == m.seen + (if turn.steps.Steps? then [turn.steps.steps] else [])
            && next.stepsErrs == (if turn.steps.StepsTransient? then m.stepsErrs + 1 else 0) <= MaxTransient
            && next.statusErrs == (if !turn.steps.Steps? then m.statusErrs
                                   else if turn.status.StatusTransient? then m.statusErrs + 1 else 0) <= MaxTransient
  {
    hide Grown, TextAfter, Answered, Stalled, StalledCold;
  }

  lemma ReachedBefore(env: Environment, inputCh: nat, n: nat)
    requires Reached(env, inputCh, n) && n > 0
    ensures Reached(env, inputCh, n - 1) && GoesOn(Remembered(env, n - 1), env(n - 1), inputCh)
  {
    hide GoesOn, Remembered;
  }

  /** A turn that finds the cascade idle, the start being over. */
  ghost predicate FoundIdle(m: Memory, turn: Turn) {
    turn.steps.Steps? && turn.status == Status(1) && (m.sawActive || turn.idleAt > 8_000)
  }

  /** The last `k` turns before the `n`-th have found the cascade idle. */
  ghost predicate IdleFor(env: Environment, n: nat, k: nat) {
    k <= n && forall j: nat :: n - k <= j < n ==> FoundIdle(Remembered(env, j), env(j))
  }

  lemma {:induction false} IdleIsCounted(env: Environment, inputCh: nat, n: nat, k: nat)
    requires Reached(env, inputCh, n) && IdleFor(env, n, k)
    ensures Remembered(env, n).idleCount >= k
  {
    hide *;
    if k > 0 {
      IdleBefore(env, n, k);
      ReachedBefore(env, inputCh, n);
      RememberedNext(env, n - 1);
      NextIdle(Remembered(env, n - 1), env(n - 1));
      IdleIsCounted(env, inputCh, n - 1, k - 1);
    }
  }

  lemma IdleBefore(env: Environment, n: nat, k: nat)
    requires IdleFor(env, n, k) && k > 0
    ensures n > 0 && FoundIdle(Remembered(env, n - 1), env(n - 1)) && IdleFor(env, n - 1, k - 1)
  {
    hide FoundIdle, Remembered;
  }

  lemma NextIdle(m: Memory, turn: Turn)
    requires FoundIdle(m, turn)
    ensures Next(m, turn).idleCount == m.idleCount + 1
  {
  }

  /** Once idle is not enough, nor three times if there is nothing to show; before anything was active it is not counted. */
  lemma IdleGoesOn(m: Memory, turn: Turn)
    requires turn.status == Status(1)
    ensures m.idleCount == 0 ==> StatusGoesOn(m, turn)
    ensures m.idleCount <= 2 && TextAfter(m.seen) == "" ==> StatusGoesOn(m, turn)
    ensures !m.sawActive && turn.idleAt <= 8_000 ==> StatusGoesOn(m, turn) && Checked(m, turn).idleCount == m.idleCount
  {
    hide TextAfter;
  }

  /**
   While the loop goes on the cascade has not been found idle twice in a row with text to show, nor four
   times in a row at all.
   */
  lemma IdleEndsTheLoop(env: Environment, inputCh: nat, n: nat)
    requires Reached(env, inputCh, n) && n > 0
    ensures !(IdleFor(env, n, 2) && TextAfter(Remembered(env, n - 1).seen) != "")
    ensures !IdleFor(env, n, 4)
  {
    ReachedBefore(env, inputCh, n);
    var m, turn := Remembered(env, n - 1), env(n - 1);
    hide Reached, Remembered;
    if IdleFor(env, n, 2) {
      assert FoundIdle(m, turn) && IdleFor(env, n - 1, 1);
      IdleIsCounted(env, inputCh, n - 1, 1);
      TextStays(m.seen, turn.steps.steps);
    }
    if IdleFor(env, n, 4) {
      assert FoundIdle(m, turn) && IdleFor(env, n - 1, 3);
      IdleIsCounted(env, inputCh, n - 1, 3);
    }
  }

  lemma TextStays(seen: seq<seq<Step>>, steps: seq<Step>)
    ensures TextAfter(seen) <= TextAfter(seen + [steps])
  {
    TextAfterSnoc(seen, steps);
  }

  lemma StalledEnds(m: Memory, turn: Turn, inputCh: nat)
    requires StalledWarm(m, turn)
    ensures !GoesOn(m, turn, inputCh)
  {
  }

  /** From a turn that is reached the loop goes on, or it ends there and nowhere else. */
  lemma EndsHere(env: Environment, inputCh: nat, n: nat)
    requires Reached(env, inputCh, n)
    ensures env(n).test < MaxWait && GoesOn(Remembered(env, n), env(n), inputCh) ==> Reached(env, inputCh, n + 1)
    ensures StallsWarmAt(env, inputCh, n) <==> env(n).test < MaxWait && StalledWarm(Remembered(env, n), env(n))
    ensures !(env(n).test < MaxWait && GoesOn(Remembered(env, n), env(n), inputCh)) ==>
              forall m: nat :: StallsWarmAt(env, inputCh, m) ==> m == n
    ensures Remembered(env, n + 1) == Next(Remembered(env, n), env(n))
  {
    hide *;
    ReachNext(env, inputCh, n);
    RememberedNext(env, n);
    StalledHere(env, inputCh, n);
    forall m: nat | StallsWarmAt(env, inputCh, m) && !(env(n).test < MaxWait && GoesOn(Remembered(env, n), env(n), inputCh))
      ensures m == n
    {
      OneEnd(env, inputCh, n, m);
    }
  }

  lemma ReachNext(env: Environment, inputCh: nat, n: nat)
    requires Reached(env, inputCh, n)
    ensures env(n).test < MaxWait && GoesOn(Remembered(env, n), env(n), inputCh) ==> Reached(env, inputCh, n + 1)
  {
    hide GoesOn, Next, Remembered;
  }

  lemma RememberedNext(env: Environment, n: nat)
    ensures Remembered(env, n + 1) == Next(Remembered(env, n), env(n))
  {
    hide Next;
  }

  lemma StalledHere(env: Environment, inputCh: nat, n: nat)
    requires Reached(env, inputCh, n)
    ensures StallsWarmAt(env, inputCh, n) <==> env(n).test < MaxWait && StalledWarm(Remembered(env, n), env(n))
  {
    hide GoesOn, Next, StalledWarm, Remembered;
  }

  lemma OneEnd(env: Environment, inputCh: nat, n: nat, m: nat)
    requires Reached(env, inputCh, n) && !(env(n).test < MaxWait && GoesOn(Remembered(env, n), env(n), inputCh))
    requires StallsWarmAt(env, inputCh, m)
    ensures m == n
  {
    hide GoesOn, StalledWarm, Remembered;
    StalledEnds(Remembered(env, m), env(m), inputCh);
  }

  // ----- a snapshot that is lost -----

  function Said(text: string): seq<Step> {
    [Step(15, "", text, "", "", "", [])]
  }

  /** Text comes; then a call that takes half a minute returns more of it. */
  function SlowCall(a: string, b: string): Environment {
    (n: nat) =>
      if n == 0 then Turn(0, false, Steps(Said(a)), 0, 0, Status(2), 0, false, 0, StepsHard)
      else Turn(30_000 * n - 29_000, false, Steps(Said(a + b)), 30_000 * n, 30_000 * n, Status(2), 0, false, 0, StepsHard)
  }

  /** The second snapshot has the answer in full, and the loop ends with what the first one had. */
  lemma SlowCallIsCutOff(a: string, b: string, inputCh: nat)
    requires |a| >= StallRetryMin && b != ""
    ensures var env := SlowCall(a, b);
            && Paced(env) && StallsWarmAt(env, inputCh, 1)
            && TextAfter(Remembered(env, 1).seen) == a
            && TextAfter(Remembered(env, 1).seen + [env(1).steps.steps]) == a + b
  {
    hide *;
    var env := SlowCall(a, b);
    SlowIsPaced(a, b);
    TextsSaid(a, b);
    FirstTurn(a, b);
    SecondTurn(a, b);
    NothingRemembered(env);
    FirstGoesOn(a, b, inputCh);
    SecondStalls(a, b);
    TwoTurns(env, inputCh);
    assert [Said(a)] + [Said(a + b)] == [Said(a), Said(a + b)];
  }

  lemma SlowIsPaced(a: string, b: string)
    ensures Paced(SlowCall(a, b))
  {
  }

  lemma SecondTurn(a: string, b: string)
    ensures SlowCall(a, b)(1).steps == Steps(Said(a + b))
  {
  }

  lemma SaidIsNoError(text: string)
    ensures FirstError(Said(text)).None?
  {
    assert FirstError(Said(text)[1..]).None?;
  }

  lemma FirstGoesOn(a: string, b: string, inputCh: nat)
    ensures var turn := SlowCall(a, b)(0); turn.test < MaxWait && GoesOn(AtStart, turn, inputCh)
  {
    SaidIsNoError(a);
    TextsSaid(a, b);
    hide FirstError, TextAfter;
  }

  lemma SecondStalls(a: string, b: string)
    requires |a| >= StallRetryMin
    ensures var env := SlowCall(a, b); env(1).test < MaxWait && StalledWarm(Remembered(env, 1), env(1))
  {
    SaidIsNoError(a + b);
    TextsSaid(a, b);
    FirstTurn(a, b);
    hide FirstError, TextAfter, Remembered;
  }

  lemma TwoTurns(env: Environment, inputCh: nat)
    requires Remembered(env, 0) == AtStart && env(0).test < MaxWait && GoesOn(AtStart, env(0), inputCh)
    requires env(1).test < MaxWait && StalledWarm(Remembered(env, 1), env(1))
    ensures StallsWarmAt(env, inputCh, 1)
  {
    hide GoesOn, StalledWarm, Remembered;
  }

  lemma NothingRemembered(env: Environment)
    ensures Remembered(env, 0) == AtStart
  {
  }

  lemma FirstTurn(a: string, b: string)
    requires |a| >= StallRetryMin
    ensures var m := Remembered(SlowCall(a, b), 1);
            m.seen == [Said(a)] && m.lastStatus == 2 && m.lastGrowthAt == 0 && m.sawActive
  {
    NothingRemembered(SlowCall(a, b));
    assert [] + [Said(a)] == [Said(a)];
  }

  lemma NewOfSaid(seen: seq<seq<Step>>, text: string)
    ensures NewText(seen, Said(text), 1) == Beyond(Passed(seen, 0), text)
    ensures Passed(seen + [Said(text)], 0) == Grow(Passed(seen, 0), text)
  {
    assert Live(Said(text)[0]) == text && (seen + [Said(text)])[..|seen|] == seen;
    hide Beyond, Grow;
    assert NewText(seen, Said(text), 0) == "";
  }

  lemma TextsSaid(a: string, b: string)
    ensures TextAfter([]) == "" && TextAfter([Said(a)]) == a && TextAfter([Said(a), Said(a + b)]) == a + b
  {
    assert TextAfter([]) == "" && Passed([], 0) == "";
    hide TextAfter, Passed, NewText, Said;
    TextAfterSnoc([], Said(a));
    TextAfterSnoc([Said(a)], Said(a + b));
    NewOfSaid([], a);
    NewOfSaid([Said(a)], a + b);
    SaidIsOne(a);
    SaidIsOne(a + b);
    assert [] + [Said(a)] == [Said(a)] && [Said(a)] + [Said(a + b)] == [Said(a), Said(a + b)];
  }

  lemma SaidIsOne(text: string)
    ensures |Said(text)| == 1
  {
  }
}
