/**
 The trajectory poll loop (`internal/client/client.go`, `pollCascade`). The language server, the
 clock and cancellation are answers read from an environment; everything else is as in the source.
 */
module CascadePoll {
  import opened Options
  import opened PollRules
  import opened PollTurns

  datatype Failure = Cancelled | StepsFailed | StepsGaveUp | StatusFailed | StatusGaveUp | Unparsable
                   | ErrorStep(text: string) | ColdStall | WarmStallRetry

  datatype Reason = MaxWaitReached | WarmStall | IdleDone | IdleEmpty

  datatype Outcome = Done(text: string, thinking: string, tools: seq<Tool>, reason: Reason) | Failed(why: Failure)

  /** What the caller holds of a step in the end, if all that was shown of it only grew. */
  ghost predicate Delivered(log: seq<Chunk>, seen: seq<seq<Step>>, sweep: seq<Step>, i: nat) {
    Delivers(TextOf(log, i), ThoughtOf(log, i), seen, sweep, i)
  }

  function Cursor(m: map<nat, nat>, i: nat): nat {
    if i in m then m[i] else 0
  }

  class Poller {
    var yielded: map<nat, nat>
    var thinkingBy: map<nat, nat>
    var seenToolIDs: set<string>
    var toolCalls: seq<Tool>
    var allText: string
    var allThinking: string
    var totalYielded: nat
    var totalThinking: nat
    var idleCount: nat
    var sawActive: bool
    var sawText: bool
    var lastStatus: nat
    var lastGrowthAt: int
    var lastStepCount: nat
    var stepsErrs: nat
    var statusErrs: nat
    /** The calls of `onChunk`, with the step each came from. */
    var log: seq<Chunk>

    /** The cursors and totals agree with what has been passed on. */
    ghost predicate Synced()
      reads this
    {
      && Cursors(log, yielded, thinkingBy)
      && allText == Texts(log) && allThinking == Thoughts(log)
      && totalYielded == |allText| && totalThinking == |allThinking|
    }

    /** Until the final sweep `sawText` tells whether any text was passed on. */
    ghost predicate Valid()
      reads this
    {
      Synced() && (sawText <==> allText != "")
    }

    /** All that the next turn depends on, given the snapshots taken in. */
    ghost function Memo(seen: seq<seq<Step>>): Memory
      reads this
    {
      Memory(seen, stepsErrs, statusErrs, idleCount, sawActive, lastStatus, lastGrowthAt, lastStepCount)
    }

    /** Before the first turn. */
    ghost predicate AtBeginning()
      reads this
    {
      Valid() && log == [] && allText == "" && toolCalls == [] && seenToolIDs == {} && Memo([]) == AtStart
    }

    constructor ()
      ensures AtBeginning()
      ensures Valid() && log == [] && toolCalls == [] && seenToolIDs == {} && stepsErrs == 0 && statusErrs == 0
    {
      yielded, thinkingBy, seenToolIDs, toolCalls := map[], map[], {}, [];
      allText, allThinking, totalYielded, totalThinking := "", "", 0, 0;
      idleCount, sawActive, sawText, lastStatus := 0, false, false, 0;
      lastGrowthAt, lastStepCount, stepsErrs, statusErrs, log := 0, 0, 0, 0, [];
    }

    method EmitText(i: nat, live: string)
      requires Synced() && |live| > |TextOf(log, i)|
      modifies this`log, this`yielded, this`allText, this`totalYielded
      ensures allText == old(allText) + Beyond(TextOf(old(log), i), live)
      ensures Synced() && allText != ""
      ensures Added(old(log), log, i, Grow(TextOf(old(log), i), live), ThoughtOf(old(log), i))
    {
      var delta := live[Cursor(yielded, i)..];
      LogSnoc(log, TextChunk(i, delta));
      log := log + [TextChunk(i, delta)];
      yielded := yielded[i := |live|];
      allText := allText + delta;
      totalYielded := totalYielded + |delta|;
    }

    method EmitThinking(i: nat, thinking: string)
      requires Synced() && |thinking| > |ThoughtOf(log, i)|
      modifies this`log, this`thinkingBy, this`allThinking, this`totalThinking
      ensures Synced() && Added(old(log), log, i, TextOf(old(log), i), Grow(ThoughtOf(old(log), i), thinking))
    {
      var delta := thinking[Cursor(thinkingBy, i)..];
      LogSnoc(log, ThinkingChunk(i, delta));
      log := log + [ThinkingChunk(i, delta)];
      thinkingBy := thinkingBy[i := |thinking|];
      allThinking := allThinking + delta;
      totalThinking := totalThinking + |delta|;
    }

    /** The tool calls of a step; those with a key seen before are passed over. */
    method CollectTools(tools: seq<Tool>, growAt: int, ghost before: seq<Tool>)
      requires Valid() && toolCalls == Dedup(before) && seenToolIDs == Keys(toolCalls)
      modifies this`toolCalls, this`seenToolIDs, this`lastGrowthAt
      ensures Valid() && toolCalls == Dedup(before + tools) && seenToolIDs == Keys(toolCalls)
      ensures lastGrowthAt == if Keys(tools) <= Keys(before) then old(lastGrowthAt) else growAt
    {
      hide Dedup, Keys, KeyOf, Cursors, Texts, Thoughts;
      assert before + tools[..0] == before;
      NoKeys();
      for n := 0 to |tools|
        invariant toolCalls == Dedup(before + tools[..n]) && seenToolIDs == Keys(toolCalls)
        invariant lastGrowthAt == if Keys(tools[..n]) <= Keys(before) then old(lastGrowthAt) else growAt
      {
        NextKey(before, tools, n);
        assert before + tools[..n + 1] == before + tools[..n] + [tools[n]];
        DedupSnoc(before + tools[..n], tools[n]);
        var key := KeyOf(tools[n]);
        if key !in seenToolIDs {
          KeysSnoc(toolCalls, tools[n]);
          seenToolIDs := seenToolIDs + {key};
          toolCalls := toolCalls + [tools[n]];
          lastGrowthAt := growAt;
        }
      }
      assert tools[..|tools|] == tools;
    }

    method ObserveStep(i: nat, step: Step, growAt: int, ghost before: seq<Tool>)
      requires Valid() && toolCalls == Dedup(before) && seenToolIDs == Keys(toolCalls)
      modifies this`toolCalls, this`seenToolIDs, this`lastGrowthAt,
               this`log, this`thinkingBy, this`allThinking, this`totalThinking,
               this`yielded, this`allText, this`totalYielded, this`sawText
      ensures Valid() && toolCalls == Dedup(before + step.tools) && seenToolIDs == Keys(toolCalls)
      ensures var live := if step.response != "" then step.response else step.text;
              allText == old(allText) + Beyond(TextOf(old(log), i), live)
      ensures lastGrowthAt ==
              if || !(Keys(step.tools) <= Keys(before))
                 || |step.thinking| > |ThoughtOf(old(log), i)| || |Live(step)| > |TextOf(old(log), i)|
              then growAt else old(lastGrowthAt)
      ensures var live := if step.response != "" then step.response else step.text;
              Added(old(log), log, i, Grow(TextOf(old(log), i), live), Grow(ThoughtOf(old(log), i), step.thinking))
    {
      hide Texts, Thoughts, TextOf, ThoughtOf, Dedup, Keys, Grow, Beyond, Valid;
      CollectTools(step.tools, growAt, before);
      ObserveThinking(i, step, growAt);
      ObserveText(i, step, growAt);
    }

    method ObserveThinking(i: nat, step: Step, growAt: int)
      requires Valid()
      modifies this`lastGrowthAt, this`log, this`thinkingBy, this`allThinking, this`totalThinking
      ensures Valid() && Added(old(log), log, i, TextOf(old(log), i), Grow(ThoughtOf(old(log), i), step.thinking))
      ensures lastGrowthAt == if |step.thinking| > |ThoughtOf(old(log), i)| then growAt else old(lastGrowthAt)
    {
      hide Texts, Thoughts, TextOf, ThoughtOf;
      if step.thinking != "" && |step.thinking| > Cursor(thinkingBy, i) {
        lastGrowthAt := growAt;
        EmitThinking(i, step.thinking);
      }
    }

    method ObserveText(i: nat, step: Step, growAt: int)
      requires Valid()
      modifies this`lastGrowthAt, this`log, this`yielded, this`allText, this`totalYielded, this`sawText
      ensures Valid() && Added(old(log), log, i, Grow(TextOf(old(log), i), Live(step)), ThoughtOf(old(log), i))
      ensures allText == old(allText) + Beyond(TextOf(old(log), i), Live(step))
      ensures lastGrowthAt == if |Live(step)| > |TextOf(old(log), i)| then growAt else old(lastGrowthAt)
    {
      hide Texts, Thoughts, TextOf, ThoughtOf;
      var live := step.response;
      if live == "" {
        live := step.text;
      }
      if live != "" && |live| > Cursor(yielded, i) {
        lastGrowthAt := growAt;
        sawText := true;
        EmitText(i, live);
      }
    }

    /** One snapshot, step by step. */
    method Observe(steps: seq<Step>, growAt: int, ghost seen: seq<seq<Step>>)
      requires Valid() && PassedOn(log, seen) && Collected(seen) && Told(seen)
      modifies this`toolCalls, this`seenToolIDs, this`lastGrowthAt,
               this`log, this`thinkingBy, this`allThinking, this`totalThinking,
               this`yielded, this`allText, this`totalYielded, this`sawText, this`lastStepCount
      ensures Valid() && PassedOn(log, seen + [steps]) && Collected(seen + [steps]) && Told(seen + [steps])
      ensures Memo(seen + [steps]).(stepsErrs := 0) == Watched(old(Memo(seen)), steps, growAt)
    {
      hide Texts, Thoughts, TextOf, ThoughtOf, Dedup, Keys, NewText, Grown, HalfPassed, PassedOn, Valid, TextAfter;
      CountSteps(steps, growAt);
      ghost var growth := lastGrowthAt;
      NothingObserved(log, seen, steps);
      assert allText == allText + "";
      for n := 0 to |steps|
        invariant Halfway(seen, steps, n, growAt, growth)
        invariant lastStepCount == if |steps| > old(lastStepCount) then |steps| else old(lastStepCount)
      {
        ObserveNext(steps, n, growAt, seen, growth);
      }
      AllObserved(log, seen, steps);
      TextAfterSnoc(seen, steps);
    }

    method CountSteps(steps: seq<Step>, growAt: int)
      requires Valid()
      modifies this`lastStepCount, this`lastGrowthAt
      ensures Valid()
      ensures lastStepCount == if |steps| > old(lastStepCount) then |steps| else old(lastStepCount)
      ensures lastGrowthAt == if |steps| > old(lastStepCount) then growAt else old(lastGrowthAt)
    {
      if |steps| > lastStepCount {
        lastStepCount := |steps|;
        lastGrowthAt := growAt;
      }
    }

    /** In the middle of a snapshot. */
    ghost predicate Halfway(seen: seq<seq<Step>>, steps: seq<Step>, n: nat, growAt: int, growth: int)
      requires n <= |steps|
      reads this
    {
      && Valid() && HalfPassed(log, seen, steps, n)
      && toolCalls == Dedup(AllTools(seen) + StepTools(steps[..n])) && seenToolIDs == Keys(toolCalls)
      && allText == TextAfter(seen) + NewText(seen, steps, n)
      && lastGrowthAt == if Grown(seen, steps, n) then growAt else growth
    }

    method ObserveNext(steps: seq<Step>, n: nat, growAt: int, ghost seen: seq<seq<Step>>, ghost growth: int)
      requires n < |steps| && Halfway(seen, steps, n, growAt, growth)
      modifies this`toolCalls, this`seenToolIDs, this`lastGrowthAt,
               this`log, this`thinkingBy, this`allThinking, this`totalThinking,
               this`yielded, this`allText, this`totalYielded, this`sawText
      ensures Halfway(seen, steps, n + 1, growAt, growth)
    {
      hide Texts, Thoughts, TextOf, ThoughtOf, Dedup, Keys, NewText;
      hide Grown, HalfPassed, Valid, TextAfter, Added, Grow, Beyond;
      ghost var log0 := log;
      ghost var before := AllTools(seen) + StepTools(steps[..n]);
      NextTools(AllTools(seen), steps, n);
      ObserveStep(n, steps[n], growAt, before);
      StepObserved(log0, log, seen, steps, n);
      StepIsNew(log0, seen, steps, n);
      Associate(TextAfter(seen), NewText(seen, steps, n), Beyond(TextOf(log0, n), Live(steps[n])));
    }

    /** The text passed on is that of the snapshots, in the order it came. */
    ghost predicate Told(seen: seq<seq<Step>>)
      reads this
    {
      allText == TextAfter(seen)
    }

    ghost predicate Collected(seen: seq<seq<Step>>)
      reads this
    {
      toolCalls == Dedup(AllTools(seen)) && seenToolIDs == Keys(toolCalls)
    }

    /** The final sweep with the top-up. */
    method SweepAll(steps: seq<Step>, ghost seen: seq<seq<Step>>)
      requires Synced() && PassedOn(log, seen)
      modifies this`log, this`yielded, this`allText, this`totalYielded
      ensures Synced() && SweptOn(log, seen, steps, |steps|)
      ensures old(allText) <= allText && (steps == [] ==> allText == old(allText))
    {
      hide Texts, Thoughts, TextOf, ThoughtOf;
      for n := 0 to |steps|
        invariant Synced() && SweptOn(log, seen, steps, n)
        invariant old(allText) <= allText && (n == 0 ==> allText == old(allText))
      {
        ghost var log0 := log;
        SweepStep(n, steps[n]);
        StepSwept(log0, log, seen, steps, n);
      }
    }

    method SweepStep(i: nat, step: Step)
      requires Synced()
      modifies this`log, this`yielded, this`allText, this`totalYielded
      ensures Synced() && Added(old(log), log, i, Swept(TextOf(old(log), i), step), ThoughtOf(old(log), i))
      ensures old(allText) <= allText
    {
      hide Texts, Thoughts, TextOf, ThoughtOf;
      if |step.response| > Cursor(yielded, i) {
        EmitText(i, step.response);
      }
      if |step.modified| > Cursor(yielded, i) && step.response <= step.modified {
        EmitText(i, step.modified);
      }
    }

    /**
     The loop. It makes at most 720 turns. Its text is the chunks passed on. Those of a step of which
     what was seen only grew join to its last text, and to the sweep's exactly where that extends it;
     in general they are what the snapshots and the sweep amount to. The tool calls are those
     seen, each key once. Giving up takes seven transient errors in a row of the call that failed.
     */
    method Run(env: Environment, inputCh: nat)
      returns (out: Outcome, ghost turns: nat, ghost seen: seq<seq<Step>>, ghost sweep: seq<Step>)
      requires AtBeginning() && Paced(env)
      modifies this
      ensures Synced() && turns <= 720
      ensures out.Done? ==>
                && IsResult(out) && Complete(seen, sweep)
                && (out.reason == WarmStall ==> turns > 0)
                && seen == Snapshots(env, if out.reason == WarmStall then turns - 1 else turns)
                && (sweep != [] ==> out.reason == IdleDone || out.reason == IdleEmpty)
                && (out.reason == MaxWaitReached ==> env(turns).test >= 180_000)
      ensures out.Done? && out.reason == WarmStall <==> exists n: nat :: StallsWarmAt(env, inputCh, n)
      ensures forall n: nat :: StallsWarmAt(env, inputCh, n) ==>
                turns == n + 1 && seen == Snapshots(env, n) && allText == TextAfter(seen)
      ensures out == Failed(StepsGaveUp) ==> Streak(env, turns) == 7
      ensures out == Failed(StatusGaveUp) ==> StatusStreak(env, turns) == 7
      ensures out == Failed(ColdStall) ==> allText == "" && toolCalls == []
      ensures out == Failed(WarmStallRetry) ==> 0 < |allText| < 300
      ensures out.Done? && out.reason == WarmStall ==> |allText| >= 300
      ensures out.Done? && out.reason == IdleDone ==> allText != ""
    {
      hide PassedOn, SweptOn, Dedup, Keys, AllTools, Complete, Collected, Told, Memo, Synced, TextAfter;
      hide GoesOn, StalledWarm, StalledCold, Stalled, Next;
      hide StallsWarmAt, Reached, Remembered, Streak, StatusStreak, Snapshots;
      var n: nat := 0;
      seen, sweep := [], [];
      Beginning(env, inputCh);
      var r: Option<Outcome> := None;
      while env(n).test < MaxWait
        invariant Valid() && PassedOn(log, seen) && Collected(seen) && Told(seen)
        invariant Memo(seen) == Remembered(env, n) && Reached(env, inputCh, n)
        invariant n <= 720 && sweep == []
        decreases 720 - n
      {
        WithinTime(env, n);
        EndsHere(env, inputCh, n);
        Counters(env, inputCh, n, seen);
        r, seen, sweep := TakeTurn(env(n), inputCh, seen);
        n := n + 1;
        if r.Some? {
          LastTurn(env, n - 1);
          if r.value.Done? {
            IsComplete(seen, sweep);
          }
          assert IsWarm(r) ==> allText == TextAfter(seen) by {
            if IsWarm(r) {
              ToldAll(seen);
            }
          }
          return r.value, n, seen, sweep;
        }
      }
      EndsHere(env, inputCh, n);
      Counters(env, inputCh, n, seen);
      Unswept(log, seen);
      assert TextAfter(seen) <= allText by { ToldAll(seen); }
      IsComplete(seen, sweep);
      out, turns := Done(allText, allThinking, toolCalls, MaxWaitReached), n;
    }

    /** All that was seen has been passed on, the sweep included, and every tool key once. */
    ghost predicate Complete(seen: seq<seq<Step>>, sweep: seq<Step>)
      reads this
    {
      && SweptOn(log, seen, sweep, |sweep|) && Collected(seen)
      && TextAfter(seen) <= allText && (sweep == [] ==> allText == TextAfter(seen))
      && (forall i: nat :: Delivered(log, seen, sweep, i))
      && OneOfEach(toolCalls, AllTools(seen))
    }

    lemma IsComplete(seen: seq<seq<Step>>, sweep: seq<Step>)
      requires SweptOn(log, seen, sweep, |sweep|) && Collected(seen)
      requires TextAfter(seen) <= allText
      requires sweep == [] ==> Told(seen)
      ensures Complete(seen, sweep)
    {
      hide SweptOn, Delivered, AllTools, TextAfter, OneOfEach, Dedup;
      AllDelivered(log, seen, sweep);
      DedupIsOneOfEach(AllTools(seen));
    }

    lemma ToldAll(seen: seq<seq<Step>>)
      requires Told(seen)
      ensures TextAfter(seen) == allText
    {
    }

    lemma Beginning(env: Environment, inputCh: nat)
      requires AtBeginning()
      ensures Valid() && PassedOn(log, []) && Collected([]) && Told([])
      ensures Memo([]) == Remembered(env, 0) && Reached(env, inputCh, 0)
    {
      NothingSeen();
    }

    lemma Counters(env: Environment, inputCh: nat, n: nat, seen: seq<seq<Step>>)
      requires Memo(seen) == Remembered(env, n) && Reached(env, inputCh, n)
      ensures seen == Snapshots(env, n)
      ensures stepsErrs == Streak(env, n) <= MaxTransient && statusErrs == StatusStreak(env, n) <= MaxTransient
    {
      StreaksAre(env, inputCh, n);
    }

    /** One turn: nothing to report yet, or the outcome. */
    method TakeTurn(turn: Turn, inputCh: nat, ghost seen: seq<seq<Step>>)
      returns (r: Option<Outcome>, ghost more: seq<seq<Step>>, ghost sweep: seq<Step>)
      requires Valid() && PassedOn(log, seen) && Collected(seen) && Told(seen)
      requires stepsErrs <= MaxTransient && statusErrs <= MaxTransient
      modifies this
      ensures Synced() && Reported(r, turn, seen, more, sweep)
      ensures r.None? <==> GoesOn(old(Memo(seen)), turn, inputCh)
      ensures r.None? ==>
                && Valid() && PassedOn(log, more) && Collected(more) && Told(more)
                && Memo(more) == Next(old(Memo(seen)), turn)
                && stepsErrs == (if turn.steps.StepsTransient? then old(stepsErrs) + 1 else 0) <= MaxTransient
                && statusErrs <= MaxTransient
      ensures r == Some(Failed(StepsGaveUp)) ==> turn.steps.StepsTransient? && old(stepsErrs) >= MaxTransient
      ensures r == Some(Failed(StatusGaveUp)) ==>
                turn.steps.Steps? && turn.status.StatusTransient? && old(statusErrs) >= MaxTransient
      ensures r.Some? ==> ExitFits(r.value)
      ensures r == Some(Failed(ColdStall)) <==> StalledCold(old(Memo(seen)), turn, inputCh)
      ensures IsWarm(r) <==> StalledWarm(old(Memo(seen)), turn)
      ensures r == Some(Failed(WarmStallRetry)) <==>
                Stalled(old(Memo(seen)), turn) && !StalledWarm(old(Memo(seen)), turn)
    {
      hide PassedOn, SweptOn, Texts, Thoughts, TextOf, ThoughtOf, Dedup, Keys, AllTools, FirstError, TextAfter, Cursors;
      more, sweep := seen, [];
      if turn.cancelled {
        return Some(Failed(Cancelled)), more, sweep;
      }
      match turn.steps
      case StepsHard =>
        return Some(Failed(StepsFailed)), more, sweep;
      case StepsTransient =>
        stepsErrs := stepsErrs + 1;
        if stepsErrs > MaxTransient {
          return Some(Failed(StepsGaveUp)), more, sweep;
        }
        lastGrowthAt := turn.growAt;
        if turn.retryCancelled {
          return Some(Failed(Cancelled)), more, sweep;
        }
        return None, more, sweep;
      case StepsUnparsable =>
        stepsErrs := 0;
        return Some(Failed(Unparsable)), more, sweep;
      case Steps(steps) =>
        r := CheckSnapshot(turn, inputCh, seen);
        if r.Some? {
          return r, more, sweep;
        }
        hide Valid, Collected;
        Observe(steps, turn.growAt, seen);
        more := seen + [steps];
        r, sweep := CheckStatus(turn, more);
    }

    /** A snapshot has come: an error step or a stall ends the loop before anything is taken from it. */
    method CheckSnapshot(turn: Turn, inputCh: nat, ghost seen: seq<seq<Step>>) returns (r: Option<Outcome>)
      requires Valid() && PassedOn(log, seen) && Collected(seen) && Told(seen)
      requires !turn.cancelled && turn.steps.Steps?
      modifies this`stepsErrs
      ensures Valid() && stepsErrs == 0
      ensures r.Some? && r.value.Failed? ==> r.value.why.ErrorStep? || r.value.why in {ColdStall, WarmStallRetry}
      ensures r.Some? ==> ExitFits(r.value)
      ensures r.Some? && r.value.Done? ==> IsWarm(r) && IsResult(r.value) && SweptOn(log, seen, [], 0)
      ensures var m := old(Memo(seen));
              && (r.None? <==> Answered(turn) && !StalledCold(m, turn, inputCh) && !Stalled(m, turn))
              && (r == Some(Failed(ColdStall)) <==> StalledCold(m, turn, inputCh))
              && (IsWarm(r) <==> StalledWarm(m, turn))
              && (r == Some(Failed(WarmStallRetry)) <==> Stalled(m, turn) && !StalledWarm(m, turn))
    {
      hide PassedOn, SweptOn, Texts, Thoughts, TextOf, ThoughtOf, Dedup, Keys, AllTools, FirstError, TextAfter, Cursors;
      stepsErrs := 0;
      var error := FirstError(turn.steps.steps);
      if error.Some? {
        return Some(Failed(ErrorStep(error.value)));
      }
      var coldStall := 30_000 + inputCh / 1500 * 5_000;
      if coldStall > MaxWait {
        coldStall := MaxWait;
      }
      KeysAreSeen(seen);
      if turn.stallAt > coldStall && sawActive && !sawText && |seenToolIDs| == 0 {
        NoKeysNoTools(toolCalls);
        return Some(Failed(ColdStall));
      }
      if sawText && lastStatus != 1 && turn.stallAt - lastGrowthAt > NoGrowthStall {
        if totalYielded < StallRetryMin {
          return Some(Failed(WarmStallRetry));
        }
        Unswept(log, seen);
        return Some(Done(allText, allThinking, toolCalls, WarmStall));
      }
      r := None;
    }

    /** The final sweep, if the last snapshot could be read. */
    method SweepUp(turn: Turn, ghost seen: seq<seq<Step>>) returns (ghost sweep: seq<Step>)
      requires Synced() && PassedOn(log, seen) && Told(seen)
      modifies this`log, this`yielded, this`allText, this`totalYielded
      ensures Synced() && SweptOn(log, seen, sweep, |sweep|)
      ensures old(allText) <= allText && TextAfter(seen) <= allText && (sweep == [] ==> Told(seen))
    {
      hide PassedOn, SweptOn, Texts, Thoughts, TextOf, ThoughtOf, TextAfter;
      sweep := [];
      Unswept(log, seen);
      if turn.sweep.Steps? {
        sweep := turn.sweep.steps;
        SweepAll(turn.sweep.steps, seen);
      }
    }

    /** The second half of a turn: the status, and once it has been idle long enough the sweep. */
    method CheckStatus(turn: Turn, ghost seen: seq<seq<Step>>) returns (r: Option<Outcome>, ghost sweep: seq<Step>)
      requires Valid() && PassedOn(log, seen) && Collected(seen) && Told(seen)
      requires statusErrs <= MaxTransient
      modifies this
      ensures Synced()
      ensures r.Some? && r.value.Failed? ==> r.value.why in {StatusFailed, StatusGaveUp, Cancelled}
      ensures r.None? <==> StatusGoesOn(old(Memo(seen)), turn)
      ensures r.None? ==>
                && Valid() && PassedOn(log, seen) && Collected(seen) && Told(seen) && sweep == []
                && Memo(seen) == Checked(old(Memo(seen)), turn) && statusErrs <= MaxTransient
      ensures r == Some(Failed(StatusGaveUp)) ==> turn.status.StatusTransient? && old(statusErrs) >= MaxTransient
      ensures r.Some? && r.value.Done? ==>
                && IsResult(r.value) && (r.value.reason == IdleDone || r.value.reason == IdleEmpty)
                && SweptOn(log, seen, sweep, |sweep|) && Collected(seen) && ExitFits(r.value)
                && TextAfter(seen) <= allText && (sweep == [] ==> Told(seen))
    {
      hide PassedOn, SweptOn, Texts, Thoughts, TextOf, ThoughtOf, Dedup, Keys, AllTools, TextAfter, Cursors;
      sweep := [];
      match turn.status
      case StatusHard =>
        return Some(Failed(StatusFailed)), sweep;
      case StatusTransient =>
        statusErrs := statusErrs + 1;
        if statusErrs > MaxTransient {
          return Some(Failed(StatusGaveUp)), sweep;
        }
        lastGrowthAt := turn.retryAt;
        if turn.retryCancelled {
          return Some(Failed(Cancelled)), sweep;
        }
        return None, sweep;
      case Status(status) =>
        statusErrs := 0;
        lastStatus := status;
        if status != 1 {
          sawActive := true;
          idleCount := 0;
          return None, sweep;
        }
        if !sawActive && turn.idleAt <= IdleGrace {
          return None, sweep;
        }
        idleCount := idleCount + 1;
        if !((sawText && idleCount >= 2) || (!sawText && idleCount >= 4)) {
          return None, sweep;
        }
        sweep := SweepUp(turn, seen);
        r := Some(Done(allText, allThinking, toolCalls, if sawText then IdleDone else IdleEmpty));
    }

    ghost predicate IsWarm(r: Option<Outcome>) {
      r.Some? && r.value.Done? && r.value.reason == WarmStall
    }

    /** The keys seen are those of the snapshots, and the calls kept are none only if these are none. */
    lemma KeysAreSeen(seen: seq<seq<Step>>)
      requires Collected(seen)
      ensures seenToolIDs == Keys(AllTools(seen)) && (|seenToolIDs| == 0 ==> seenToolIDs == {})
    {
      DedupKeepsEachKeyOnce(AllTools(seen));
    }

    /** A stall is reported as retriable only while little has been passed on. */
    ghost predicate ExitFits(o: Outcome)
      reads this
    {
      && (o == Failed(ColdStall) ==> allText == "" && toolCalls == [])
      && (o == Failed(WarmStallRetry) ==> 0 < |allText| < StallRetryMin)
      && (o.Done? && o.reason == WarmStall ==> |allText| >= StallRetryMin)
      && (o.Done? && o.reason == IdleDone ==> allText != "")
    }

    ghost predicate IsResult(o: Outcome)
      reads this
    {
      o.Done? && o.text == allText && o.thinking == allThinking && o.tools == toolCalls
    }

    /** How a turn relates to the snapshots: a warm stall ends the loop before its snapshot is taken in. */
    ghost predicate Reported(r: Option<Outcome>, turn: Turn, seen: seq<seq<Step>>, more: seq<seq<Step>>,
                             sweep: seq<Step>)
      reads this
    {
      match r
      case None => sweep == [] && more == seen + (if turn.steps.Steps? then [turn.steps.steps] else [])
      case Some(Failed(_)) => true
      case Some(o) =>
        && turn.steps.Steps?
        && more == (if o.reason == WarmStall then seen else seen + [turn.steps.steps])
        && IsResult(o) && SweptOn(log, more, sweep, |sweep|) && Collected(more)
        && TextAfter(more) <= allText && (sweep == [] ==> Told(more))
        && o.reason != MaxWaitReached && (sweep != [] ==> o.reason == IdleDone || o.reason == IdleEmpty)
    }
  }

  lemma Associate(a: string, b: string, c: string)
    ensures a + b + c == a + (b + c)
  {
  }

  lemma NoKeys()
    ensures Keys([]) == {}
  {
  }

  lemma NextKey(before: seq<Tool>, tools: seq<Tool>, n: nat)
    requires n < |tools|
    ensures Keys(Dedup(before + tools[..n])) == Keys(before) + Keys(tools[..n])
    ensures Keys(tools[..n + 1]) == Keys(tools[..n]) + {KeyOf(tools[n])}
  {
    assert tools[..n + 1] == tools[..n] + [tools[n]];
    KeysSnoc(tools[..n], tools[n]);
    DedupKeepsEachKeyOnce(before + tools[..n]);
    KeysConcat(before, tools[..n]);
  }

  lemma KeysConcat(a: seq<Tool>, b: seq<Tool>)
    ensures Keys(a + b) == Keys(a) + Keys(b)
  {
    forall k | k in Keys(a) + Keys(b)
      ensures k in Keys(a + b)
    {
      if k in Keys(a) {
        var t :| t in a && KeyOf(t) == k;
        assert t in a + b;
      } else {
        var t :| t in b && KeyOf(t) == k;
        assert t in a + b;
      }
    }
  }

  /** What the next step of a snapshot brings. */
  lemma StepIsNew(log: seq<Chunk>, seen: seq<seq<Step>>, steps: seq<Step>, n: nat)
    requires n < |steps| && HalfPassed(log, seen, steps, n)
    ensures NewText(seen, steps, n + 1) ==
            NewText(seen, steps, n) + Beyond(TextOf(log, n), Live(steps[n]))
    ensures Grown(seen, steps, n + 1) <==>
              || Grown(seen, steps, n) || !(Keys(steps[n].tools) <= Keys(AllTools(seen) + StepTools(steps[..n])))
              || |steps[n].thinking| > |ThoughtOf(log, n)| || |Live(steps[n])| > |TextOf(log, n)|
  {
    hide TextOf, ThoughtOf, Keys, Live;
    assert TextOf(log, n) == Passed(seen, n) && ThoughtOf(log, n) == Thought(seen, n);
  }

  lemma NoKeysNoTools(tools: seq<Tool>)
    ensures tools != [] ==> |Keys(tools)| > 0
  {
    if tools != [] {
      assert KeyOf(tools[0]) in Keys(tools);
    }
  }

  lemma NothingSeen()
    ensures PassedOn([], []) && Dedup(AllTools([])) == [] && Keys([]) == {} && TextAfter([]) == ""
  {
  }

  lemma Unswept(log: seq<Chunk>, seen: seq<seq<Step>>)
    requires PassedOn(log, seen)
    ensures SweptOn(log, seen, [], 0)
  {
    hide TextOf, ThoughtOf, Passed, Thought;
  }

  lemma AllDelivered(log: seq<Chunk>, seen: seq<seq<Step>>, sweep: seq<Step>)
    requires SweptOn(log, seen, sweep, |sweep|)
    ensures forall i: nat :: Delivered(log, seen, sweep, i)
  {
    hide TextOf, ThoughtOf, Final, Thought, Delivers;
    assert sweep[..|sweep|] == sweep;
    forall i: nat
      ensures Delivered(log, seen, sweep, i)
    {
      FinalDelivers(seen, sweep, i);
      assert TextOf(log, i) == Final(seen, sweep[..|sweep|], i) && ThoughtOf(log, i) == Thought(seen, i);
    }
  }

  lemma WithinTime(env: Environment, n: nat)
    requires Paced(env) && env(n).test < MaxWait
    ensures n < 720
  {
    AtLeast((k: nat) => env(k).test, n);
  }

  /** The chunks of every step so far make up what the snapshots say it should have passed on. */
  ghost predicate PassedOn(log: seq<Chunk>, seen: seq<seq<Step>>) {
    forall j: nat :: TextOf(log, j) == Passed(seen, j) && ThoughtOf(log, j) == Thought(seen, j)
  }

  /** The same in the middle of a snapshot, `n` of its steps being done. */
  ghost predicate HalfPassed(log: seq<Chunk>, seen: seq<seq<Step>>, steps: seq<Step>, n: nat)
    requires n <= |steps|
  {
    forall j: nat ::
      && TextOf(log, j) == (if j < n then Grow(Passed(seen, j), Live(steps[j])) else Passed(seen, j))
      && ThoughtOf(log, j) == (if j < n then Grow(Thought(seen, j), steps[j].thinking) else Thought(seen, j))
  }

  ghost predicate SweptOn(log: seq<Chunk>, seen: seq<seq<Step>>, sweep: seq<Step>, n: nat)
    requires n <= |sweep|
  {
    forall j: nat ::
      && TextOf(log, j) == Final(seen, sweep[..n], j)
      && ThoughtOf(log, j) == Thought(seen, j)
  }

  lemma NothingObserved(log: seq<Chunk>, seen: seq<seq<Step>>, steps: seq<Step>)
    requires PassedOn(log, seen)
    ensures HalfPassed(log, seen, steps, 0) && NewText(seen, steps, 0) == "" && !Grown(seen, steps, 0)
    ensures AllTools(seen) + StepTools(steps[..0]) == AllTools(seen)
  {
  }

  lemma StepObserved(before: seq<Chunk>, after: seq<Chunk>, seen: seq<seq<Step>>, steps: seq<Step>, n: nat)
    requires n < |steps| && HalfPassed(before, seen, steps, n)
    requires Added(before, after, n, Grow(TextOf(before, n), Live(steps[n])), Grow(ThoughtOf(before, n), steps[n].thinking))
    ensures HalfPassed(after, seen, steps, n + 1)
  {
    hide TextOf, ThoughtOf, Grow, Live, Passed, Thought;
  }

  lemma NextTools(before: seq<Tool>, steps: seq<Step>, n: nat)
    requires n < |steps|
    ensures before + StepTools(steps[..n + 1]) == before + StepTools(steps[..n]) + steps[n].tools
  {
    assert steps[..n + 1][..n] == steps[..n];
  }

  lemma AllObserved(log: seq<Chunk>, seen: seq<seq<Step>>, steps: seq<Step>)
    requires HalfPassed(log, seen, steps, |steps|)
    ensures PassedOn(log, seen + [steps])
    ensures AllTools(seen + [steps]) == AllTools(seen) + StepTools(steps) && steps[..|steps|] == steps
  {
    hide TextOf, ThoughtOf;
    assert (seen + [steps])[..|seen|] == seen;
  }

  lemma StepSwept(before: seq<Chunk>, after: seq<Chunk>, seen: seq<seq<Step>>, sweep: seq<Step>, n: nat)
    requires n < |sweep| && SweptOn(before, seen, sweep, n)
    requires Added(before, after, n, Swept(TextOf(before, n), sweep[n]), ThoughtOf(before, n))
    ensures SweptOn(after, seen, sweep, n + 1)
  {
    hide TextOf, ThoughtOf, Swept, Passed, Thought;
    forall j: nat
      ensures TextOf(after, j) == Final(seen, sweep[..n + 1], j) && ThoughtOf(after, j) == Thought(seen, j)
    {
      assert TextOf(before, j) == Final(seen, sweep[..n], j);
    }
  }

  ghost predicate Cursors(log: seq<Chunk>, yielded: map<nat, nat>, thinkingBy: map<nat, nat>) {
    forall i: nat :: Cursor(yielded, i) == |TextOf(log, i)| && Cursor(thinkingBy, i) == |ThoughtOf(log, i)|
  }

  /** Between two logs only step `i` changed, to this text and this thinking. */
  ghost predicate Added(before: seq<Chunk>, after: seq<Chunk>, i: nat, text: string, thinking: string) {
    && TextOf(after, i) == text && ThoughtOf(after, i) == thinking
    && forall j: nat :: j != i ==> TextOf(after, j) == TextOf(before, j) && ThoughtOf(after, j) == ThoughtOf(before, j)
  }
}
