/**
 * Properties of the coordinator over whole runs: the invariant, the grace
 * period, debouncing of human bursts, preemption by AI requests, eager AI
 * dispatch, and four concrete timelines: a signal followed by an edit, a
 * burst of human edits, a human request inside the grace period, and an AI
 * event that overtakes a pending human checkpoint.
 */
module CoordinatorProperties {
  import opened Wrappers
  import opened Coordinator

  lemma RunLast(e: Engine, tr: seq<Timed>, x: Timed)
    ensures Run(e, tr + [x]) == Step(Run(e, tr), x.event, x.at)
  {
    assert (tr + [x])[..|tr|] == tr;
  }

  lemma RunClock(e: Engine, tr: seq<Timed>)
    ensures Run(e, tr).clock == if tr == [] then e.clock else tr[|tr| - 1].at
  {
  }

  lemma MonotonePrefix(start: int, tr: seq<Timed>, n: nat)
    requires Monotone(start, tr) && n <= |tr|
    ensures Monotone(start, tr[..n])
  {
  }

  /** The invariant holds after any run whose times never go back. */
  lemma {:induction false} RunKeepsConsistent(e: Engine, tr: seq<Timed>)
    requires Consistent(e) && Monotone(e.clock, tr)
    ensures Consistent(Run(e, tr))
    decreases |tr|
  {
    if tr != [] {
      var n := |tr| - 1;
      MonotonePrefix(e.clock, tr, n);
      RunKeepsConsistent(e, tr[..n]);
      RunClock(e, tr[..n]);
      StepKeepsConsistent(Run(e, tr[..n]), tr[n].event, tr[n].at);
    }
  }

  /**
   * Grace period, over the whole history from the initial state: every human
   * checkpoint is dispatched at least 5000 ms after every earlier AI checkpoint,
   * and the dispatched checkpoints are in time order.
   */
  lemma GraceAlwaysRespected(tr: seq<Timed>)
    requires Monotone(0, tr)
    ensures GraceRespected(Run(Init(), tr).log)
    ensures Chronological(Run(Init(), tr).log)
  {
    InitConsistent();
    RunKeepsConsistent(Init(), tr);
  }

  /** Dispatched checkpoints are never withdrawn: the log only grows. */
  lemma {:induction false} LogOnlyGrows(e: Engine, tr: seq<Timed>)
    ensures |e.log| <= |Run(e, tr).log| && Run(e, tr).log[..|e.log|] == e.log
    decreases |tr|
  {
    if tr != [] {
      var n := |tr| - 1;
      LogOnlyGrows(e, tr[..n]);
      var before := Run(e, tr[..n]);
      var after := Step(before, tr[n].event, tr[n].at);
      assert after.log == before.log || after.log[..|before.log|] == before.log;
      assert after.log[..|before.log|][..|e.log|] == after.log[..|e.log|];
    }
  }

  /** `lastAiCheckpointTime` never goes back over a run. */
  lemma {:induction false} AiCheckpointTimeGrows(e: Engine, tr: seq<Timed>)
    requires Consistent(e) && Monotone(e.clock, tr)
    ensures e.lastAiCheckpointTime <= Run(e, tr).lastAiCheckpointTime
    decreases |tr|
  {
    if tr != [] {
      var n := |tr| - 1;
      MonotonePrefix(e.clock, tr, n);
      AiCheckpointTimeGrows(e, tr[..n]);
      RunKeepsConsistent(e, tr[..n]);
      RunClock(e, tr[..n]);
      StepAiCheckpointTimeGrows(Run(e, tr[..n]), tr[n].event, tr[n].at);
    }
  }

  lemma StepAiCheckpointTimeGrows(e: Engine, ev: Event, now: int)
    requires Consistent(e) && e.clock <= now
    ensures e.lastAiCheckpointTime <= Step(e, ev, now).lastAiCheckpointTime
  {
  }

  /**
   * Grace period, from any reachable state: a human checkpoint dispatched by a
   * later run is at least 5000 ms after the last completed AI checkpoint.
   */
  lemma {:induction false} NoHumanCheckpointWithinGrace(e: Engine, tr: seq<Timed>)
    requires Consistent(e) && Monotone(e.clock, tr)
    ensures |e.log| <= |Run(e, tr).log|
    ensures forall k :: |e.log| <= k < |Run(e, tr).log| && Run(e, tr).log[k].Human? ==>
      Run(e, tr).log[k].at - e.lastAiCheckpointTime >= AI_GRACE_PERIOD_MS
    decreases |tr|
  {
    LogOnlyGrows(e, tr);
    if tr != [] {
      var n := |tr| - 1;
      MonotonePrefix(e.clock, tr, n);
      NoHumanCheckpointWithinGrace(e, tr[..n]);
      AiCheckpointTimeGrows(e, tr[..n]);
      var before := Run(e, tr[..n]);
      var after := Run(e, tr);
      assert after == Step(before, tr[n].event, tr[n].at);
      LogOnlyGrows(e, tr[..n]);
      forall k | |e.log| <= k < |after.log| && after.log[k].Human?
        ensures after.log[k].at - e.lastAiCheckpointTime >= AI_GRACE_PERIOD_MS
      {
        if k < |before.log| {
          assert after.log[k] == before.log[k] by {
            assert after.log == before.log || after.log == before.log + [after.log[|after.log| - 1]];
          }
        } else {
          // the entry was appended by this step: a human task fired outside the grace period
          assert tr[n].event.Tick?;
          assert after.log[k] == Human(tr[n].at);
          assert !InGracePeriod(before, tr[n].at);
        }
      }
    }
  }

  /** The time of the latest human request in `tr`, if any. */
  function LastRequestAt(tr: seq<Timed>): Option<int>
    decreases |tr|
  {
    if tr == [] then None
    else if tr[|tr| - 1].event.HumanRequested? then Some(tr[|tr| - 1].at)
    else LastRequestAt(tr[..|tr| - 1])
  }

  /**
   * A burst of human requests, with scheduler steps in between that all come
   * before the latest request's debounce delay has elapsed.
   */
  predicate QuietBurst(tr: seq<Timed>) {
    forall i :: 0 <= i < |tr| ==>
      || tr[i].event.HumanRequested?
      || (tr[i].event.Tick? && LastRequestAt(tr[..i]).Some? &&
          tr[i].at < LastRequestAt(tr[..i]).value + HUMAN_DEBOUNCE_MS)
  }

  /**
   * Debounce: a burst of human requests outside the grace period dispatches
   * nothing and leaves exactly one pending task, due 1500 ms after the last request.
   */
  lemma {:induction false} BurstCoalesces(e: Engine, tr: seq<Timed>)
    requires e.queue == [] && tr != [] && QuietBurst(tr) && Monotone(e.clock, tr)
    requires tr[0].at - e.lastAiCheckpointTime >= AI_GRACE_PERIOD_MS
    ensures LastRequestAt(tr).Some? && tr[0].at <= LastRequestAt(tr).value
    ensures Run(e, tr).pendingHumanTask == Some(LastRequestAt(tr).value + HUMAN_DEBOUNCE_MS)
    ensures Run(e, tr).log == e.log && Run(e, tr).queue == []
    ensures Run(e, tr).lastAiCheckpointTime == e.lastAiCheckpointTime
    decreases |tr|
  {
    var n := |tr| - 1;
    assert tr[..0] == [];
    if n == 0 {
      assert tr[0].event.HumanRequested?;
      assert Run(e, tr) == HumanRequestStep(Run(e, tr[..0]), tr[0].at);
    } else {
      var p := tr[..n];
      assert forall i :: 0 <= i < n ==> p[i] == tr[i] && p[..i] == tr[..i];
      assert QuietBurst(p);
      MonotonePrefix(e.clock, tr, n);
      BurstCoalesces(e, p);
      if !tr[n].event.HumanRequested? {
        assert tr[n].event.Tick? && tr[..n] == p;
      }
    }
  }

  /** ... and when that task's time comes, exactly one human checkpoint is dispatched. */
  lemma BurstFiresOnce(e: Engine, tr: seq<Timed>, t: int)
    requires e.queue == [] && tr != [] && QuietBurst(tr) && Monotone(e.clock, tr)
    requires tr[0].at - e.lastAiCheckpointTime >= AI_GRACE_PERIOD_MS
    requires LastRequestAt(tr).Some? && t >= LastRequestAt(tr).value + HUMAN_DEBOUNCE_MS
    ensures Run(e, tr + [Timed(Tick, t)]).log == e.log + [Human(t)]
    ensures Run(e, tr + [Timed(Tick, t)]).pendingHumanTask == None
  {
    BurstCoalesces(e, tr);
    RunLast(e, tr, Timed(Tick, t));
  }

  /** No event in `tr` can schedule a human task. */
  predicate NoHumanEvents(tr: seq<Timed>) {
    forall i :: 0 <= i < |tr| ==> !tr[i].event.HumanRequested? && !tr[i].event.FileChanged?
  }

  /**
   * Preemption: after an AI request, a run without human events dispatches no
   * human checkpoint, so the cancelled task never fires.
   */
  lemma {:induction false} CancelledTaskNeverFires(e: Engine, p: Option<string>, now: int, tr: seq<Timed>)
    requires NoHumanEvents(tr)
    ensures var r := Run(AwsQRequestStep(e, p, now), tr);
      |e.log| <= |r.log| && r.log[..|e.log|] == e.log &&
      r.pendingHumanTask == None &&
      forall k :: |e.log| <= k < |r.log| ==> r.log[k].Ai?
    decreases |tr|
  {
    var s := AwsQRequestStep(e, p, now);
    LogOnlyGrows(s, tr);
    if tr != [] {
      var n := |tr| - 1;
      assert NoHumanEvents(tr[..n]) by {
        assert forall i :: 0 <= i < n ==> tr[..n][i] == tr[i];
      }
      CancelledTaskNeverFires(e, p, now, tr[..n]);
      var before := Run(s, tr[..n]);
      var after := Run(s, tr);
      assert after == Step(before, tr[n].event, tr[n].at);
      assert after.log == before.log || after.log == before.log + [after.log[|after.log| - 1]];
    }
  }

  /** The AI jobs submitted by the requests of `tr`, in order. */
  function Submitted(tr: seq<Timed>): seq<AiJob>
    requires forall i :: 0 <= i < |tr| ==> tr[i].event.AwsQRequested?
  {
    seq(|tr|, i requires 0 <= i < |tr| => AiJob(tr[i].event.filePath, tr[i].at))
  }

  /**
   * AI requests are never debounced: each one submits its own job, in order,
   * and none of them dispatches anything by itself.
   */
  lemma {:induction false} AiRequestsNeverCoalesce(e: Engine, tr: seq<Timed>)
    requires forall i :: 0 <= i < |tr| ==> tr[i].event.AwsQRequested?
    ensures Run(e, tr).queue == e.queue + Submitted(tr)
    ensures Run(e, tr).log == e.log
    ensures tr != [] ==> Run(e, tr).pendingHumanTask == None
    decreases |tr|
  {
    if tr != [] {
      var n := |tr| - 1;
      var p := tr[..n];
      assert forall i :: 0 <= i < n ==> p[i] == tr[i];
      AiRequestsNeverCoalesce(e, p);
      assert Submitted(tr) == Submitted(p) + [AiJob(tr[n].event.filePath, tr[n].at)];
    }
  }

  /** The AI checkpoints that the jobs `q` dispatch when run at the times of `tr`. */
  function Dispatched(q: seq<AiJob>, tr: seq<Timed>): seq<Checkpoint>
    requires |tr| <= |q|
  {
    seq(|tr|, i requires 0 <= i < |tr| => Ai(q[i].path, tr[i].at))
  }

  /**
   * Scheduler steps drain the AI queue first and in submission order: each
   * step dispatches the next job's checkpoint with its path.
   */
  lemma {:induction false} TicksDrainAiQueue(e: Engine, tr: seq<Timed>)
    requires Consistent(e) && Monotone(e.clock, tr) && |tr| <= |e.queue|
    requires forall i :: 0 <= i < |tr| ==> tr[i].event.Tick?
    ensures Run(e, tr).log == e.log + Dispatched(e.queue, tr)
    ensures Run(e, tr).queue == e.queue[|tr|..]
    ensures tr != [] ==> Run(e, tr).lastAiCheckpointTime == tr[|tr| - 1].at
    decreases |tr|
  {
    if tr != [] {
      var n := |tr| - 1;
      var p := tr[..n];
      assert forall i :: 0 <= i < n ==> p[i] == tr[i];
      MonotonePrefix(e.clock, tr, n);
      TicksDrainAiQueue(e, p);
      var before := Run(e, p);
      assert before.queue == e.queue[n..] && before.queue != [];
      NextTickRunsAiJob(e, tr);
      assert before.queue[0] == e.queue[n];
      DispatchedLast(e.queue, tr);
      assert e.queue[n..][1..] == e.queue[n + 1..];
    }
  }

  /** A tick after a run with AI jobs queued runs the first of them. */
  lemma {:induction false} NextTickRunsAiJob(e: Engine, tr: seq<Timed>)
    requires Consistent(e) && Monotone(e.clock, tr) && tr != [] && tr[|tr| - 1].event.Tick?
    requires Run(e, tr[..|tr| - 1]).queue != []
    ensures Run(e, tr) == AiJobStep(Run(e, tr[..|tr| - 1]), tr[|tr| - 1].at)
  {
    var n := |tr| - 1;
    MonotonePrefix(e.clock, tr, n);
    RunKeepsConsistent(e, tr[..n]);
    RunClock(e, tr[..n]);
    AiJobsRunFirst(Run(e, tr[..n]), tr[n].at);
  }

  lemma DispatchedLast(q: seq<AiJob>, tr: seq<Timed>)
    requires 0 < |tr| <= |q|
    ensures Dispatched(q, tr) == Dispatched(q, tr[..|tr| - 1]) + [Ai(q[|tr| - 1].path, tr[|tr| - 1].at)]
  {
  }

  /** The correlation window is strict: a file change exactly 2000 ms after the signal is human. */
  lemma WindowBoundaryIsHuman(e: Engine, path: string)
    ensures FileChangeStep(e, path, e.lastAiSignalTime + AI_SIGNAL_WINDOW_MS)
         == HumanRequestStep(e, e.lastAiSignalTime + AI_SIGNAL_WINDOW_MS)
    ensures FileChangeStep(e, path, e.lastAiSignalTime + AI_SIGNAL_WINDOW_MS - 1)
         == AwsQRequestStep(e, Some(path), e.lastAiSignalTime + AI_SIGNAL_WINDOW_MS - 1)
  {
  }

  // The timelines below start at a time T far enough from the initial
  // timestamps (both 0) that neither window is open at the start.

  /** A signal, then a file change 500 ms later, is one AI checkpoint for that path. */
  lemma CorrelatedEditIsAi(T: int)
    requires T >= AI_GRACE_PERIOD_MS
    ensures var e1 := Step(Init(), Signal, T);
      var e2 := Step(e1, FileChanged("/repo/a.txt"), T + 500);
      var e3 := Step(e2, Tick, T + 500);
      e2.queue == [AiJob(Some("/repo/a.txt"), T + 500)] && e2.pendingHumanTask == None &&
      e3.log == [Ai(Some("/repo/a.txt"), T + 500)]
  {
  }

  /** Two human file changes 800 ms apart give one human checkpoint at T + 2300. */
  lemma HumanBurstFiresOnce(T: int)
    requires T >= AI_GRACE_PERIOD_MS
    ensures var e1 := Step(Init(), FileChanged("/repo/b.txt"), T);
      var e2 := Step(e1, FileChanged("/repo/c.txt"), T + 800);
      var e3 := Step(e2, Tick, T + 1500);
      var e4 := Step(e3, Tick, T + 2300);
      e1.pendingHumanTask == Some(T + 1500) && e2.pendingHumanTask == Some(T + 2300) &&
      e3.log == [] && e4.log == [Human(T + 2300)] && e4.pendingHumanTask == None
  {
  }

  /** A human command 3000 ms after an AI checkpoint completed is dropped. */
  lemma HumanWithinGraceDropped(T: int)
    requires T >= AI_GRACE_PERIOD_MS
    ensures var e1 := Step(Step(Init(), AwsQRequested(None), T), Tick, T);
      var e2 := Step(e1, HumanRequested, T + 3000);
      var e3 := Step(e2, Tick, T + 4500);
      e1.lastAiCheckpointTime == T && e2.pendingHumanTask == None &&
      e3.log == [Ai(None, T)]
  {
  }

  /** An AI event at T + 1000 preempts the human task due at T + 1500. */
  lemma AiPreemptsPendingHuman(T: int)
    requires T >= AI_GRACE_PERIOD_MS
    ensures var e1 := Step(Init(), HumanRequested, T);
      var e2 := Step(Step(e1, Signal, T + 1000), FileChanged("/repo/d.txt"), T + 1000);
      var e3 := Step(e2, Tick, T + 1000);
      var e4 := Step(e3, Tick, T + 1500);
      e1.pendingHumanTask == Some(T + 1500) && e2.pendingHumanTask == None &&
      e3.log == [Ai(Some("/repo/d.txt"), T + 1000)] && e4.log == e3.log
  {
  }
}
