/**
 * The checkpoint correlation coordinator of CheckpointManager.kt.
 *
 * The coordinator holds two timestamps and at most one pending, debounced
 * "human" task, and runs its checkpoint jobs on a single-threaded scheduler.
 * Time is passed in explicitly as `now` (milliseconds, never decreasing).
 * Jobs run atomically, one per `Tick`, in the scheduler's order (earliest
 * trigger time first). The checkpoint sink is a ghost log of what was
 * dispatched; one entry stands for the fan-out to every open project.
 *
 * Every operation is a pure step function on an `Engine` value.
 * `CheckpointManager` is the mutable object with the source's fields, and each
 * of its methods is proved to perform that step.
 */
module Coordinator {
  import opened Wrappers

  /** Window that correlates an AI log signal with a following file event. */
  const AI_SIGNAL_WINDOW_MS: int := 2000
  /** Human events are ignored for this long after an AI checkpoint finished. */
  const AI_GRACE_PERIOD_MS: int := 5000
  /** Delay of the debounced human checkpoint. */
  const HUMAN_DEBOUNCE_MS: int := 1500

  /** A checkpoint handed to the sink, with its dispatch time. */
  datatype Checkpoint = Human(at: int) | Ai(path: Option<string>, at: int)

  /** A submitted AI checkpoint job, waiting in the scheduler's queue. */
  datatype AiJob = AiJob(path: Option<string>, submittedAt: int)

  /**
   * The coordinator's state. `pendingHumanTask` holds the fire time of the
   * scheduled human task; `clock` is the latest time observed; `log` is the
   * sequence of checkpoints dispatched so far.
   */
  datatype Engine = Engine(
    lastAiSignalTime: int,
    lastAiCheckpointTime: int,
    pendingHumanTask: Option<int>,
    queue: seq<AiJob>,
    clock: int,
    log: seq<Checkpoint>)

  /** Both timestamps start at 0, nothing is scheduled and nothing was dispatched. */
  function Init(): Engine {
    Engine(0, 0, None, [], 0, [])
  }

  /** The inputs the coordinator reacts to: its four entry points and a scheduler step. */
  datatype Event =
    | Signal
    | FileChanged(path: string)
    | HumanRequested
    | AwsQRequested(filePath: Option<string>)
    | Tick

  datatype Timed = Timed(event: Event, at: int)

  /** What one scheduler step runs. */
  datatype Job = RunAiJob | FireHumanTask | Idle

  predicate CorrelatedWithAi(e: Engine, now: int) {
    now - e.lastAiSignalTime < AI_SIGNAL_WINDOW_MS
  }

  predicate InGracePeriod(e: Engine, now: int) {
    now - e.lastAiCheckpointTime < AI_GRACE_PERIOD_MS
  }

  /** `signalAiActivity`. */
  function SignalStep(e: Engine, now: int): Engine {
    e.(lastAiSignalTime := now, clock := now)
  }

  /** `requestHumanCheckpoint`: dropped in the grace period, otherwise cancel and replace. */
  function HumanRequestStep(e: Engine, now: int): Engine {
    if InGracePeriod(e, now) then e.(clock := now)
    else e.(pendingHumanTask := Some(now + HUMAN_DEBOUNCE_MS), clock := now)
  }

  /** `requestAwsQCheckpoint`: cancel the human task, submit an AI job. */
  function AwsQRequestStep(e: Engine, path: Option<string>, now: int): Engine {
    e.(pendingHumanTask := None, queue := e.queue + [AiJob(path, now)], clock := now)
  }

  /** `handleFileChange`: strict `<` on the correlation window. */
  function FileChangeStep(e: Engine, path: string, now: int): Engine {
    if CorrelatedWithAi(e, now) then AwsQRequestStep(e, Some(path), now)
    else HumanRequestStep(e, now)
  }

  /** The scheduler's choice: among the due jobs, the one with the earliest trigger time. */
  function NextJob(queue: seq<AiJob>, pending: Option<int>, now: int): Job {
    var aiDue := queue != [] && queue[0].submittedAt <= now;
    var humanDue := pending.Some? && pending.value <= now;
    if aiDue && (!humanDue || queue[0].submittedAt <= pending.value) then RunAiJob
    else if humanDue then FireHumanTask
    else Idle
  }

  /** The submitted AI job: dispatch, then record the completion time. */
  function AiJobStep(e: Engine, now: int): Engine
    requires e.queue != []
  {
    e.(queue := e.queue[1..],
       log := e.log + [Ai(e.queue[0].path, now)],
       lastAiCheckpointTime := now,
       clock := now)
  }

  /** `executeHumanCheckpoint`: the grace period is checked again at fire time. */
  function HumanTaskStep(e: Engine, now: int): Engine {
    e.(pendingHumanTask := None,
       log := if InGracePeriod(e, now) then e.log else e.log + [Human(now)],
       clock := now)
  }

  function TickStep(e: Engine, now: int): Engine {
    match NextJob(e.queue, e.pendingHumanTask, now)
    case RunAiJob => AiJobStep(e, now)
    case FireHumanTask => HumanTaskStep(e, now)
    case Idle => e.(clock := now)
  }

  function Step(e: Engine, ev: Event, now: int): Engine {
    match ev
    case Signal => SignalStep(e, now)
    case FileChanged(path) => FileChangeStep(e, path, now)
    case HumanRequested => HumanRequestStep(e, now)
    case AwsQRequested(path) => AwsQRequestStep(e, path, now)
    case Tick => TickStep(e, now)
  }

  /** The engine after the events of `tr`, in order. */
  function Run(e: Engine, tr: seq<Timed>): Engine
    decreases |tr|
  {
    if tr == [] then e
    else Step(Run(e, tr[..|tr| - 1]), tr[|tr| - 1].event, tr[|tr| - 1].at)
  }

  /** The times of `tr` never go back and start no earlier than `start`. */
  predicate Monotone(start: int, tr: seq<Timed>) {
    && (forall i :: 0 <= i < |tr| ==> start <= tr[i].at)
    && (forall i, j :: 0 <= i < j < |tr| ==> tr[i].at <= tr[j].at)
  }

  /** Every human checkpoint comes at least a grace period after every earlier AI checkpoint. */
  predicate GraceRespected(log: seq<Checkpoint>) {
    forall i, j :: 0 <= i < j < |log| && log[i].Ai? && log[j].Human? ==>
      log[j].at - log[i].at >= AI_GRACE_PERIOD_MS
  }

  /** The log is in dispatch order. */
  predicate Chronological(log: seq<Checkpoint>) {
    forall i, j :: 0 <= i < j < |log| ==> log[i].at <= log[j].at
  }

  /** The engine invariant. */
  predicate Consistent(e: Engine) {
    && e.lastAiSignalTime <= e.clock
    && e.lastAiCheckpointTime <= e.clock
    && (forall k :: 0 <= k < |e.queue| ==> e.queue[k].submittedAt <= e.clock)
    // a pending human task was scheduled after every queued AI job was submitted
    && (e.pendingHumanTask.Some? ==>
          forall k :: 0 <= k < |e.queue| ==>
            e.queue[k].submittedAt + HUMAN_DEBOUNCE_MS <= e.pendingHumanTask.value)
    && (forall k :: 0 <= k < |e.log| ==> e.log[k].at <= e.clock)
    && (forall k :: 0 <= k < |e.log| && e.log[k].Ai? ==> e.log[k].at <= e.lastAiCheckpointTime)
    && Chronological(e.log)
    && GraceRespected(e.log)
  }

  lemma InitConsistent()
    ensures Consistent(Init())
  {
  }

  /** Every step keeps the invariant, whatever the event, as long as time does not go back. */
  lemma StepKeepsConsistent(e: Engine, ev: Event, now: int)
    requires Consistent(e) && e.clock <= now
    ensures Consistent(Step(e, ev, now))
  {
    if ev.Tick? {
      match NextJob(e.queue, e.pendingHumanTask, now)
      case RunAiJob => AiJobKeepsConsistent(e, now);
      case FireHumanTask => HumanTaskKeepsConsistent(e, now);
      case Idle =>
    }
  }

  lemma AiJobKeepsConsistent(e: Engine, now: int)
    requires Consistent(e) && e.clock <= now
    requires NextJob(e.queue, e.pendingHumanTask, now) == RunAiJob
    ensures e.queue != [] && Consistent(AiJobStep(e, now))
  {
    var r := AiJobStep(e, now);
    assert forall k :: 0 <= k < |r.queue| ==> r.queue[k] == e.queue[k + 1];
    assert forall k :: 0 <= k < |e.log| ==> r.log[k] == e.log[k];
  }

  lemma HumanTaskKeepsConsistent(e: Engine, now: int)
    requires Consistent(e) && e.clock <= now
    requires NextJob(e.queue, e.pendingHumanTask, now) == FireHumanTask
    ensures Consistent(HumanTaskStep(e, now))
  {
    var r := HumanTaskStep(e, now);
    assert forall k :: 0 <= k < |e.log| ==> r.log[k] == e.log[k];
  }

  /** Queued AI jobs always run before the pending human task. */
  lemma AiJobsRunFirst(e: Engine, now: int)
    requires Consistent(e) && e.clock <= now && e.queue != []
    ensures NextJob(e.queue, e.pendingHumanTask, now) == RunAiJob
  {
  }

  /**
   * The mutable coordinator. Each method takes the current time; the fields
   * are those of CheckpointManager.kt, and `clock` and `log` are ghost
   * bookkeeping for monotone time and the dispatched checkpoints.
   */
  class CheckpointManager {
    var lastAiSignalTime: int
    var lastAiCheckpointTime: int
    var pendingHumanTask: Option<int>
    var queue: seq<AiJob>
    ghost var clock: int
    ghost var log: seq<Checkpoint>

    ghost function State(): Engine
      reads this
    {
      Engine(lastAiSignalTime, lastAiCheckpointTime, pendingHumanTask, queue, clock, log)
    }

    ghost predicate Valid()
      reads this
    {
      Consistent(State())
    }

    constructor ()
      ensures State() == Init() && Valid()
    {
      lastAiSignalTime := 0;
      lastAiCheckpointTime := 0;
      pendingHumanTask := None;
      queue := [];
      clock := 0;
      log := [];
    }

    /** Records the time of an AI log signal; nothing is scheduled or cancelled. */
    method SignalAiActivity(now: int)
      requires Valid() && clock <= now
      modifies this
      ensures Valid() && clock == now
      ensures lastAiSignalTime == now
      ensures lastAiCheckpointTime == old(lastAiCheckpointTime)
      ensures pendingHumanTask == old(pendingHumanTask) && queue == old(queue) && log == old(log)
      ensures State() == SignalStep(old(State()), now)
    {
      StepKeepsConsistent(State(), Signal, now);
      lastAiSignalTime := now;
      clock := now;
    }

    /** Classifies a file change as AI (within the signal window) or human. */
    method HandleFileChange(filePath: string, now: int)
      requires Valid() && clock <= now
      modifies this
      ensures Valid() && clock == now
      ensures old(now - lastAiSignalTime) < AI_SIGNAL_WINDOW_MS ==>
        pendingHumanTask == None && queue == old(queue) + [AiJob(Some(filePath), now)]
      ensures old(now - lastAiSignalTime) >= AI_SIGNAL_WINDOW_MS ==>
        queue == old(queue) &&
        pendingHumanTask == (if old(now - lastAiCheckpointTime) < AI_GRACE_PERIOD_MS
                             then old(pendingHumanTask) else Some(now + HUMAN_DEBOUNCE_MS))
      ensures lastAiSignalTime == old(lastAiSignalTime)
      ensures lastAiCheckpointTime == old(lastAiCheckpointTime) && log == old(log)
      ensures State() == FileChangeStep(old(State()), filePath, now)
    {
      var timeSinceAi := now - lastAiSignalTime;
      if timeSinceAi < AI_SIGNAL_WINDOW_MS {
        RequestAwsQCheckpoint(Some(filePath), now);
      } else {
        RequestHumanCheckpoint(now);
      }
    }

    /** Debounced human checkpoint request: dropped in the grace period, else cancel and replace. */
    method RequestHumanCheckpoint(now: int)
      requires Valid() && clock <= now
      modifies this
      ensures Valid() && clock == now
      ensures now - old(lastAiCheckpointTime) < AI_GRACE_PERIOD_MS ==>
        pendingHumanTask == old(pendingHumanTask)
      ensures now - old(lastAiCheckpointTime) >= AI_GRACE_PERIOD_MS ==>
        pendingHumanTask == Some(now + HUMAN_DEBOUNCE_MS)
      ensures lastAiSignalTime == old(lastAiSignalTime)
      ensures lastAiCheckpointTime == old(lastAiCheckpointTime)
      ensures queue == old(queue) && log == old(log)
      ensures State() == HumanRequestStep(old(State()), now)
    {
      StepKeepsConsistent(State(), HumanRequested, now);
      clock := now;
      if now - lastAiCheckpointTime < AI_GRACE_PERIOD_MS {
        return;
      }
      // A pending human task (if any) is cancelled by being replaced.
      pendingHumanTask := Some(now + HUMAN_DEBOUNCE_MS);
    }

    /** AI checkpoint request: cancels the pending human task and submits one AI job. */
    method RequestAwsQCheckpoint(filePath: Option<string>, now: int)
      requires Valid() && clock <= now
      modifies this
      ensures Valid() && clock == now
      ensures pendingHumanTask == None
      ensures queue == old(queue) + [AiJob(filePath, now)]
      ensures lastAiSignalTime == old(lastAiSignalTime)
      ensures lastAiCheckpointTime == old(lastAiCheckpointTime) && log == old(log)
      ensures State() == AwsQRequestStep(old(State()), filePath, now)
    {
      StepKeepsConsistent(State(), AwsQRequested(filePath), now);
      pendingHumanTask := None;
      queue := queue + [AiJob(filePath, now)];
      clock := now;
    }

    /** One step of the single-threaded scheduler: runs the next due job, if any. */
    method Tick(now: int) returns (job: Job)
      requires Valid() && clock <= now
      modifies this
      ensures Valid() && clock == now
      ensures job == NextJob(old(queue), old(pendingHumanTask), now)
      ensures old(queue) != [] ==> job == RunAiJob
      ensures lastAiSignalTime == old(lastAiSignalTime)
      ensures job != RunAiJob ==> lastAiCheckpointTime == old(lastAiCheckpointTime)
      ensures State() == TickStep(old(State()), now)
    {
      StepKeepsConsistent(State(), Event.Tick, now);
      if queue != [] {
        AiJobsRunFirst(State(), now);
      }
      job := NextJob(queue, pendingHumanTask, now);
      match job
      case RunAiJob => RunNextAiJob(now);
      case FireHumanTask => ExecuteHumanCheckpoint(now);
      case Idle => clock := now;
    }

    /** The submitted job: dispatch to the sink first, then set `lastAiCheckpointTime`. */
    method RunNextAiJob(now: int)
      requires queue != []
      modifies this
      ensures queue == old(queue[1..])
      ensures log == old(log) + [Ai(old(queue[0].path), now)]
      ensures lastAiCheckpointTime == now && clock == now
      ensures lastAiSignalTime == old(lastAiSignalTime) && pendingHumanTask == old(pendingHumanTask)
      ensures State() == AiJobStep(old(State()), now)
    {
      var job := queue[0];
      queue := queue[1..];
      log := log + [Ai(job.path, now)];
      lastAiCheckpointTime := now;
      clock := now;
    }

    /** The debounced task firing: dispatches a human checkpoint unless the grace period began. */
    method ExecuteHumanCheckpoint(now: int)
      requires pendingHumanTask.Some? && pendingHumanTask.value <= now
      modifies this
      ensures pendingHumanTask == None && clock == now
      ensures log == if old(now - lastAiCheckpointTime) < AI_GRACE_PERIOD_MS
                     then old(log) else old(log) + [Human(now)]
      ensures lastAiSignalTime == old(lastAiSignalTime)
      ensures lastAiCheckpointTime == old(lastAiCheckpointTime) && queue == old(queue)
      ensures State() == HumanTaskStep(old(State()), now)
    {
      pendingHumanTask := None;
      clock := now;
      if now - lastAiCheckpointTime < AI_GRACE_PERIOD_MS {
        return;
      }
      log := log + [Human(now)];
    }
  }
}
