/**
 * The queue's behaviour as functions on its state. The class in module
 * AsyncQueue performs each operation step by step on its fields, and each of
 * its methods is proved to leave exactly the state the matching function
 * here computes. Locks, timers and promises are gone: an operation that would
 * wait reports that it is blocked and changes nothing it would not have
 * changed before waiting.
 */
module QueueModel {
  import opened Wrappers
  import opened QueueTypes

  /** The read-only part of a queue, fixed by its constructor. */
  datatype Setup<!T, R> = Setup(
    worker: Option<Worker<T, R>>,
    queueSizeLimit: Option<int>,
    buffSizeLimit: Option<int>,
    workPolicy: Option<PolicyKind>)

  /**
   * The part the operations update: the pending tasks, the result buffer, the
   * in-work counter, whether a push is followed by a dispatch step, how many
   * periodic timers are running, and the cleared flag.
   */
  datatype QState<!T, R> = QState(
    queue: seq<Task<T, R>>,
    buff: seq<R>,
    inWork: int,
    afterPush: bool,
    liveTimers: nat,
    cleared: bool)

  /** What an operation reports, with the state it leaves behind. */
  datatype Step<O, !T, R> = Step(outcome: O, next: QState<T, R>)

  /** How a single push ends: appended, waiting at a size limit, or refused for want of a worker. */
  datatype PushOutcome = Pushed | Blocked | MissingWorker

  /** How a push call ends, and how many payloads it appended to the pending list. */
  datatype Submitted = Submitted(outcome: PushOutcome, placed: nat)

  /** How a dispatch step ends: nothing pending, the head task lost for want of a worker, or results buffered. */
  datatype WorkOutcome = Idle | WorkerMissing | Delivered(count: nat)

  /** The results a multi-get collected, and whether it got all it asked for. */
  datatype Taken<R> = Taken(items: seq<R>, complete: bool)

  // ---------------------------------------------------------------------------
  // Construction

  /** The policy a configuration selects once the default 'after-add' is spread under it. */
  function EffectivePolicy(f: PolicyField): Option<PolicyKind>
  {
    match f
    case Omitted => Some(AfterAdd)
    case Undefined => None
    case Chosen(k) => Some(k)
  }

  /** How many periodic timers the constructor starts for a policy. */
  function TimerCount(policy: Option<PolicyKind>, groupSize: Option<int>): nat
  {
    if policy == Some(AsyncCycleOne) then 1
    else if policy == Some(AsyncCycleMany) && groupSize.Some? && groupSize.value > 0 then groupSize.value
    else 0
  }

  function SetupOf<T, R>(c: Config<T, R>): Setup<T, R>
  {
    Setup(c.worker, c.queueSizeLimit, c.buffSizeLimit, EffectivePolicy(c.workPolicy))
  }

  /** The state a freshly built queue has. */
  function Initial<T, R>(c: Config<T, R>): (s: QState<T, R>)
    ensures s.queue == [] && s.buff == [] && s.inWork == 0 && !s.cleared
    ensures s.afterPush <==> c.workPolicy == Omitted || c.workPolicy == Chosen(AfterAdd)
    ensures s.liveTimers > 0 <==>
              c.workPolicy == Chosen(AsyncCycleOne)
              || (c.workPolicy == Chosen(AsyncCycleMany) && c.groupSize.Some? && c.groupSize.value > 0)
    ensures !(s.afterPush && s.liveTimers > 0)
  {
    var policy := EffectivePolicy(c.workPolicy);
    QState([], [], 0, policy == Some(AfterAdd), TimerCount(policy, c.groupSize), false)
  }

  // ---------------------------------------------------------------------------
  // Counters

  /** The total the `length` getter reports: pending plus buffered plus in work. */
  function TotalLength<T, R>(s: QState<T, R>): int
  {
    |s.queue| + |s.buff| + s.inWork
  }

  // ---------------------------------------------------------------------------
  // Dispatch

  /** The worker a task runs with: its own, if it has one, else the queue's default. */
  function Resolve<T, R>(t: Task<T, R>, default: Option<Worker<T, R>>): Option<Worker<T, R>>
  {
    if t.worker.Some? then t.worker else default
  }

  /** The values a worker result adds to the buffer, in order. */
  function Output<R>(r: WorkerResult<R>): seq<R>
  {
    match r
    case Single(v) => [v]
    case Many(vs) => vs
  }

  /**
   * One dispatch step: take the head of the pending list, raise the in-work
   * counter, and, when the head exists and has a worker, buffer that worker's
   * output and lower the counter again.
   */
  function WorkStep<T, R>(fx: Setup<T, R>, s: QState<T, R>): Step<WorkOutcome, T, R>
  {
    if |s.queue| == 0 then
      Step(Idle, s.(inWork := s.inWork + 1))
    else
      var head := s.queue[0];
      var popped := s.(queue := s.queue[1..], inWork := s.inWork + 1);
      match Resolve(head, fx.worker)
      case None => Step(WorkerMissing, popped)
      case Some(f) =>
        var out := Output(f(head.task));
        Step(Delivered(|out|), popped.(buff := s.buff + out, inWork := s.inWork))
  }

  /** What a timer firing does: one dispatch step, if any timer is still running. */
  function TickStep<T, R>(fx: Setup<T, R>, s: QState<T, R>): Step<Option<WorkOutcome>, T, R>
  {
    if s.liveTimers == 0 then Step(None, s)
    else
      var r := WorkStep(fx, s);
      Step(Some(r.outcome), r.next)
  }

  /** `k` timer firings in a row. */
  function Ticks<T, R>(fx: Setup<T, R>, s: QState<T, R>, k: nat): QState<T, R>
    decreases k
  {
    if k == 0 then s else Ticks(fx, TickStep(fx, s).next, k - 1)
  }

  // ---------------------------------------------------------------------------
  // Submission

  /** A size limit holds a push back when it is set to a non-zero number that the length has reached. */
  predicate Reached(limit: Option<int>, len: nat)
  {
    limit.Some? && limit.value != 0 && len >= limit.value
  }

  /** Whether either limit holds a push back. */
  predicate GateClosed<T, R>(fx: Setup<T, R>, s: QState<T, R>)
  {
    Reached(fx.queueSizeLimit, |s.queue|) || Reached(fx.buffSizeLimit, |s.buff|)
  }

  /** Whether a push with override `w` has some worker to run with. */
  predicate HasWorker<T, R>(fx: Setup<T, R>, w: Option<Worker<T, R>>)
  {
    w.Some? || fx.worker.Some?
  }

  /** Pushing one payload once a worker is known to exist: wait at a limit, or append and maybe dispatch. */
  function PushSingle<T, R>(fx: Setup<T, R>, s: QState<T, R>, x: T, w: Option<Worker<T, R>>): Step<PushOutcome, T, R>
  {
    if GateClosed(fx, s) then Step(Blocked, s)
    else
      var appended := s.(queue := s.queue + [Task(x, w)]);
      if s.afterPush then Step(Pushed, WorkStep(fx, appended).next) else Step(Pushed, appended)
  }

  /** Pushing the payloads of an array one after another; the first one held back holds back the rest. */
  function PushEach<T, R>(fx: Setup<T, R>, s: QState<T, R>, xs: seq<T>, w: Option<Worker<T, R>>): (r: Step<Submitted, T, R>)
    ensures r.outcome.outcome != MissingWorker
    ensures r.outcome.placed <= |xs|
    ensures r.outcome.outcome == Pushed <==> r.outcome.placed == |xs|
    decreases |xs|
  {
    if xs == [] then Step(Submitted(Pushed, 0), s)
    else
      var first := PushSingle(fx, s, xs[0], w);
      if first.outcome == Blocked then Step(Submitted(Blocked, 0), s)
      else
        var rest := PushEach(fx, first.next, xs[1..], w);
        Step(Submitted(rest.outcome.outcome, rest.outcome.placed + 1), rest.next)
  }

  /** A call to `push`: refuse when no worker can be found, else push the payload or each payload of the array. */
  function PushStep<T, R>(fx: Setup<T, R>, s: QState<T, R>, item: Item<T>, w: Option<Worker<T, R>>): Step<Submitted, T, R>
  {
    if !HasWorker(fx, w) then Step(Submitted(MissingWorker, 0), s)
    else
      match item
      case One(x) =>
        var r := PushSingle(fx, s, x, w);
        Step(Submitted(r.outcome, if r.outcome == Pushed then 1 else 0), r.next)
      case Batch(xs) => PushEach(fx, s, xs, w)
  }

  // ---------------------------------------------------------------------------
  // Retrieval and shutdown

  /** A call to `get`: the head of the buffer, or nothing (the caller would wait) when it is empty. */
  function GetStep<T, R>(s: QState<T, R>): Step<Option<R>, T, R>
  {
    if |s.buff| == 0 then Step(None, s) else Step(Some(s.buff[0]), s.(buff := s.buff[1..]))
  }

  /** A call to `getMany(count)`: up to `count` gets in a row, stopping at the first that would wait. */
  function GetManyStep<T, R>(s: QState<T, R>, count: int): Step<Taken<R>, T, R>
    decreases if count > 0 then count else 0
  {
    if count <= 0 then Step(Taken([], true), s)
    else
      var g := GetStep(s);
      if g.outcome.None? then Step(Taken([], false), s)
      else
        var rest := GetManyStep(g.next, count - 1);
        Step(Taken([g.outcome.value] + rest.outcome.items, rest.outcome.complete), rest.next)
  }

  /** A call to `clear`: stop the timers, unhook dispatch after push, and raise the flag. */
  function ClearStep<T, R>(s: QState<T, R>): QState<T, R>
  {
    s.(afterPush := false, liveTimers := 0, cleared := true)
  }

  // ---------------------------------------------------------------------------
  // Invariants

  /** Every pending task has a worker to run with. */
  ghost predicate Resolvable<T, R>(fx: Setup<T, R>, s: QState<T, R>)
  {
    forall i :: 0 <= i < |s.queue| ==> Resolve(s.queue[i], fx.worker).Some?
  }

  /**
   * The facts every reachable state keeps: the in-work counter is never
   * negative; once cleared nothing dispatches; dispatch after push belongs to
   * 'after-add' and keeps the pending list empty; timers belong to the two
   * periodic policies.
   */
  ghost predicate Wellformed<T, R>(fx: Setup<T, R>, s: QState<T, R>)
  {
    && s.inWork >= 0
    && (s.cleared ==> !s.afterPush && s.liveTimers == 0)
    && (s.afterPush ==> fx.workPolicy == Some(AfterAdd) && s.queue == [])
    && (s.liveTimers > 0 ==> fx.workPolicy == Some(AsyncCycleOne) || fx.workPolicy == Some(AsyncCycleMany))
  }

  // ---------------------------------------------------------------------------
  // Reference sequences for ordering statements

  /** The tasks a push of `xs` with override `w` appends, in order. */
  function Tasks<T, R>(xs: seq<T>, w: Option<Worker<T, R>>): (ts: seq<Task<T, R>>)
    ensures |ts| == |xs|
  {
    if xs == [] then [] else [Task(xs[0], w)] + Tasks(xs[1..], w)
  }

  /** The concatenated outputs of running `f` on each of `xs` in order. */
  function Outputs<T, R>(f: Worker<T, R>, xs: seq<T>): seq<R>
  {
    if xs == [] then [] else Output(f(xs[0])) + Outputs(f, xs[1..])
  }

  /** The concatenated outputs of dispatching the tasks `ts` in order (a task without a worker adds nothing). */
  function Produce<T, R>(default: Option<Worker<T, R>>, ts: seq<Task<T, R>>): seq<R>
  {
    if ts == [] then []
    else
      var head := match Resolve(ts[0], default)
        case None => []
        case Some(f) => Output(f(ts[0].task));
      head + Produce(default, ts[1..])
  }
}
