/**
 * The `Queue` class: the fields the source keeps and its operations written
 * as the step-by-step updates the source performs. Every method leaves the
 * object in the state the matching step function of QueueModel computes
 * from the state before the call, and keeps the invariant `Valid()`.
 */
module AsyncQueue {
  import opened Wrappers
  import opened QueueTypes
  import opened QueueModel
  import QueueProperties

  class Queue<!T, R> {
    const queueSizeLimit: Option<int>
    const buffSizeLimit: Option<int>
    const workPolicy: Option<PolicyKind>
    const worker: Option<Worker<T, R>>

    // The pending tasks and the result buffer, both first-in first-out.
    var queue: seq<Task<T, R>>
    var buff: seq<R>
    var inWork: int
    // Whether `push` ends with a dispatch step (the `_afterPush` hook).
    var afterPush: bool
    // How many periodic timers are running.
    var liveTimers: nat
    var cleared: bool

    function Fixed(): Setup<T, R>
    {
      Setup(worker, queueSizeLimit, buffSizeLimit, workPolicy)
    }

    function State(): QState<T, R>
      reads this
    {
      QState(queue, buff, inWork, afterPush, liveTimers, cleared)
    }

    ghost predicate Valid()
      reads this
    {
      Wellformed(Fixed(), State()) && Resolvable(Fixed(), State())
    }

    /** Spread the default policy under the configuration, keep the options, and arm the chosen policy. */
    constructor(config: Config<T, R>)
      ensures Fixed() == SetupOf(config)
      ensures State() == Initial(config)
      ensures Valid()
    {
      var policy := EffectivePolicy(config.workPolicy);
      workPolicy := policy;
      queueSizeLimit := config.queueSizeLimit;
      buffSizeLimit := config.buffSizeLimit;
      worker := config.worker;
      queue, buff, inWork := [], [], 0;
      afterPush, liveTimers, cleared := false, 0, false;
      new;
      if policy == Some(AsyncCycleOne) {
        liveTimers := 1;
      } else if policy == Some(AsyncCycleMany) {
        // one timer per member of the group
        var started := 0;
        if config.groupSize.Some? {
          while started < config.groupSize.value
            invariant 0 <= started && (started == 0 || started <= config.groupSize.value)
          {
            started := started + 1;
          }
        }
        liveTimers := started;
      } else if policy == Some(AfterAdd) {
        afterPush := true;
      }
      QueueProperties.InitialState(config);
    }

    /** One dispatch step (`_work`). */
    method Work() returns (outcome: WorkOutcome)
      modifies this
      ensures outcome == WorkStep(Fixed(), old(State())).outcome
      ensures State() == WorkStep(Fixed(), old(State())).next
      ensures old(Valid()) ==> Valid()
    {
      QueueProperties.WorkPreserves(Fixed(), State());
      var item: Option<Task<T, R>> := None;
      if |queue| > 0 {
        item := Some(queue[0]);
        queue := queue[1..];
      }
      inWork := inWork + 1;
      if item.None? {
        return Idle;
      }
      var chosen := if item.value.worker.Some? then item.value.worker else worker;
      if chosen.None? {
        return WorkerMissing;
      }
      var response := chosen.value(item.value.task);
      match response {
        case Many(vs) => buff := buff + vs;
        case Single(v) => buff := buff + [v];
      }
      inWork := inWork - 1;
      outcome := Delivered(|Output(response)|);
    }

    /** One firing of a periodic timer: a dispatch step while any timer runs. */
    method Tick() returns (outcome: Option<WorkOutcome>)
      modifies this
      ensures outcome == TickStep(Fixed(), old(State())).outcome
      ensures State() == TickStep(Fixed(), old(State())).next
      ensures old(Valid()) ==> Valid()
    {
      QueueProperties.OtherStepsPreserve(Fixed(), State());
      if liveTimers == 0 {
        return None;
      }
      var o := Work();
      outcome := Some(o);
    }

    /** `get`: the head of the buffer, or `None` where the source would wait for a result. */
    method Get() returns (v: Option<R>)
      modifies this
      ensures v == GetStep(old(State())).outcome
      ensures State() == GetStep(old(State())).next
      ensures old(Valid()) ==> Valid()
    {
      QueueProperties.OtherStepsPreserve(Fixed(), State());
      if |buff| == 0 {
        return None;
      }
      v := Some(buff[0]);
      buff := buff[1..];
    }

    /** `getMany(count)`: `count` gets in a row; `complete` is false where the source would still be waiting. */
    method GetMany(count: int) returns (items: seq<R>, complete: bool)
      modifies this
      ensures Taken(items, complete) == GetManyStep(old(State()), count).outcome
      ensures State() == GetManyStep(old(State()), count).next
      ensures old(Valid()) ==> Valid()
    {
      QueueProperties.GetManyPreserves(Fixed(), State(), count);
      ghost var s0 := State();
      items := [];
      var i := 0;
      assert items + GetManyStep(s0, count).outcome.items == GetManyStep(s0, count).outcome.items;
      while i < count
        invariant 0 <= i && (count >= 0 ==> i <= count)
        invariant var rest := GetManyStep(State(), count - i);
                  GetManyStep(s0, count) == Step(Taken(items + rest.outcome.items, rest.outcome.complete), rest.next)
        decreases count - i
      {
        ghost var before := State();
        var v := Get();
        if v.None? {
          assert items + [] == items;
          return items, false;
        }
        ghost var rest := GetManyStep(State(), count - i - 1);
        assert GetManyStep(before, count - i).outcome.items == [v.value] + rest.outcome.items;
        assert items + ([v.value] + rest.outcome.items) == (items + [v.value]) + rest.outcome.items;
        items := items + [v.value];
        i := i + 1;
      }
      assert items + [] == items;
      complete := true;
    }

    /**
     * `push`: refuse when no worker can be found; push each payload of an
     * array in turn; otherwise wait at a reached limit, or append the task and
     * run the after-push hook.
     */
    method Push(item: Item<T>, w: Option<Worker<T, R>>) returns (r: Submitted)
      modifies this
      ensures r == PushStep(Fixed(), old(State()), item, w).outcome
      ensures State() == PushStep(Fixed(), old(State()), item, w).next
      ensures old(Valid()) ==> Valid()
      decreases if item.Batch? then 1 else 0
    {
      QueueProperties.PushPreserves(Fixed(), State(), item, w);
      if w.None? && worker.None? {
        return Submitted(MissingWorker, 0);
      }
      match item {
        case Batch(xs) =>
          ghost var s0 := State();
          var i := 0;
          while i < |xs|
            invariant 0 <= i <= |xs|
            invariant var rest := PushEach(Fixed(), State(), xs[i..], w);
                      PushEach(Fixed(), s0, xs, w) == Step(Submitted(rest.outcome.outcome, rest.outcome.placed + i), rest.next)
          {
            assert xs[i..][0] == xs[i] && xs[i..][1..] == xs[i + 1..];
            var one := Push(One(xs[i]), w);
            if one.outcome == Blocked {
              return Submitted(Blocked, i);
            }
            i := i + 1;
          }
          r := Submitted(Pushed, |xs|);
        case One(x) =>
          if || (queueSizeLimit.Some? && queueSizeLimit.value != 0 && |queue| >= queueSizeLimit.value)
             || (buffSizeLimit.Some? && buffSizeLimit.value != 0 && |buff| >= buffSizeLimit.value)
          {
            return Submitted(Blocked, 0);
          }
          queue := queue + [Task(x, w)];
          if afterPush {
            var dispatched := Work();
          }
          r := Submitted(Pushed, 1);
      }
    }

    /** `clear`: stop the timers, unhook dispatch after push, raise the flag. */
    method Clear()
      modifies this
      ensures State() == ClearStep(old(State()))
      ensures old(Valid()) ==> Valid()
    {
      QueueProperties.OtherStepsPreserve(Fixed(), State());
      liveTimers := 0;
      afterPush := false;
      cleared := true;
    }

    /** The `length` getter. */
    function Length(): (n: int)
      reads this
      ensures n == Size() + Buff() + Working()
      ensures n == TotalLength(State())
      ensures Valid() ==> n >= Size() + Buff()
    {
      |queue| + |buff| + inWork
    }

    /** The `working` getter: never negative, though idle dispatch steps leave it raised. */
    function Working(): (n: int)
      reads this
      ensures Valid() ==> n >= 0
    {
      inWork
    }

    /** The `size` getter: always 0 while 'after-add' dispatch is hooked in. */
    function Size(): (n: nat)
      reads this
      ensures Valid() && afterPush ==> n == 0
    {
      |queue|
    }

    /** The `buff` getter: 0 exactly when a `get` would have to wait. */
    function Buff(): (n: nat)
      reads this
      ensures n == 0 <==> GetStep(State()).outcome.None?
    {
      |buff|
    }

    /** The `clearead` getter: once raised, no timer runs and no push dispatches. */
    function Clearead(): (b: bool)
      reads this
      ensures Valid() && b ==> !afterPush && liveTimers == 0
    {
      cleared
    }
  }
}
