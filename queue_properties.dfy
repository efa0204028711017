/**
 * What the queue promises, proved about the step functions of QueueModel:
 * how push, dispatch, get and clear change the pending list, the buffer and
 * the counters; the invariants every reachable state keeps; and the order in
 * which results come out.
 */
module QueueProperties {
  import opened Wrappers
  import opened QueueTypes
  import opened QueueModel

  /** Neither size limit is in force: each is unset or 0. */
  predicate NoLimits<T, R>(fx: Setup<T, R>)
  {
    (fx.queueSizeLimit.None? || fx.queueSizeLimit.value == 0)
    && (fx.buffSizeLimit.None? || fx.buffSizeLimit.value == 0)
  }

  /** The worker a push with override `w` ends up using. */
  function WorkerFor<T, R>(fx: Setup<T, R>, w: Option<Worker<T, R>>): Worker<T, R>
    requires HasWorker(fx, w)
  {
    if w.Some? then w.value else fx.worker.value
  }

  // ---------------------------------------------------------------------------
  // Construction

  /** A new queue is empty and consistent; leaving the policy out selects 'after-add'. */
  lemma InitialState<T, R>(c: Config<T, R>)
    ensures Wellformed(SetupOf(c), Initial(c)) && Resolvable(SetupOf(c), Initial(c))
    ensures TotalLength(Initial(c)) == 0
    ensures c.workPolicy == Omitted ==> SetupOf(c).workPolicy == Some(AfterAdd) && Initial(c).afterPush
    ensures c.workPolicy == Undefined ==> !Initial(c).afterPush && Initial(c).liveTimers == 0
    ensures Initial(DefaultConfig<T, R>()).afterPush && SetupOf(DefaultConfig<T, R>()).worker.None?
  {
  }

  // ---------------------------------------------------------------------------
  // Push

  /** `push` is refused exactly when neither an override nor a default worker exists, and then nothing changes. */
  lemma PushRefusedIffNoWorker<T, R>(fx: Setup<T, R>, s: QState<T, R>, item: Item<T>, w: Option<Worker<T, R>>)
    ensures PushStep(fx, s, item, w).outcome.outcome == MissingWorker <==> !HasWorker(fx, w)
    ensures !HasWorker(fx, w) ==> PushStep(fx, s, item, w) == Step(Submitted(MissingWorker, 0), s)
  {
  }

  /**
   * A single push waits, changing nothing, exactly when a limit is in force and
   * reached; otherwise it appends one task at the tail and leaves the buffer
   * and the counter alone unless 'after-add' dispatch follows. With each limit
   * unset or 0 it never waits.
   */
  lemma PushOneGate<T, R>(fx: Setup<T, R>, s: QState<T, R>, x: T, w: Option<Worker<T, R>>)
    requires HasWorker(fx, w)
    ensures var r := PushStep(fx, s, One(x), w);
            && (r.outcome == Submitted(Blocked, 0) <==> GateClosed(fx, s))
            && (r.outcome == Submitted(Pushed, 1) <==> !GateClosed(fx, s))
            && (GateClosed(fx, s) ==> r.next == s)
            && (!GateClosed(fx, s) && !s.afterPush ==> r.next == s.(queue := s.queue + [Task(x, w)]))
            && (NoLimits(fx) ==> r.outcome == Submitted(Pushed, 1))
  {
  }

  /**
   * Under 'after-add' the dispatch step after a push pops the current head of
   * the pending list; in a consistent queue that list is empty, so the head
   * is the pushed task and the list ends empty again.
   */
  lemma AfterAddDispatchesHead<T, R>(fx: Setup<T, R>, s: QState<T, R>, x: T, w: Option<Worker<T, R>>)
    requires HasWorker(fx, w) && !GateClosed(fx, s) && s.afterPush
    ensures PushStep(fx, s, One(x), w).next == WorkStep(fx, s.(queue := s.queue + [Task(x, w)])).next
    ensures Wellformed(fx, s) ==> s.queue + [Task(x, w)] == [Task(x, w)] && PushStep(fx, s, One(x), w).next.queue == []
  {
  }

  /**
   * In a consistent 'after-add' queue the pending list is empty, so the
   * dispatch after a push runs the pushed payload, with the override when
   * one is given and the default worker otherwise.
   */
  lemma AfterAddDispatchesPushed<T, R>(fx: Setup<T, R>, s: QState<T, R>, x: T, w: Option<Worker<T, R>>)
    requires Wellformed(fx, s) && s.afterPush && HasWorker(fx, w) && !GateClosed(fx, s)
    ensures PushStep(fx, s, One(x), w) == Step(Submitted(Pushed, 1), s.(buff := s.buff + Output(WorkerFor(fx, w)(x))))
    ensures w.Some? ==> PushStep(fx, s, One(x), w).next.buff == s.buff + Output(w.value(x))
  {
  }

  /** The pushes of `xs` issued one call at a time, stopping at the first that does not append. */
  ghost function OneByOne<T, R>(fx: Setup<T, R>, s: QState<T, R>, xs: seq<T>, w: Option<Worker<T, R>>): Step<Submitted, T, R>
    decreases |xs|
  {
    if xs == [] then Step(Submitted(Pushed, 0), s)
    else
      var r := PushStep(fx, s, One(xs[0]), w);
      if r.outcome.outcome != Pushed then Step(Submitted(r.outcome.outcome, 0), r.next)
      else
        var rest := OneByOne(fx, r.next, xs[1..], w);
        Step(Submitted(rest.outcome.outcome, rest.outcome.placed + 1), rest.next)
  }

  /**
   * Pushing an array is pushing its payloads one call at a time in array order,
   * all with the same override; the only difference is that an empty array
   * is still refused when no worker exists.
   */
  lemma {:induction false} BatchIsOneByOne<T, R>(fx: Setup<T, R>, s: QState<T, R>, xs: seq<T>, w: Option<Worker<T, R>>)
    requires HasWorker(fx, w) || xs != []
    ensures PushStep(fx, s, Batch(xs), w) == OneByOne(fx, s, xs, w)
    decreases |xs|
  {
    if HasWorker(fx, w) && xs != [] {
      var r := PushSingle(fx, s, xs[0], w);
      if r.outcome != Blocked {
        BatchIsOneByOne(fx, r.next, xs[1..], w);
      }
    }
  }

  /** Without dispatch after push, a push appends the tasks of the payloads it placed and changes nothing else. */
  lemma {:induction false} PushWithoutDispatchAppends<T, R>(fx: Setup<T, R>, s: QState<T, R>, xs: seq<T>, w: Option<Worker<T, R>>)
    requires !s.afterPush
    ensures var r := PushEach(fx, s, xs, w);
            r.next == s.(queue := s.queue + Tasks(xs[..r.outcome.placed], w))
    decreases |xs|
  {
    if xs != [] && !GateClosed(fx, s) {
      var s1 := s.(queue := s.queue + [Task(xs[0], w)]);
      assert PushSingle(fx, s, xs[0], w) == Step(Pushed, s1);
      var r1 := PushEach(fx, s1, xs[1..], w);
      PushWithoutDispatchAppends(fx, s1, xs[1..], w);
      var k := r1.outcome.placed;
      assert PushEach(fx, s, xs, w) == Step(Submitted(r1.outcome.outcome, k + 1), r1.next);
      assert xs[..k + 1][1..] == xs[1..][..k];
      assert Tasks(xs[..k + 1], w) == [Task(xs[0], w)] + Tasks(xs[1..][..k], w);
      assert s1.queue + Tasks(xs[1..][..k], w) == s.queue + Tasks(xs[..k + 1], w);
    }
  }

  /** With neither limit in force, every payload of an array is placed. */
  lemma {:induction false} NoLimitsPlacesAll<T, R>(fx: Setup<T, R>, s: QState<T, R>, xs: seq<T>, w: Option<Worker<T, R>>)
    requires NoLimits(fx)
    ensures PushEach(fx, s, xs, w).outcome == Submitted(Pushed, |xs|)
    decreases |xs|
  {
    if xs != [] {
      NoLimitsPlacesAll(fx, PushSingle(fx, s, xs[0], w).next, xs[1..], w);
    }
  }

  /**
   * With only a positive pending-list limit `L` and no dispatch after push, an
   * array push places payloads while the list is strictly shorter than `L`.
   */
  lemma {:induction false} QueueLimitPlacement<T, R>(fx: Setup<T, R>, s: QState<T, R>, xs: seq<T>, w: Option<Worker<T, R>>, L: int)
    requires !s.afterPush && fx.queueSizeLimit == Some(L) && L > 0
    requires fx.buffSizeLimit.None? || fx.buffSizeLimit.value == 0
    ensures var room := if |s.queue| < L then L - |s.queue| else 0;
            PushEach(fx, s, xs, w).outcome.placed == if |xs| <= room then |xs| else room
    decreases |xs|
  {
    if xs != [] && !GateClosed(fx, s) {
      QueueLimitPlacement(fx, s.(queue := s.queue + [Task(xs[0], w)]), xs[1..], w, L);
    }
  }

  /** The tasks of a prefix of the payloads are the prefix of their tasks. */
  lemma {:induction false} TasksPrefix<T, R>(xs: seq<T>, k: nat, w: Option<Worker<T, R>>)
    requires k <= |xs|
    ensures Tasks(xs[..k], w) == Tasks(xs, w)[..k]
    decreases k
  {
    if k > 0 {
      TasksPrefix(xs[1..], k - 1, w);
      assert xs[..k][1..] == xs[1..][..k - 1];
    }
  }

  /** After `clear` a push only appends: nothing is dispatched, the buffer and the counter stay as they were. */
  lemma PushAfterClearOnlyAppends<T, R>(fx: Setup<T, R>, s: QState<T, R>, item: Item<T>, w: Option<Worker<T, R>>)
    ensures var c := ClearStep(s);
            var r := PushStep(fx, c, item, w);
            && r.next.buff == s.buff && r.next.inWork == s.inWork && r.next.cleared
            && r.next.queue == s.queue + Tasks(if item.One? then [item.value] else item.values, w)[..r.outcome.placed]
  {
    var c := ClearStep(s);
    if HasWorker(fx, w) {
      match item
      case One(x) =>
      case Batch(xs) =>
        PushWithoutDispatchAppends(fx, c, xs, w);
        var k := PushEach(fx, c, xs, w).outcome.placed;
        TasksPrefix(xs, k, w);
    }
  }

  /**
   * In a consistent 'after-add' queue with no limit in force, pushing an array
   * buffers the outputs of its payloads in array order and leaves the pending
   * list empty and the counter unchanged.
   */
  lemma {:induction false} AfterAddBuffersInOrder<T, R>(fx: Setup<T, R>, s: QState<T, R>, xs: seq<T>, w: Option<Worker<T, R>>)
    requires Wellformed(fx, s) && s.afterPush && HasWorker(fx, w) && NoLimits(fx)
    ensures PushStep(fx, s, Batch(xs), w)
            == Step(Submitted(Pushed, |xs|), s.(buff := s.buff + Outputs(WorkerFor(fx, w), xs)))
    decreases |xs|
  {
    if xs != [] {
      var s1 := s.(buff := s.buff + Output(WorkerFor(fx, w)(xs[0])));
      assert PushSingle(fx, s, xs[0], w).next == s1;
      AfterAddBuffersInOrder(fx, s1, xs[1..], w);
      assert s1.buff + Outputs(WorkerFor(fx, w), xs[1..]) == s.buff + Outputs(WorkerFor(fx, w), xs);
    }
  }

  // ---------------------------------------------------------------------------
  // Dispatch

  /**
   * One dispatch step: on an empty list only the counter rises; otherwise the
   * head task is removed, and either it has no worker (the counter stays
   * raised and nothing is buffered) or its worker's output is appended to the
   * buffer in order, the override taking precedence, and the counter is back
   * where it was.
   */
  lemma WorkStepCases<T, R>(fx: Setup<T, R>, s: QState<T, R>)
    ensures var r := WorkStep(fx, s);
            && r.next.afterPush == s.afterPush && r.next.liveTimers == s.liveTimers && r.next.cleared == s.cleared
            && (s.queue == [] ==> r == Step(Idle, s.(inWork := s.inWork + 1)))
            && (s.queue != [] ==> r.next.queue == s.queue[1..])
            && (s.queue != [] && Resolve(s.queue[0], fx.worker).None? ==>
                  r.outcome == WorkerMissing && r.next.buff == s.buff && r.next.inWork == s.inWork + 1)
            && (s.queue != [] && s.queue[0].worker.Some? ==>
                  var out := Output(s.queue[0].worker.value(s.queue[0].task));
                  r.outcome == Delivered(|out|) && r.next.buff == s.buff + out && r.next.inWork == s.inWork)
            && (s.queue != [] && s.queue[0].worker.None? && fx.worker.Some? ==>
                  var out := Output(fx.worker.value(s.queue[0].task));
                  r.outcome == Delivered(|out|) && r.next.buff == s.buff + out && r.next.inWork == s.inWork)
  {
  }

  /** How a dispatch step moves `length`: up 1 when idle, unchanged when the task is lost, by the output size minus 1 otherwise. */
  lemma WorkLength<T, R>(fx: Setup<T, R>, s: QState<T, R>)
    ensures var r := WorkStep(fx, s);
            TotalLength(r.next) == TotalLength(s) + match r.outcome
              case Idle => 1
              case WorkerMissing => 0
              case Delivered(n) => n - 1
  {
  }

  /** When every pending task has a worker, no dispatch step loses one. */
  lemma ResolvableNeverLoses<T, R>(fx: Setup<T, R>, s: QState<T, R>)
    requires Resolvable(fx, s)
    ensures WorkStep(fx, s).outcome != WorkerMissing
  {
  }

  /** A timer firing is one dispatch step while a timer runs, and nothing after `clear`. */
  lemma TickIsWorkStep<T, R>(fx: Setup<T, R>, s: QState<T, R>)
    ensures s.liveTimers > 0 ==> TickStep(fx, s).next == WorkStep(fx, s).next
    ensures TickStep(fx, ClearStep(s)) == Step(None, ClearStep(s))
  {
  }

  /**
   * `k` timer firings over a list whose tasks all have workers, while a timer
   * runs, take the first `k` tasks and buffer their outputs in queue order;
   * the counter ends where it started.
   */
  lemma {:induction false} TicksInOrder<T, R>(fx: Setup<T, R>, s: QState<T, R>, k: nat)
    requires Resolvable(fx, s) && k <= |s.queue| && s.liveTimers > 0
    ensures Ticks(fx, s, k) == s.(queue := s.queue[k..], buff := s.buff + Produce(fx.worker, s.queue[..k]))
    decreases k
  {
    if k > 0 {
      var f := Resolve(s.queue[0], fx.worker).value;
      var out := Output(f(s.queue[0].task));
      var s1 := s.(queue := s.queue[1..], buff := s.buff + out);
      assert TickStep(fx, s).next == s1;
      assert Resolvable(fx, s1) by {
        forall i | 0 <= i < |s1.queue| ensures Resolve(s1.queue[i], fx.worker).Some? {
          assert s1.queue[i] == s.queue[i + 1];
        }
      }
      TicksInOrder(fx, s1, k - 1);
      assert s.queue[..k][1..] == s1.queue[..k - 1];
      assert s1.queue[k - 1..] == s.queue[k..];
      assert Produce(fx.worker, s.queue[..k]) == out + Produce(fx.worker, s1.queue[..k - 1]);
    }
  }

  /** Dispatching the tasks of a push of `xs` produces the worker's outputs for `xs` in order. */
  lemma {:induction false} ProduceTasks<T, R>(fx: Setup<T, R>, xs: seq<T>, w: Option<Worker<T, R>>)
    requires HasWorker(fx, w)
    ensures Produce(fx.worker, Tasks(xs, w)) == Outputs(WorkerFor(fx, w), xs)
  {
    if xs != [] {
      ProduceTasks(fx, xs[1..], w);
      assert Tasks(xs, w)[1..] == Tasks(xs[1..], w);
    }
  }

  // ---------------------------------------------------------------------------
  // Retrieval and shutdown

  /** `get` returns and removes the head of a non-empty buffer, and reports an empty one without change. */
  lemma GetStepCases<T, R>(s: QState<T, R>)
    ensures |s.buff| > 0 ==> GetStep(s) == Step(Some(s.buff[0]), s.(buff := s.buff[1..]))
    ensures |s.buff| == 0 ==> GetStep(s) == Step(None, s)
    ensures TotalLength(GetStep(s).next) == TotalLength(s) - (if |s.buff| > 0 then 1 else 0)
  {
  }

  /**
   * `getMany(count)` returns the first `count` buffered results in buffer
   * order and removes them; when fewer are buffered it takes them all and
   * reports that it would still wait.
   */
  lemma {:induction false} GetManyTakesPrefix<T, R>(s: QState<T, R>, count: int)
    ensures var k := if count <= 0 then 0 else if count <= |s.buff| then count else |s.buff|;
            GetManyStep(s, count) == Step(Taken(s.buff[..k], count <= |s.buff|), s.(buff := s.buff[k..]))
    decreases if count > 0 then count else 0
  {
    if count > 0 && |s.buff| > 0 {
      var s1 := s.(buff := s.buff[1..]);
      GetManyTakesPrefix(s1, count - 1);
      var k := if count <= |s.buff| then count else |s.buff|;
      assert [s.buff[0]] + s1.buff[..k - 1] == s.buff[..k];
      assert s1.buff[k - 1..] == s.buff[k..];
    }
  }

  /** `getMany` lowers `length` by the number of results it returns. */
  lemma GetManyLength<T, R>(s: QState<T, R>, count: int)
    ensures TotalLength(GetManyStep(s, count).next) == TotalLength(s) - |GetManyStep(s, count).outcome.items|
  {
    GetManyTakesPrefix(s, count);
  }

  /** `clear` raises the flag, stops all dispatch, keeps the pending list, buffer and counter, and is idempotent. */
  lemma ClearProperties<T, R>(s: QState<T, R>)
    ensures var c := ClearStep(s);
            && c.cleared && !c.afterPush && c.liveTimers == 0
            && c.queue == s.queue && c.buff == s.buff && c.inWork == s.inWork
            && ClearStep(c) == c
  {
  }

  // ---------------------------------------------------------------------------
  // Invariants

  /** A dispatch step keeps both invariants. */
  lemma WorkPreserves<T, R>(fx: Setup<T, R>, s: QState<T, R>)
    ensures Wellformed(fx, s) && Resolvable(fx, s) ==>
              Wellformed(fx, WorkStep(fx, s).next) && Resolvable(fx, WorkStep(fx, s).next)
  {
  }

  /** Pushing the payloads of an array keeps both invariants, given a worker to run them with. */
  lemma {:induction false} PushEachPreserves<T, R>(fx: Setup<T, R>, s: QState<T, R>, xs: seq<T>, w: Option<Worker<T, R>>)
    requires HasWorker(fx, w) && Wellformed(fx, s) && Resolvable(fx, s)
    ensures Wellformed(fx, PushEach(fx, s, xs, w).next) && Resolvable(fx, PushEach(fx, s, xs, w).next)
    decreases |xs|
  {
    if xs != [] && !GateClosed(fx, s) {
      var appended := s.(queue := s.queue + [Task(xs[0], w)]);
      assert Resolvable(fx, appended) by {
        forall i | 0 <= i < |appended.queue| ensures Resolve(appended.queue[i], fx.worker).Some? {
          if i < |s.queue| { assert appended.queue[i] == s.queue[i]; }
        }
      }
      WorkPreserves(fx, appended);
      PushEachPreserves(fx, PushSingle(fx, s, xs[0], w).next, xs[1..], w);
    }
  }

  /** Every push keeps the invariants, so no pending task ever lacks a worker. */
  lemma PushPreserves<T, R>(fx: Setup<T, R>, s: QState<T, R>, item: Item<T>, w: Option<Worker<T, R>>)
    ensures Wellformed(fx, s) && Resolvable(fx, s) ==>
              Wellformed(fx, PushStep(fx, s, item, w).next) && Resolvable(fx, PushStep(fx, s, item, w).next)
  {
    if Wellformed(fx, s) && Resolvable(fx, s) && HasWorker(fx, w) {
      match item
      case One(x) => PushEachPreserves(fx, s, [x], w);
      case Batch(xs) => PushEachPreserves(fx, s, xs, w);
    }
  }

  /** `getMany` keeps both invariants. */
  lemma GetManyPreserves<T, R>(fx: Setup<T, R>, s: QState<T, R>, count: int)
    ensures Wellformed(fx, s) && Resolvable(fx, s) ==>
              Wellformed(fx, GetManyStep(s, count).next) && Resolvable(fx, GetManyStep(s, count).next)
  {
    GetManyTakesPrefix(s, count);
  }

  /** `get`, `clear` and a timer firing keep both invariants. */
  lemma OtherStepsPreserve<T, R>(fx: Setup<T, R>, s: QState<T, R>)
    ensures Wellformed(fx, s) && Resolvable(fx, s) ==>
              && Wellformed(fx, GetStep(s).next) && Resolvable(fx, GetStep(s).next)
              && Wellformed(fx, ClearStep(s)) && Resolvable(fx, ClearStep(s))
              && Wellformed(fx, TickStep(fx, s).next) && Resolvable(fx, TickStep(fx, s).next)
  {
  }

  // ---------------------------------------------------------------------------
  // End to end

  /**
   * 'async-cycle-one' with a default worker and no limits: push an array,
   * let the timer fire once per payload, and `getMany` returns the outputs in
   * submission order, leaving `length` at 0.
   */
  lemma CycleOneRoundTrip<T, R>(c: Config<T, R>, xs: seq<T>)
    requires c.workPolicy == Chosen(AsyncCycleOne) && c.worker.Some? && NoLimits(SetupOf(c))
    ensures var fx := SetupOf(c);
            var pushed := PushStep(fx, Initial(c), Batch(xs), None);
            var drained := Ticks(fx, pushed.next, |xs|);
            var out := Outputs(c.worker.value, xs);
            var got := GetManyStep(drained, |out|);
            && pushed.outcome == Submitted(Pushed, |xs|)
            && got.outcome == Taken(out, true)
            && TotalLength(got.next) == 0
  {
    var fx := SetupOf(c);
    var s := Initial(c);
    NoLimitsPlacesAll(fx, s, xs, None);
    PushWithoutDispatchAppends(fx, s, xs, None);
    var pushed := PushStep(fx, s, Batch(xs), None);
    assert xs[..|xs|] == xs;
    assert pushed.next.queue == Tasks(xs, None);
    assert Resolvable(fx, pushed.next) && pushed.next.liveTimers == 1;
    TicksInOrder(fx, pushed.next, |xs|);
    assert pushed.next.queue[..|xs|] == Tasks(xs, None);
    ProduceTasks(fx, xs, None);
    var drained := Ticks(fx, pushed.next, |xs|);
    GetManyTakesPrefix(drained, |Outputs(c.worker.value, xs)|);
  }

  /**
   * 'after-add' with no limits: pushing an array and then asking `getMany`
   * for all outputs returns them in submission order and leaves `length` at 0.
   */
  lemma AfterAddRoundTrip<T, R>(c: Config<T, R>, xs: seq<T>, w: Option<Worker<T, R>>)
    requires (c.workPolicy == Omitted || c.workPolicy == Chosen(AfterAdd)) && HasWorker(SetupOf(c), w)
    requires NoLimits(SetupOf(c))
    ensures var fx := SetupOf(c);
            var pushed := PushStep(fx, Initial(c), Batch(xs), w);
            var out := Outputs(WorkerFor(fx, w), xs);
            var got := GetManyStep(pushed.next, |out|);
            && pushed.outcome == Submitted(Pushed, |xs|)
            && got.outcome == Taken(out, true)
            && TotalLength(got.next) == 0
  {
    var fx := SetupOf(c);
    AfterAddBuffersInOrder(fx, Initial(c), xs, w);
    var pushed := PushStep(fx, Initial(c), Batch(xs), w);
    GetManyTakesPrefix(pushed.next, |Outputs(WorkerFor(fx, w), xs)|);
  }
}
