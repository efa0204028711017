/**
 * The value types the queue is built from: what a worker returns, the record
 * kept for each submitted item, the dispatch policies and the construction
 * options.
 */
module QueueTypes {
  import opened Wrappers

  /** What one worker call produces: one value, or an array whose elements are buffered one by one. */
  datatype WorkerResult<R> = Single(value: R) | Many(values: seq<R>)

  /** A worker is a total, synchronous function from a payload to its result. */
  type Worker<!T, R> = T -> WorkerResult<R>

  /** A pending task: the submitted payload and the worker given with it, if any. */
  datatype Task<!T, R> = Task(task: T, worker: Option<Worker<T, R>>)

  /** The three named dispatch policies. */
  datatype PolicyKind = AfterAdd | AsyncCycleOne | AsyncCycleMany

  /**
   * The `workPolicy` key of a configuration object: left out (the constructor's
   * defaults then supply 'after-add'), present but `undefined` (which overrides
   * the default), or one of the three names.
   */
  datatype PolicyField = Omitted | Undefined | Chosen(kind: PolicyKind)

  /** The construction options; `groupSize` is consulted only by 'async-cycle-many'. */
  datatype Config<!T, R> = Config(
    worker: Option<Worker<T, R>>,
    queueSizeLimit: Option<int>,
    buffSizeLimit: Option<int>,
    workPolicy: PolicyField,
    groupSize: Option<int>)

  /** The configuration used when the queue is built with no argument at all. */
  function DefaultConfig<T, R>(): Config<T, R>
  {
    Config(None, None, None, Chosen(AfterAdd), None)
  }

  /** The argument of `push`: a single payload or an array of payloads. */
  datatype Item<T> = One(value: T) | Batch(values: seq<T>)
}
