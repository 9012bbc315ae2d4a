/** What the outbox, the linechain manager and the agent loop share: tasks,
    results, and the way a fallible disk or network step can end. */
module Tasks {

  import opened Common

  /** The durable protocols a lease may name: none, "linechain-e3-v2",
      "netguard-v1", or anything else. */
  datatype Protocol = NoProtocol | LinechainE3 | Netguard | Unsupported(name: string)

  /** The error text of a result: empty, what a runner reported, or one of the
      fixed texts the agent writes itself. */
  datatype Problem = NoProblem | Reported(text: string) | PairRestored | Unverified | Interrupted | OutcomeUnknown
      | NotJournaled

  /** A task and its lease. Journal file names are a SHA-256 of the two, which
      is modelled as the pair itself. */
  datatype Key = Key(task: string, lease: string)

  datatype Task = Task(key: Key, script: string)

  /** One entry of a lease response. */
  datatype Leased = Leased(task: Task, durable: bool, protocol: Protocol)

  /** finishedAt 0 is Go's zero time; detail stands for the fields nothing here
      decides on (output, node id, start time). */
  datatype TaskResult = TaskResult(key: Key, exitCode: int, error: Problem, finishedAt: nat, detail: string)

  /** SHA-256 as a free injective function; a missing file has no digest. */
  datatype Digest = NoDigest | Sha256(content: string)

  function DigestMaybe(content: Option<string>): Digest {
    if content.Some? then Sha256(content.value) else NoDigest
  }

  /** The end of a step: it returned a value, or the agent died inside it. A
      call written with `:-` dies with its callee, so every statement of a
      method that touches the disk is also a point where the run may stop. */
  datatype Step<+T> = Done(value: T) | Crashed {
    predicate IsFailure() { Crashed? }
    function PropagateFailure<U>(): Step<U> requires Crashed? { Crashed }
    function Extract(): T requires Done? { value }
  }

  /** What the environment does with one atomic step: it works, it fails or
      the agent dies, each with or without the step having taken effect. */
  datatype Fate = Works | FailsClean | FailsDone | DiesClean | DiesDone {
    predicate Effective() { Works? || FailsDone? || DiesDone? }
    predicate Dies() { DiesClean? || DiesDone? }
  }

  /** The wall clock: any instant but Go's zero time. */
  method Clock() returns (now: nat)
    ensures now > 0
  {
    var elapsed: nat :| true;
    now := elapsed + 1;
  }
}
