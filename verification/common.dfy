/** Result types shared by every pipeline. A thrown error of the source is an `Err`. */
module Common {
  type Id = string

  datatype Option<+T> = None | Some(value: T)

  datatype Result<+T, +E> = Ok(value: T) | Err(error: E) {
    predicate IsFailure() {
      Err?
    }

    function PropagateFailure<U>(): Result<U, E>
      requires Err?
    {
      Err(error)
    }

    function Extract(): T
      requires Ok?
    {
      value
    }
  }

  /** One guard of a pipeline: it passes, or it stops the operation with an error. */
  datatype Check<+E> = Pass | Fail(error: E) {
    predicate IsFailure() {
      Fail?
    }

    function PropagateFailure<U>(): Result<U, E>
      requires Fail?
    {
      Err(error)
    }
  }

  function Need<E>(condition: bool, error: E): Check<E> {
    if condition then Pass else Fail(error)
  }

  /** Optional fields are written by spreading `{ field }` only when it is given. */
  function Given<T>(update: Option<T>, current: Option<T>): Option<T> {
    if update.Some? then update else current
  }

  /** Left-to-right application of a list of events, stopping at the first failure. */
  function Fold<S, V, E>(apply: (S, V) -> Result<S, E>, seed: S, events: seq<V>): Result<S, E> {
    if events == [] then Ok(seed)
    else
      var before :- Fold(apply, seed, events[..|events| - 1]);
      apply(before, events[|events| - 1])
  }

  /** A failure on a prefix is a failure on the whole list. */
  lemma {:induction false} FoldFailurePersists<S, V, E>(apply: (S, V) -> Result<S, E>, seed: S, events: seq<V>, n: nat)
    requires n <= |events| && Fold(apply, seed, events[..n]).Err?
    ensures Fold(apply, seed, events).Err?
    decreases |events|
  {
    if n == |events| {
      assert events[..n] == events;
    } else {
      assert events[..|events| - 1][..n] == events[..n];
      FoldFailurePersists(apply, seed, events[..|events| - 1], n);
    }
  }

  /** Revisions are safe integers kept strictly below `Number.MAX_SAFE_INTEGER`. */
  const MAX_REVISION: nat := 0x1F_FFFF_FFFF_FFFF - 1

  const LOCAL_PREFIX := "local:"

  function LocalLabel(now: string): string {
    if LOCAL_PREFIX <= now then now else LOCAL_PREFIX + now
  }
}
