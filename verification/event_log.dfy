/**
 * The local event logs. The source has a memory log and a null log behind one
 * interface; here one class plays both, told apart by `retention`.
 */
module EventLogs {
  import opened Common
  import opened Privacy

  datatype Retention = MemoryOnlyRetention | NullRetention

  datatype LogState<E> = MemoryLog(events: seq<E>) | NullLog(lastSequence: nat)

  datatype LogError = LogDecisionRejected | LogRoomMismatch | LogSequenceMismatch

  function NextSequence<E>(log: LogState<E>): nat {
    match log
    case MemoryLog(events) => |events| + 1
    case NullLog(last) => last + 1
  }

  /** The log after an append, or the reason it is refused; a refused append keeps the log. */
  function LogAppend<E>(log: LogState<E>, logRoom: Id, scope: Scope,
                        event: E, eventRoom: Id, sequence: nat, decision: Decision): Result<LogState<E>, LogError>
  {
    if !Authorizes(decision, scope) then Err(LogDecisionRejected)
    else if eventRoom != logRoom then Err(LogRoomMismatch)
    else match log
      case MemoryLog(events) =>
        if sequence == |events| + 1 then Ok(MemoryLog(events + [event])) else Err(LogSequenceMismatch)
      case NullLog(_) => Ok(NullLog(sequence))
  }

  class EventLog<E> {
    const roomId: Id
    const retention: Retention
    const appendScope: Scope
    const readScope: Scope
    const clearScope: Scope
    var events: seq<E>
    var lastSequence: nat

    function State(): LogState<E>
      reads this
    {
      if retention.MemoryOnlyRetention? then MemoryLog(events) else NullLog(lastSequence)
    }

    constructor (roomId: Id, retention: Retention, appendScope: Scope, readScope: Scope, clearScope: Scope)
      ensures this.roomId == roomId && this.retention == retention && this.appendScope == appendScope
      ensures this.readScope == readScope && this.clearScope == clearScope
      ensures State() == if retention.MemoryOnlyRetention? then MemoryLog([]) else NullLog(0)
    {
      this.roomId, this.retention := roomId, retention;
      this.appendScope, this.readScope, this.clearScope := appendScope, readScope, clearScope;
      events, lastSequence := [], 0;
    }

    method Append(event: E, eventRoom: Id, sequence: nat, decision: Decision) returns (r: Result<bool, LogError>)
      modifies this
      ensures LogAppend(old(State()), roomId, appendScope, event, eventRoom, sequence, decision) ==
        if r.Ok? then Ok(State()) else Err(r.error)
      ensures r.Err? ==> State() == old(State())
      ensures r.Ok? ==> (r.value <==> retention.MemoryOnlyRetention?)
    {
      if !Authorizes(decision, appendScope) {
        return Err(LogDecisionRejected);
      }
      if eventRoom != roomId {
        return Err(LogRoomMismatch);
      }
      if retention.MemoryOnlyRetention? {
        if sequence != |events| + 1 {
          return Err(LogSequenceMismatch);
        }
        events := events + [event];
      } else {
        lastSequence := sequence;
      }
      return Ok(retention.MemoryOnlyRetention?);
    }

    method ReadAll(decision: Decision) returns (r: Result<seq<E>, LogError>)
      ensures r == if !Authorizes(decision, readScope) then Err(LogDecisionRejected)
                   else if State().MemoryLog? then Ok(State().events) else Ok([])
    {
      if !Authorizes(decision, readScope) {
        return Err(LogDecisionRejected);
      }
      return Ok(if retention.MemoryOnlyRetention? then events else []);
    }

    method Clear(decision: Decision) returns (r: Result<nat, LogError>)
      modifies this
      ensures r == if !Authorizes(decision, clearScope) then Err(LogDecisionRejected)
                   else if old(State()).MemoryLog? then Ok(|old(State()).events|) else Ok(0)
      ensures State() == if r.Ok? && old(State()).MemoryLog? then MemoryLog([]) else old(State())
    {
      if !Authorizes(decision, clearScope) {
        return Err(LogDecisionRejected);
      }
      if retention.MemoryOnlyRetention? {
        r := Ok(|events|);
        events := [];
      } else {
        r := Ok(0);
      }
    }

    method NextLocalSequence() returns (n: nat)
      ensures n == NextSequence(State())
    {
      n := if retention.MemoryOnlyRetention? then |events| + 1 else lastSequence + 1;
    }
  }
}
