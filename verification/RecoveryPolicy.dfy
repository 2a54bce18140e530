/** The recovery decision table (src/ai_hq/recovery/policy.py). */
module RecoveryPolicy {
  import opened Prelude

  /** The five registered components, and any other name a caller may pass. */
  datatype Component = App | Mcp | Proxy | Tunnel | Database | Unlisted(name: string)

  /** A service state after case folding: inactive or failed, active or running, anything else. */
  datatype ServiceState = Down | Running | Uncertain

  /** A JSON value read with `is True` / `is False`. */
  datatype Flag = Yes | No | Unstated

  datatype Storage = Storage(available: Flag, writable: Flag, belowReserve: Flag)

  /** `storage` is None when the readiness report holds no storage object. */
  datatype Readiness = Readiness(ok: Flag, database: Flag, storage: Option<Storage>)

  datatype Action = Observe | Diagnose | Recover | Escalate | Healthy

  datatype Reason =
    | StorageUnavailable | StorageUnwritable | StorageBelowReserve
    | ReadinessHealthy | ThresholdNotMet | ComponentNotIdentified | UnknownComponent
    | DatabaseDown | DatabaseRunningButUnhealthy | DatabaseRequiresDiagnosis
    | ServiceDown | ServiceRunningReadinessFailed | ServiceStateUncertain

  datatype Decision = Decision(action: Action, component: Option<Component>, reason: Reason)

  predicate StorageCritical(readiness: Readiness) {
    readiness.storage.Some? && (readiness.storage.value.available.No? || readiness.storage.value.writable.No?)
  }

  /** Storage that works but has less room than its reserve. */
  predicate StorageLow(readiness: Readiness) {
    readiness.storage.Some? && readiness.storage.value.belowReserve.Yes?
  }

  function StorageDecision(readiness: Readiness): Option<Decision> {
    match readiness.storage
    case None => None
    case Some(storage) =>
      if storage.available.No? then Some(Decision(Escalate, None, StorageUnavailable))
      else if storage.writable.No? then Some(Decision(Escalate, None, StorageUnwritable))
      else if readiness.ok.Yes? && storage.belowReserve.Yes? then Some(Decision(Observe, None, StorageBelowReserve))
      else None
  }

  /** Recovery is chosen for exactly the persistent failures of a listed component whose service is down. */
  function DecideRecovery(
    component: Option<Component>, service: ServiceState, failures: int, threshold: int, readiness: Readiness)
    : (d: Decision)
    ensures d.action == Recover <==>
            && !StorageCritical(readiness) && !readiness.ok.Yes?
            && failures >= threshold
            && component.Some? && !component.value.Unlisted?
            && service.Down?
    ensures d.action == Recover ==> d.component == component
    ensures d.action == Escalate <==>
            || StorageCritical(readiness)
            || (&& !readiness.ok.Yes? && failures >= threshold && component.Some?
                && (|| component.value.Unlisted?
                    || (component.value.Database? && service.Running? && readiness.database.No?)))
    ensures d.action == Healthy <==> !StorageCritical(readiness) && readiness.ok.Yes? && !StorageLow(readiness)
    ensures d.action == Observe <==>
            && !StorageCritical(readiness)
            && if readiness.ok.Yes? then StorageLow(readiness) else failures < threshold
    ensures d.reason == StorageUnavailable <==> readiness.storage.Some? && readiness.storage.value.available.No?
    ensures d.reason == StorageUnwritable <==> StorageCritical(readiness) && !readiness.storage.value.available.No?
    ensures d.action in {Diagnose, Escalate} && !StorageCritical(readiness) ==>
              d.reason == if component.None? then ComponentNotIdentified
                          else if component.value.Unlisted? then UnknownComponent
                          else if component.value.Database?
                               then if d.action == Escalate then DatabaseRunningButUnhealthy else DatabaseRequiresDiagnosis
                               else if service.Running? then ServiceRunningReadinessFailed else ServiceStateUncertain
  {
    var storage := StorageDecision(readiness);
    if storage.Some? then storage.value
    else if readiness.ok.Yes? then Decision(Healthy, None, ReadinessHealthy)
    else if failures < threshold then Decision(Observe, component, ThresholdNotMet)
    else if component.None? then Decision(Diagnose, None, ComponentNotIdentified)
    else if component.value.Unlisted? then Decision(Escalate, None, UnknownComponent)
    else if component.value.Database? then
      if service.Down? then Decision(Recover, component, DatabaseDown)
      else if service.Running? && readiness.database.No? then Decision(Escalate, component, DatabaseRunningButUnhealthy)
      else Decision(Diagnose, component, DatabaseRequiresDiagnosis)
    else if service.Down? then Decision(Recover, component, ServiceDown)
    else if service.Running? then Decision(Diagnose, component, ServiceRunningReadinessFailed)
    else Decision(Diagnose, component, ServiceStateUncertain)
  }
}
