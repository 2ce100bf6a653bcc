/** Actions and their lifecycle (internal/gsbench/action.go, internal/gsbench/journal.go:10-18). */
module Actions {
  import opened Text

  datatype MutationState = Planned | Applied | Restoring | Restored | RestoreFailed

  type ActionKind = string

  const SQL_MUTATION: ActionKind := "SQL_MUTATION"
  const SESSION_SET: ActionKind := "SESSION_SET"
  const SESSION_TRANSACTION: ActionKind := "SESSION_TRANSACTION"
  const GUC_FILE_CHANGE: ActionKind := "GUC_FILE_CHANGE"
  const NETWORK_QDISC: ActionKind := "NETWORK_QDISC"
  const NETWORK_FIREWALL: ActionKind := "NETWORK_FIREWALL"
  const PROCESS_STATE: ActionKind := "PROCESS_STATE"
  const NODE_ROLE: ActionKind := "NODE_ROLE"
  const CLOUD_FAULT_JOB: ActionKind := "CLOUD_FAULT_JOB"
  const DATA_BASELINE: ActionKind := "DATA_BASELINE"

  /** Payloads are texts; an empty text is an absent payload. */
  datatype Action = Action(
    sequence: int,
    runID: string,
    scenario: int,
    kind: ActionKind,
    product: string,
    target: string,
    node: string,
    original: string,
    forward: string,
    inverse: string,
    verify: string,
    state: MutationState,
    lastError: string
  )

  /** Everything but the mutable state and its diagnostic. */
  function Body(a: Action): Action { a.(state := Planned, lastError := "") }

  predicate KnownProduct(product: string) { product == "openGauss" || product == "GaussDB" }

  predicate External(kind: ActionKind) {
    || kind == GUC_FILE_CHANGE || kind == NETWORK_QDISC || kind == NETWORK_FIREWALL
    || kind == PROCESS_STATE || kind == NODE_ROLE || kind == CLOUD_FAULT_JOB
  }
}
