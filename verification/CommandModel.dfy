/** Commands as the database stores them and the state machine that governs
    them (backend/src/commands/models.py, backend/src/commands/policy.py). */
module CommandModel {

  import opened Basics

  type Id = string

  datatype Status =
    | AwaitingApproval
    | Pending
    | Scheduled
    | Transmitting
    | Sent
    | Acked
    | Timeout
    | Retry
    | Dead

  /** Allowed next states per current state. */
  function Transitions(s: Status): set<Status> {
    match s
    case AwaitingApproval => {Pending, Dead}
    case Pending => {Scheduled, Dead}
    case Scheduled => {Transmitting, Pending, Dead}
    case Transmitting => {Sent, Timeout}
    case Sent => {Acked, Timeout, Dead}
    case Acked => {}
    case Timeout => {Retry, Dead}
    case Retry => {Transmitting, Scheduled, Pending, Dead}
    case Dead => {}
  }

  predicate Terminal(s: Status) {
    s == Acked || s == Dead
  }

  const MAX_RETRIES: nat := 3

  const UNSAFE_RETRY_TYPES: set<string> :=
    {"engine_fire", "deploy_antenna", "deploy_solar_panel", "separation"}

  const TWO_ADMIN_COMMANDS: set<string> := {"separation", "factory_reset"}

  /** The part of a row that no statement ever updates. */
  datatype Order = Order(
    satelliteId: string,
    commandType: string,
    params: map<string, string>,
    safeRetry: bool,
    key: Option<string>,
    createdBy: string,
    manual: bool)
  {
    predicate Retryable() {
      safeRetry && commandType !in UNSAFE_RETRY_TYPES
    }

    predicate NeedsTwoAdmins() {
      commandType in TWO_ADMIN_COMMANDS
    }
  }

  datatype Row = Row(
    order: Order,
    status: Status,
    retryCount: nat,
    scheduledAt: Option<Time>,
    sentAt: Option<Time>,
    ackedAt: Option<Time>,
    approvedBy: Option<string>)
  {
    predicate CanRetry() {
      order.Retryable() && retryCount < MAX_RETRIES
    }

    /** An ACK or NACK is valid for a row that went on air and is not finished. */
    predicate Answerable() {
      !Terminal(status) && (status == Transmitting || sentAt.Some?)
    }
  }

  /** A path of table edges, as a transaction of several updates walks it. */
  predicate IsPath(path: seq<Status>) {
    forall i :: 0 < i < |path| ==> path[i] in Transitions(path[i - 1])
  }
}
