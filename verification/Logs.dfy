/** The values that every stage of a submission passes on: logs, requests, events and outcomes. */
module Logs {

  datatype Option<+T> = None | Some(value: T)

  /** There are exactly two log types. */
  datatype LogType = RFC6962 | Static

  /** The strategy buckets, from worst to best. */
  datatype Bucket =
    | Excluded
    | MmdBlown
    | LowUptime
    | RecentBadResponse
    | RecentTimeout
    | Recent5xx
    | Recent4xx
    | SlowResponses
    | Neutral
    | Preferred
  {
    function Rank(): nat {
      match this
      case Excluded => 0
      case MmdBlown => 1
      case LowUptime => 2
      case RecentBadResponse => 3
      case RecentTimeout => 4
      case Recent5xx => 5
      case Recent4xx => 6
      case SlowResponses => 7
      case Neutral => 8
      case Preferred => 9
    }
  }

  /** The part of a strategy member that never changes once the strategy is fixed. */
  datatype Log = Log(url: string, operator: string, logType: LogType, bucket: Bucket)

  /** The policy fields of a submission request. */
  datatype Request = Request(
    policyCompliant: bool,
    testLogs: bool,
    operators: int,
    scts: int,
    requireRFC6962: bool,
    preferStatic: bool)

  /** The body of an add-chain response, and the SCT decoded from it. */
  type Response = string
  type Sct = string

  /** What a worker tells the coordinator about the log at strategy index `idx`. */
  datatype Event =
    | Success(idx: nat, response: Response, sct: Sct)
    | Failure(idx: nat, reason: string)
    | TryNext(idx: nat)
    | Slow(idx: nat)
  {
    predicate Terminal() { Success? || Failure? }
  }

  /** The outcome column of the strategy; `NoOutcome` is the empty string. */
  datatype Outcome =
    | NoOutcome
    | Successful
    | NotHelping
    | NotNeeded
    | CancelledQuorumMet
    | NotAttempted
    | Failed(reason: string)
    | ExcludedBy(reason: string)
}
