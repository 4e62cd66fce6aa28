/**
 The Slack interaction server (src/server.rs): the in-flight set, and one button click as a sequence
 of steps from its feedback check to the Mastodon call or the feedback write.
 */
module Server {
  import opened Wrappers
  import opened Accounts
  import opened Redis

  datatype Button = Suspend | Delete | ConfirmSpam | MarkFalsePositive

  datatype TaskPhase =
    | CheckFeedback     // refuse_if_cleared
    | CheckSuspended    // is_account_suspended
    | Issuing           // the destructive request is about to be sent
    | Calling           // the destructive request is under way
    | WriteFeedback     // record_feedback
    | Closing           // bookkeeping and the Slack update

  /** A click being handled; it holds the account's in-flight claim. */
  datatype Task = Task(id: AccountId, button: Button, phase: TaskPhase)

  datatype TaskInput =
    | FeedbackRead(ok: bool)
    | SuspensionRead(suspended: Option<bool>)   // `None` when the check itself failed
    | RequestSent
    | RequestAnswered
    | FeedbackSent(answered: bool, applied: bool)

  function FirstPhase(button: Button): TaskPhase {
    match button
    case Suspend => CheckFeedback
    case Delete => CheckFeedback
    case ConfirmSpam => WriteFeedback
    case MarkFalsePositive => WriteFeedback
  }

  function FeedbackOf(button: Button): JobStatus
    requires button.ConfirmSpam? || button.MarkFalsePositive?
  {
    if button.ConfirmSpam? then ConfirmedSpam else FalsePositive
  }

  /** After the suspension check: suspending proceeds unless already done, deleting needs it done. */
  function AfterSuspensionCheck(button: Button, suspended: Option<bool>): TaskPhase {
    if button.Suspend? then (if suspended == Some(true) then Closing else Issuing)
    else (if suspended == Some(true) then Issuing else Closing)
  }

  /** The next state of Redis and of the click. */
  function TaskStep(r: State, now: nat, task: Task, input: TaskInput): Option<(State, TaskPhase)> {
    match (task.phase, input)
    case (CheckFeedback, FeedbackRead(ok)) =>
      Some((r, if !ok || FeedbackStatus(r, task.id) == Some(FalsePositive) then Closing else CheckSuspended))
    case (CheckSuspended, SuspensionRead(suspended)) =>
      Some((r, AfterSuspensionCheck(task.button, suspended)))
    case (Issuing, RequestSent) => Some((r, Calling))
    case (Calling, RequestAnswered) => Some((r, Closing))
    case (WriteFeedback, FeedbackSent(answered, applied)) =>
      if task.button.ConfirmSpam? || task.button.MarkFalsePositive?
      then Some((if answered || applied then RecordFeedback(r, now, task.id, FeedbackOf(task.button)).0 else r, Closing))
      else None
    case (_, _) => None
  }
}
