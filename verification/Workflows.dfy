/** The workflow state machine: which moves exist, and what a move records. */
module Workflows {
  import opened Wrappers

  datatype State =
    | Draft | Quoted | AwaitingSignature | BroadcastUnknown | Submitted | Confirming | StepConfirmed
    | Reconciling | ActionRequired | Reorged | ManualReview | Completed | Expired | UserRejected | Failed

  datatype NextAction = Sign | Requote | Wait | RetryRead | Reclaim | FollowUp | ContactSupport | Complete | StartNew

  datatype Actor = Worker | Ingestion | Adapter | Wallet | Sdk

  datatype Move = Move(from: State, to: State, actor: Actor, evidence: string)

  datatype Workflow = Workflow(id: string, state: State, nextAction: NextAction, transitions: seq<Move>)

  datatype FlowError = PlanInvalid | NoMoveDefined

  function Allowed(state: State): set<State> {
    match state
    case Draft => {Quoted, Expired, Failed}
    case Quoted => {AwaitingSignature, Expired, Failed}
    case AwaitingSignature => {Submitted, BroadcastUnknown, UserRejected, Expired, Failed, ActionRequired}
    case BroadcastUnknown => {Submitted, Confirming, BroadcastUnknown, ManualReview, Failed}
    case Submitted => {Confirming, BroadcastUnknown, Submitted, Reorged, Failed, ActionRequired}
    case Confirming => {StepConfirmed, Reorged, BroadcastUnknown, Confirming, ActionRequired, Failed}
    case StepConfirmed => {Reconciling, AwaitingSignature, Reorged, ActionRequired}
    case Reconciling => {Completed, StepConfirmed, Reorged, ActionRequired, Reconciling, Failed}
    case ActionRequired => {Confirming, AwaitingSignature, Reconciling, ManualReview, Failed}
    case Reorged => {Reconciling, Confirming, ManualReview, Failed}
    case ManualReview => {Reconciling, Failed}
    case Completed => {Reorged}
    case Expired => {}
    case UserRejected => {}
    case Failed => {}
  }

  function NextActionFor(state: State, evidence: string): NextAction {
    match state
    case Draft => Requote
    case Quoted => Sign
    case AwaitingSignature => Sign
    case BroadcastUnknown => RetryRead
    case Submitted => if "outage:" <= evidence then RetryRead else Wait
    case Confirming => if "outage:" <= evidence then RetryRead else Wait
    case StepConfirmed => if "outage:" <= evidence then RetryRead else Wait
    case Reconciling => if "outage:" <= evidence then RetryRead else Wait
    case ActionRequired =>
      if "partial:" <= evidence then FollowUp
      else if "outage:" <= evidence then RetryRead
      else if "mismatch:" <= evidence then ContactSupport
      else Reclaim
    case Reorged => ContactSupport
    case ManualReview => ContactSupport
    case Completed => Complete
    case Expired => Requote
    case UserRejected => StartNew
    case Failed => StartNew
  }

  function Transition(w: Workflow, to: State, actor: Actor, evidence: string): Result<Workflow, FlowError> {
    if to !in Allowed(w.state) then Err(PlanInvalid)
    else Ok(w.(state := to, nextAction := NextActionFor(to, evidence),
               transitions := w.transitions + [Move(w.state, to, actor, evidence)]))
  }

  function BeginConfirming(w: Workflow, evidence: string): Result<Workflow, FlowError> {
    if w.state !in {Submitted, ActionRequired, Reorged} then Err(PlanInvalid)
    else Transition(w, Confirming, Worker, evidence)
  }

  function MarkStepConfirmed(w: Workflow, evidence: string): Result<Workflow, FlowError> {
    if w.state != Confirming then Err(PlanInvalid)
    else Transition(w, StepConfirmed, Worker, evidence)
  }

  function ApplyReorgToWorkflow(w: Workflow, evidence: string): Result<Workflow, FlowError> {
    if w.state in {Expired, UserRejected, Failed, Reorged} then Ok(w)
    else Transition(w, Reorged, Ingestion, evidence)
  }

  // ----- The tables, read the other way round -----

  /** From where a state can be reached. */
  ghost function Into(state: State): set<State> {
    match state
    case Draft => {}
    case Quoted => {Draft}
    case AwaitingSignature => {Quoted, StepConfirmed, ActionRequired}
    case BroadcastUnknown => {AwaitingSignature, BroadcastUnknown, Submitted, Confirming}
    case Submitted => {AwaitingSignature, BroadcastUnknown, Submitted}
    case Confirming => {BroadcastUnknown, Submitted, Confirming, ActionRequired, Reorged}
    case StepConfirmed => {Confirming, Reconciling}
    case Reconciling => {StepConfirmed, Reconciling, ActionRequired, Reorged, ManualReview}
    case ActionRequired => {AwaitingSignature, Submitted, Confirming, StepConfirmed, Reconciling}
    case Reorged => {Submitted, Confirming, StepConfirmed, Reconciling, Completed}
    case ManualReview => {BroadcastUnknown, ActionRequired, Reorged}
    case Completed => {Reconciling}
    case Expired => {Draft, Quoted, AwaitingSignature}
    case UserRejected => {AwaitingSignature}
    case Failed =>
      {Draft, Quoted, AwaitingSignature, BroadcastUnknown, Submitted, Confirming, Reconciling, ActionRequired, Reorged,
       ManualReview}
  }

  lemma EdgesIff(from: State, to: State)
    ensures to in Allowed(from) <==> from in Into(to)
  {
    match to {
      case Draft => case Quoted => case AwaitingSignature => case BroadcastUnknown => case Submitted =>
      case Confirming => case StepConfirmed => case Reconciling => case ActionRequired => case Reorged =>
      case ManualReview => case Completed => case Expired => case UserRejected => case Failed =>
    }
  }

  /** An outage is retried while a transaction is under way, or while a person is asked to act. */
  ghost predicate Retried(state: State, evidence: string) {
    "outage:" <= evidence && state in {Submitted, Confirming, StepConfirmed, Reconciling, ActionRequired}
  }

  /** Which states ask the user for what. */
  lemma ActionsIff(state: State, evidence: string)
    ensures var action := NextActionFor(state, evidence);
      && (action == Sign <==> state in {Quoted, AwaitingSignature})
      && (action == Requote <==> state in {Draft, Expired})
      && (action == StartNew <==> state in {UserRejected, Failed})
      && (action == Complete <==> state == Completed)
      && (action == RetryRead <==> state == BroadcastUnknown || Retried(state, evidence))
      && (action == Wait <==>
            state in {Submitted, Confirming, StepConfirmed, Reconciling} && !Retried(state, evidence))
      && (action == FollowUp <==> state == ActionRequired && "partial:" <= evidence)
      && (action == ContactSupport <==>
            state in {Reorged, ManualReview} || (state == ActionRequired && "mismatch:" <= evidence))
      && (action == Reclaim <==>
            && state == ActionRequired
            && !("partial:" <= evidence) && !("outage:" <= evidence) && !("mismatch:" <= evidence))
  {
    if "partial:" <= evidence { assert evidence[0] == "partial:"[0] == 'p'; }
    if "outage:" <= evidence { assert evidence[0] == "outage:"[0] == 'o'; }
    if "mismatch:" <= evidence { assert evidence[0] == "mismatch:"[0] == 'm'; }
  }
}
