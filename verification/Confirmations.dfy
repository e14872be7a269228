/** How far chain evidence moves a submitted workflow, and what a confirmed step is worth. */
module Confirmations {
  import opened Wrappers
  import opened Evidence
  import opened Ingest
  import opened Lineage
  import opened Runs
  import opened Workflows

  /** What the provider reports about a transaction. A pending one has no block yet. */
  datatype Transaction = Transaction(
    status: string, canonical: bool, blockHeight: Option<nat>, blockHash: Option<string>)

  datatype Input = Input(
    state: State, transaction: Option<Transaction>, checkpointHeight: Option<nat>,
    blockStillCanonical: bool, isFinalStep: bool)

  const SUCCESS := "success"
  const PENDING := "pending"
  const ABORTED := {"abort_by_response", "abort_by_post_condition"}
  const DROPPED := {"dropped_replace_by_fee", "dropped_replace_across_fork", "dropped_too_expensive",
                    "dropped_stale_garbage_collect", "dropped_problematic"}

  predicate Waiting(state: State) {
    state == Submitted || state == Confirming
  }

  /** The states to walk through, in order. */
  function ConfirmationDecision(input: Input): seq<State> {
    if !Waiting(input.state) then []
    else match input.transaction
    case None => []
    case Some(tx) =>
      if tx.status == PENDING || tx.blockHeight.None? then []
      else if tx.status in ABORTED then [Failed]
      else if tx.status in DROPPED then [ActionRequired]
      else if tx.status != SUCCESS then []
      else if !tx.canonical || !input.blockStillCanonical then [Reorged]
      else
        var confirming := if input.state == Submitted then [Confirming] else [];
        if !Ahead(input.checkpointHeight, tx.blockHeight.value) then confirming
        else confirming + [StepConfirmed] + if input.isFinalStep then [] else [AwaitingSignature]
  }

  predicate Ahead(checkpointHeight: Option<nat>, blockHeight: nat) {
    checkpointHeight.Some? && checkpointHeight.value > blockHeight
  }

  /** One case of the switch. */
  function MoveTo(flow: Workflow, state: State, evidence: string): Result<Workflow, FlowError> {
    match state
    case Confirming => BeginConfirming(flow, evidence)
    case StepConfirmed => MarkStepConfirmed(flow, evidence)
    case Reorged => ApplyReorgToWorkflow(flow, evidence)
    case AwaitingSignature => Transition(flow, AwaitingSignature, Worker, evidence)
    case Failed => Transition(flow, Failed, Worker, evidence)
    case ActionRequired => Transition(flow, ActionRequired, Worker, evidence)
    case _ => Err(NoMoveDefined)
  }

  function WalkStates(flow: Workflow, states: seq<State>, evidence: string): Result<Workflow, FlowError>
    decreases |states|
  {
    if states == [] then Ok(flow)
    else match MoveTo(flow, states[0], evidence)
    case Err(e) => Err(e)
    case Ok(next) => WalkStates(next, states[1..], evidence)
  }

  method ApplyConfirmation(workflow: Workflow, states: seq<State>, evidence: string)
    returns (r: Result<Workflow, FlowError>)
    ensures r == WalkStates(workflow, states, evidence)
  {
    var flow := workflow;
    var i := 0;
    while i < |states|
      invariant 0 <= i <= |states|
      invariant WalkStates(workflow, states, evidence) == WalkStates(flow, states[i..], evidence)
    {
      var moved := MoveTo(flow, states[i], evidence);
      assert states[i..][1..] == states[i + 1..];
      if moved.Err? { return Err(moved.error); }
      flow := moved.value;
      i := i + 1;
    }
    r := Ok(flow);
  }

  /** Moves that follow one another along allowed edges, starting from a state. */
  ghost predicate Trail(from: State, moves: seq<Move>)
    decreases |moves|
  {
    moves != [] ==> moves[0].from == from && moves[0].to in Allowed(from) && Trail(moves[0].to, moves[1..])
  }

  /**
   * What an unbroken trail tells, move by move: nothing leaves an ended workflow, only reconciling completes one,
   * a completed one can only be reorged, a step is confirmed only from a block or a reconciliation, and a signature
   * is asked for only by a quote, a confirmed step or a person.
   */
  lemma {:induction false} TrailTells(from: State, moves: seq<Move>, i: nat)
    requires Trail(from, moves) && i < |moves|
    ensures var m := moves[i];
      && m.from == (if i == 0 then from else moves[i - 1].to)
      && m.from !in {Expired, UserRejected, Failed}
      && (m.to == Completed ==> m.from == Reconciling)
      && (m.from == Completed ==> m.to == Reorged)
      && (m.to == StepConfirmed ==> m.from in {Confirming, Reconciling})
      && (m.to == AwaitingSignature ==> m.from in {Quoted, StepConfirmed, ActionRequired})
      && (m.to == Submitted ==> m.from in {AwaitingSignature, BroadcastUnknown, Submitted})
      && (m.to == Quoted ==> m.from == Draft)
      && m.to != Draft
    decreases i
  {
    if i > 0 { TrailTells(moves[0].to, moves[1..], i - 1); }
  }

  ghost predicate Completable(from: State) {
    exists moves :: Trail(from, moves) && EndState(from, Targets(moves)) == Completed
  }

  lemma {:induction false} CompletableBy(from: State, next: State)
    requires next in Allowed(from) && Completable(next)
    ensures Completable(from)
  {
    var rest :| Trail(next, rest) && EndState(next, Targets(rest)) == Completed;
    var moves := [Move(from, next, Adapter, "")] + rest;
    assert moves[1..] == rest;
    EndFirst(from, moves);
    assert Trail(from, moves) && EndState(from, Targets(moves)) == Completed;
  }

  lemma {:induction false} EndedStays(from: State)
    requires from in {Expired, UserRejected, Failed}
    ensures !Completable(from)
  {
    forall moves | Trail(from, moves) ensures EndState(from, Targets(moves)) != Completed {
      assert moves == [];
    }
  }

  /** Every workflow that has not ended can still be completed, and no other. */
  lemma {:induction false} CompletableIff(from: State)
    ensures Completable(from) <==> from !in {Expired, UserRejected, Failed}
  {
    if from in {Expired, UserRejected, Failed} {
      EndedStays(from);
    } else {
      StillCompletable(from);
    }
  }

  lemma {:induction false} StillCompletable(from: State)
    requires from !in {Expired, UserRejected, Failed}
    ensures Completable(from)
  {
    assert Trail(Completed, []) && EndState(Completed, Targets([])) == Completed;
    CompletableBy(Reconciling, Completed);
    CompletableBy(StepConfirmed, Reconciling);
    CompletableBy(ActionRequired, Reconciling);
    CompletableBy(Reorged, Reconciling);
    CompletableBy(ManualReview, Reconciling);
    CompletableBy(Confirming, StepConfirmed);
    CompletableBy(Submitted, Confirming);
    CompletableBy(BroadcastUnknown, Submitted);
    CompletableBy(AwaitingSignature, Submitted);
    CompletableBy(Quoted, AwaitingSignature);
    CompletableBy(Draft, Quoted);
  }

  function EndState(from: State, states: seq<State>): State {
    if states == [] then from else states[|states| - 1]
  }

  function Targets(moves: seq<Move>): seq<State> {
    if moves == [] then [] else [moves[0].to] + Targets(moves[1..])
  }

  /** A move the switch makes without throwing. */
  predicate Movable(from: State, to: State) {
    && to in Allowed(from)
    && match to
       case Confirming => from in {Submitted, ActionRequired, Reorged}
       case StepConfirmed => from == Confirming
       case Reorged => from !in {Expired, UserRejected, Failed, Reorged}
       case _ => to in {AwaitingSignature, Failed, ActionRequired}
  }

  predicate MovablePath(from: State, states: seq<State>)
    decreases |states|
  {
    states != [] ==> Movable(from, states[0]) && MovablePath(states[0], states[1..])
  }

  /** A movable step is made, and records one move. */
  lemma {:induction false} MoveApplies(w: Workflow, to: State, evidence: string) returns (next: Workflow, move: Move)
    requires Movable(w.state, to)
    ensures MoveTo(w, to, evidence) == Ok(next)
    ensures next.id == w.id && next.state == to && next.transitions == w.transitions + [move]
    ensures move == Move(w.state, to, if to == Reorged then Ingestion else Worker, evidence)
    ensures "tx:" <= evidence ==> Asks(to, next.nextAction)
  {
    if "tx:" <= evidence {
      assert evidence[0] == 't' && "partial:"[0] == 'p' && "outage:"[0] == 'o' && "mismatch:"[0] == 'm';
    }
    next := MoveTo(w, to, evidence).value;
    move := next.transitions[|w.transitions|];
  }

  /** The moves a walk through the given states records. */
  ghost function MovesFor(from: State, states: seq<State>, evidence: string): seq<Move>
    decreases |states|
  {
    if states == [] then []
    else
      [Move(from, states[0], if states[0] == Reorged then Ingestion else Worker, evidence)]
        + MovesFor(states[0], states[1..], evidence)
  }

  lemma {:induction false} MovesAre(from: State, states: seq<State>, evidence: string)
    requires MovablePath(from, states)
    ensures var moves := MovesFor(from, states, evidence);
      Trail(from, moves) && Targets(moves) == states && Stamped(moves, evidence)
    decreases |states|
  {
    if states != [] {
      MovesAre(states[0], states[1..], evidence);
      assert MovesFor(from, states, evidence)[1..] == MovesFor(states[0], states[1..], evidence);
    }
  }

  lemma {:induction false} PathApplies(w: Workflow, states: seq<State>, evidence: string)
    requires MovablePath(w.state, states)
    ensures var r := WalkStates(w, states, evidence);
      && r.Ok? && r.value.id == w.id
      && r.value.state == EndState(w.state, states)
      && r.value.transitions == w.transitions + MovesFor(w.state, states, evidence)
    decreases |states|
  {
    if states == [] {
      assert w.transitions + [] == w.transitions;
    } else {
      var next, move := MoveApplies(w, states[0], evidence);
      PathApplies(next, states[1..], evidence);
      var rest := MovesFor(states[0], states[1..], evidence);
      assert w.transitions + ([move] + rest) == w.transitions + [move] + rest;
    }
  }

  /** Where the walk ends decides what the user is asked. */
  lemma {:induction false} PathAsks(w: Workflow, states: seq<State>, evidence: string)
    requires MovablePath(w.state, states) && states != [] && "tx:" <= evidence
    ensures var r := WalkStates(w, states, evidence); r.Ok? && Asks(EndState(w.state, states), r.value.nextAction)
    decreases |states|
  {
    var next, move := MoveApplies(w, states[0], evidence);
    if |states| > 1 { PathAsks(next, states[1..], evidence); }
  }

  lemma DecisionIsPath(input: Input)
    ensures MovablePath(input.state, ConfirmationDecision(input))
  {
    var states := ConfirmationDecision(input);
    if |states| == 1 {
      assert states[1..] == [];
    } else if |states| == 2 {
      assert states[1..] == [states[1]] && [states[1]][1..] == [];
    } else if |states| == 3 {
      assert states[1..] == [states[1], states[2]];
      assert [states[1], states[2]][1..] == [states[2]] && [states[2]][1..] == [];
      assert MovablePath(states[1], [states[2]]) && MovablePath(states[0], [states[1], states[2]]);
    }
  }

  /**
   * Which evidence decides what, for every input. With the order below the memberships leave one list of states for
   * each input: a reverted transaction fails the workflow, a dropped one is handed to a person, a replaced block is
   * a reorg, and only a success in a canonical block below the checkpoint confirms.
   */
  lemma DecidesExactly(input: Input)
    ensures var states := ConfirmationDecision(input);
      var mined := input.state in {Submitted, Confirming} && input.transaction.Some?
        && input.transaction.value.blockHeight.Some?;
      var succeeded := mined && input.transaction.value.status == "success";
      var standing := succeeded && input.transaction.value.canonical && input.blockStillCanonical;
      var buried := standing && input.checkpointHeight.Some?
        && input.transaction.value.blockHeight.value < input.checkpointHeight.value;
      && (Failed in states <==>
          mined && input.transaction.value.status in {"abort_by_response", "abort_by_post_condition"})
      && (ActionRequired in states <==>
          mined && input.transaction.value.status in {
            "dropped_replace_by_fee", "dropped_replace_across_fork", "dropped_too_expensive",
            "dropped_stale_garbage_collect", "dropped_problematic"})
      && (Reorged in states <==> succeeded && !standing)
      && (Confirming in states <==> standing && input.state == Submitted)
      && (StepConfirmed in states <==> buried)
      && (AwaitingSignature in states <==> buried && !input.isFinalStep)
    ensures ConfirmationDecision(input) in {
      [], [Failed], [ActionRequired], [Reorged], [Confirming], [StepConfirmed], [Confirming, StepConfirmed],
      [StepConfirmed, AwaitingSignature], [Confirming, StepConfirmed, AwaitingSignature]}
  {
    var states := ConfirmationDecision(input);
    if StepConfirmed in states {
      var confirming := if input.state == Submitted then [Confirming] else [];
      assert states == confirming + [StepConfirmed] + if input.isFinalStep then [] else [AwaitingSignature];
      var rest := if input.isFinalStep then [StepConfirmed] else [StepConfirmed, AwaitingSignature];
      assert states == confirming + rest;
      assert confirming == [] ==> states == rest;
      assert confirming != [] && input.isFinalStep ==> states == [Confirming, StepConfirmed];
      assert confirming != [] && !input.isFinalStep ==> states == [Confirming, StepConfirmed, AwaitingSignature];
    }
  }

  /** What each recorded move carries: the evidence it was made on, and who made it. */
  ghost predicate Stamped(moves: seq<Move>, evidence: string) {
    forall m | m in moves :: m.evidence == evidence && m.actor == if m.to == Reorged then Ingestion else Worker
  }

  /** What the user is asked to do after a decision. */
  ghost predicate Asks(state: State, action: NextAction) {
    && (state in {Confirming, StepConfirmed} ==> action == Wait)
    && (state == AwaitingSignature ==> action == Sign)
    && (state == Failed ==> action == StartNew)
    && (state == ActionRequired ==> action == Reclaim)
    && (state == Reorged ==> action == ContactSupport)
  }

  /** Applying a decision never throws and records exactly its states, as one trail of allowed moves. */
  lemma DecisionApplies(input: Input, w: Workflow, evidence: string) returns (more: seq<Move>)
    requires w.state == input.state
    ensures var states := ConfirmationDecision(input);
      var r := WalkStates(w, states, evidence);
      && r.Ok? && r.value.id == w.id
      && r.value.state == EndState(w.state, states)
      && r.value.transitions == w.transitions + more
      && Trail(w.state, more) && Targets(more) == states
    ensures Stamped(more, evidence)
    ensures var states := ConfirmationDecision(input);
      "tx:" <= evidence && states != [] ==>
        Asks(EndState(w.state, states), WalkStates(w, states, evidence).value.nextAction)
  {
    DecisionIsPath(input);
    more := MovesFor(w.state, ConfirmationDecision(input), evidence);
    MovesAre(w.state, ConfirmationDecision(input), evidence);
    PathApplies(w, ConfirmationDecision(input), evidence);
    if "tx:" <= evidence && ConfirmationDecision(input) != [] {
      PathAsks(w, ConfirmationDecision(input), evidence);
    }
  }

  /** Evidence seen over two ticks moves a workflow through the same states as evidence seen at once. */
  lemma TwoTicksAreOne(state: State, tx: Transaction, early: Option<nat>, late: Option<nat>, still: bool, isFinal: bool)
    requires early.Some? ==> late.Some? && early.value <= late.value
    ensures var first := ConfirmationDecision(Input(state, Some(tx), early, still, isFinal));
      var second := ConfirmationDecision(Input(EndState(state, first), Some(tx), late, still, isFinal));
      first + second == ConfirmationDecision(Input(state, Some(tx), late, still, isFinal))
  {
  }

  // ----- Against the stored chain -----

  /** The stored block at the transaction's height, if there is one, is the transaction's block. */
  ghost predicate StillCanonical(l: Ledger, tx: Transaction) {
    tx.blockHash.Some? && tx.blockHeight.Some? && FoundAt(l, tx.blockHeight.value).Some? ==>
      FoundAt(l, tx.blockHeight.value).value == tx.blockHash.value
  }

  datatype AwaitingRow = AwaitingRow(
    workflowId: string, state: State, txid: string, transitionCount: nat, isFinalStep: bool)

  ghost function RowStates(l: Ledger, checkpointHeight: Option<nat>, row: AwaitingRow, tx: Transaction): seq<State> {
    ConfirmationDecision(Input(row.state, Some(tx), checkpointHeight, StillCanonical(l, tx), row.isFinalStep))
  }

  /** A transaction that executed, in a block the provider calls canonical. */
  predicate Executed(tx: Transaction) {
    tx.status == SUCCESS && tx.canonical && tx.blockHeight.Some? && tx.blockHash.Some?
  }

  /**
   * Judged against a whole chain, a step is confirmed exactly when its block is a canonical ancestor
   * of the checkpoint, strictly below it.
   */
  lemma ConfirmedIffBuried(hdr: string -> Header, l: Ledger, base: nat, row: AwaitingRow, tx: Transaction)
    requires Sound(hdr, l) && Whole(hdr, l, base)
    requires Waiting(row.state) && Executed(tx) && tx.blockHeight.value >= base
    ensures var c := l.checkpoint.value;
      StepConfirmed in RowStates(l, Some(c.height), row, tx) <==>
        && tx.blockHeight.value < c.height
        && tx.blockHash.value == Link(hdr, c, tx.blockHeight.value)
        && CanonicalAt(l, tx.blockHash.value, tx.blockHeight.value)
  {
    var c := l.checkpoint.value;
    var h := tx.blockHeight.value;
    if h < c.height {
      WholeIsLinked(hdr, l, base, h);
      assert CanonicalAt(l, Link(hdr, c, h), h);
    }
  }

  /** A reorg that replaced the block is reported, never confirmed. */
  lemma ReplacedIsReorged(hdr: string -> Header, l: Ledger, base: nat, row: AwaitingRow, tx: Transaction)
    requires Sound(hdr, l) && Whole(hdr, l, base)
    requires Waiting(row.state) && Executed(tx) && base <= tx.blockHeight.value <= l.checkpoint.value.height
    ensures Reorged in RowStates(l, Some(l.checkpoint.value.height), row, tx) <==>
            tx.blockHash.value != Link(hdr, l.checkpoint.value, tx.blockHeight.value)
  {
    WholeIsLinked(hdr, l, base, tx.blockHeight.value);
  }

  /** Outside the stored chain the provider's word is taken: no stored block, or no reported hash. */
  lemma UnstoredTrusts(l: Ledger, checkpointHeight: Option<nat>, row: AwaitingRow, tx: Transaction)
    requires Waiting(row.state) && tx.status == SUCCESS && tx.canonical && tx.blockHeight.Some?
    requires tx.blockHash.None? || !HeightTaken(l, tx.blockHeight.value)
    ensures StepConfirmed in RowStates(l, checkpointHeight, row, tx) <==> Ahead(checkpointHeight, tx.blockHeight.value)
  {
  }

  /**
   * At a height below the checkpoint confirmed means buried, whatever hash is reported, exactly when the ancestor
   * of the checkpoint at that height is stored as canonical.
   */
  lemma BuriedExactIff(hdr: string -> Header, l: Ledger, row: AwaitingRow, h: nat)
    requires Sound(hdr, l) && Waiting(row.state) && l.checkpoint.Some? && h < l.checkpoint.value.height
    ensures (forall tx: Transaction | Executed(tx) && tx.blockHeight == Some(h)
               && StepConfirmed in RowStates(l, Some(l.checkpoint.value.height), row, tx) ::
               tx.blockHash == Some(Link(hdr, l.checkpoint.value, h)))
            <==> CanonicalAt(l, Link(hdr, l.checkpoint.value, h), h)
  {
    var c := l.checkpoint.value;
    var link, found := Link(hdr, c, h), FoundAt(l, h);
    if CanonicalAt(l, link, h) {
      assert found == Some(link);
    } else {
      if found.Some? { assert CanonicalAt(l, found.value, h); }
      var other := if found.Some? then found.value else link + "'";
      var tx := Transaction(SUCCESS, true, Some(h), Some(other));
      assert StillCanonical(l, tx) && Executed(tx);
      assert StepConfirmed in RowStates(l, Some(c.height), row, tx);
      assert other != link;
    }
  }

  /** The height a tick hands on to confirmation. */
  function ReportedHeight(result: Result<BlockResult, TickError>): Option<nat> {
    if result.Ok? && result.value.checkpoint.Some? then Some(result.value.checkpoint.value.height) else None
  }

  /** A run, a tick that does not throw, and the logs stored after it. */
  ghost function Worked(steps: seq<Step>, view: nat -> View, limits: Limits, logs: seq<Step>): seq<Step> {
    steps + ([Ticked(view, limits)] + logs)
  }

  lemma {:induction false} LogsKeepCheckpoint(l: Ledger, logs: seq<Step>)
    requires forall s | s in logs :: s.Logged?
    ensures Run(l, logs).checkpoint == l.checkpoint
    decreases |logs|
  {
    if logs != [] {
      assert logs[0] in logs;
      LogsKeepCheckpoint(Stepped(l, logs[0]), logs[1..]);
    }
  }

  /** The height the tick reports is that of the checkpoint confirmation finds. */
  lemma ReportedIsStored(steps: seq<Step>, view: nat -> View, limits: Limits, logs: seq<Step>)
    requires forall s | s in logs :: s.Logged?
    requires Tick(Run(EMPTY, steps), view, 0, limits).result.Ok?
    ensures var l := Run(EMPTY, Worked(steps, view, limits, logs));
      && l.checkpoint.Some?
      && ReportedHeight(Tick(Run(EMPTY, steps), view, 0, limits).result) == Some(l.checkpoint.value.height)
  {
    var before, tick := Run(EMPTY, steps), [Ticked(view, limits)];
    RunThen(EMPTY, steps, tick + logs);
    assert (tick + logs)[0] == tick[0] && (tick + logs)[1..] == logs;
    LogsKeepCheckpoint(Stepped(before, tick[0]), logs);
    TickReports(before, view, 0, limits);
  }

  /**
   * The order of the worker, ingestion then logs then confirmation, over a whole run that recorded no orphan: judged
   * by the height the last tick reports, for every transaction at or above the run's base, confirmed means buried
   * and reorged means replaced.
   */
  lemma RunConfirms(hdr: string -> Header, steps: seq<Step>, view: nat -> View, limits: Limits, logs: seq<Step>,
                    row: AwaitingRow, tx: Transaction)
    requires forall s | s in Worked(steps, view, limits, logs) :: HonestStep(hdr, s)
    requires NeverRevives(EMPTY, Worked(steps, view, limits, logs)) && forall s | s in logs :: s.Logged?
    requires Tick(Run(EMPTY, steps), view, 0, limits).result.Ok?
    requires Waiting(row.state) && Executed(tx)
    requires BaseAfter(EMPTY, Worked(steps, view, limits, logs), 0) <= tx.blockHeight.value
    ensures var l := Run(EMPTY, Worked(steps, view, limits, logs));
      var reported := ReportedHeight(Tick(Run(EMPTY, steps), view, 0, limits).result);
      && l.checkpoint.Some?
      && (StepConfirmed in RowStates(l, reported, row, tx) <==>
            && tx.blockHeight.value < l.checkpoint.value.height
            && tx.blockHash.value == Link(hdr, l.checkpoint.value, tx.blockHeight.value)
            && CanonicalAt(l, tx.blockHash.value, tx.blockHeight.value))
    ensures var l := Run(EMPTY, Worked(steps, view, limits, logs));
      var reported := ReportedHeight(Tick(Run(EMPTY, steps), view, 0, limits).result);
      && l.checkpoint.Some?
      && (tx.blockHeight.value <= l.checkpoint.value.height ==>
            (Reorged in RowStates(l, reported, row, tx) <==>
             tx.blockHash.value != Link(hdr, l.checkpoint.value, tx.blockHeight.value)))
  {
    ReportedIsStored(steps, view, limits, logs);
    WholeRunConfirms(hdr, Worked(steps, view, limits, logs), row, tx);
  }

  lemma WholeRunConfirms(hdr: string -> Header, steps: seq<Step>, row: AwaitingRow, tx: Transaction)
    requires forall s | s in steps :: HonestStep(hdr, s)
    requires NeverRevives(EMPTY, steps)
    requires Run(EMPTY, steps).checkpoint.Some?
    requires Waiting(row.state) && Executed(tx) && BaseAfter(EMPTY, steps, 0) <= tx.blockHeight.value
    ensures var l := Run(EMPTY, steps);
      var c := l.checkpoint.value;
      StepConfirmed in RowStates(l, Some(c.height), row, tx) <==>
        && tx.blockHeight.value < c.height
        && tx.blockHash.value == Link(hdr, c, tx.blockHeight.value)
        && CanonicalAt(l, tx.blockHash.value, tx.blockHeight.value)
    ensures var l := Run(EMPTY, steps);
      var c := l.checkpoint.value;
      tx.blockHeight.value <= c.height ==>
        (Reorged in RowStates(l, Some(c.height), row, tx) <==>
         tx.blockHash.value != Link(hdr, c, tx.blockHeight.value))
  {
    var l, base := Run(EMPTY, steps), BaseAfter(EMPTY, steps, 0);
    RunKeeps(hdr, EMPTY, steps);
    RunWholeIf(hdr, EMPTY, steps, 0);
    ConfirmedIffBuried(hdr, l, base, row, tx);
    if tx.blockHeight.value <= l.checkpoint.value.height {
      ReplacedIsReorged(hdr, l, base, row, tx);
    }
  }

  // ----- The pass over waiting workflows -----

  datatype StoredFlow = StoredFlow(state: State, nextAction: NextAction, transitions: seq<Move>)

  type FlowTable = map<string, StoredFlow>

  datatype Summary = Summary(examined: nat, advanced: nat, untouched: nat, unreadable: nat)

  /** The optimistic write: appends the moves only when no other move was recorded meanwhile. */
  function AdvanceFromChain(table: FlowTable, after: Workflow, expectedCount: nat): (FlowTable, bool) {
    if after.transitions == [] || after.id !in table || |table[after.id].transitions| != expectedCount then
      (table, false)
    else
      var moves := table[after.id].transitions + after.transitions;
      (table[after.id := StoredFlow(after.state, after.nextAction, moves)], true)
  }

  /** Every stored trail follows allowed edges and ends in the stored state. */
  ghost predicate TrailsHold(table: FlowTable) {
    forall id | id in table :: TrailTo(Draft, table[id].transitions, table[id].state)
  }

  ghost predicate TrailTo(from: State, moves: seq<Move>, to: State) {
    Trail(from, moves) && EndState(from, Targets(moves)) == to
  }

  lemma {:induction false} TargetsLength(moves: seq<Move>)
    ensures |Targets(moves)| == |moves|
  {
    if moves != [] { TargetsLength(moves[1..]); }
  }

  lemma {:induction false} EndFirst(from: State, moves: seq<Move>)
    requires moves != []
    ensures EndState(from, Targets(moves)) == EndState(moves[0].to, Targets(moves[1..]))
  {
    TargetsLength(moves[1..]);
  }

  lemma {:induction false} TrailAppend(from: State, moves: seq<Move>, more: seq<Move>, middle: State)
    requires TrailTo(from, moves, middle) && Trail(middle, more)
    ensures TrailTo(from, moves + more, EndState(middle, Targets(more)))
    decreases |moves|
  {
    if moves == [] {
      assert moves + more == more;
    } else {
      assert (moves + more)[1..] == moves[1..] + more && (moves + more)[0] == moves[0];
      EndFirst(from, moves);
      TrailAppend(moves[0].to, moves[1..], more, middle);
      EndFirst(from, moves + more);
    }
  }

  /** What the pass does with one row: the moves it appends, if the provider answered. */
  ghost function RowMoved(table: FlowTable, l: Ledger, checkpointHeight: Option<nat>, row: AwaitingRow,
                          answer: Option<Transaction>): FlowTable
  {
    if answer.None? then table
    else
      var states := RowStates(l, checkpointHeight, row, answer.value);
      var before := Workflow(row.workflowId, row.state, Wait, []);
      var evidence := "tx:" + row.txid;
      var after := WalkStates(before, states, evidence);
      if states == [] || after.Err? then table
      else AdvanceFromChain(table, after.value, row.transitionCount).0
  }

  ghost function Advanced(table: FlowTable, l: Ledger, checkpointHeight: Option<nat>, pending: seq<AwaitingRow>,
                          transaction: string -> Option<Transaction>): FlowTable
    decreases |pending|
  {
    if pending == [] then table
    else
      var last := pending[|pending| - 1];
      RowMoved(Advanced(table, l, checkpointHeight, pending[..|pending| - 1], transaction), l, checkpointHeight, last,
               transaction(last.txid))
  }

  datatype Verdict = WasAdvanced | WasUntouched | WasUnreadable

  /** How the pass counts a row: advanced only when its moves were written. */
  ghost function RowVerdict(table: FlowTable, l: Ledger, checkpointHeight: Option<nat>, row: AwaitingRow,
                            answer: Option<Transaction>): Verdict
  {
    if answer.None? then WasUnreadable
    else
      var states := RowStates(l, checkpointHeight, row, answer.value);
      var after := WalkStates(Workflow(row.workflowId, row.state, Wait, []), states, "tx:" + row.txid);
      if states == [] || after.Err? then WasUntouched
      else if AdvanceFromChain(table, after.value, row.transitionCount).1 then WasAdvanced
      else WasUntouched
  }

  /** The verdicts on the rows in order, each against the workflows as the rows before it left them. */
  ghost function Verdicts(table: FlowTable, l: Ledger, checkpointHeight: Option<nat>, pending: seq<AwaitingRow>,
                          transaction: string -> Option<Transaction>): seq<Verdict>
    decreases |pending|
  {
    if pending == [] then []
    else
      var init, last := pending[..|pending| - 1], pending[|pending| - 1];
      Verdicts(table, l, checkpointHeight, init, transaction)
        + [RowVerdict(Advanced(table, l, checkpointHeight, init, transaction), l, checkpointHeight, last,
                      transaction(last.txid))]
  }

  /** A row as the query reads it: the stored state with the number of moves behind it. */
  ghost predicate ReadFrom(row: AwaitingRow, table: FlowTable) {
    && row.workflowId in table && Waiting(row.state)
    && row.transitionCount <= |table[row.workflowId].transitions|
    && TrailTo(Draft, table[row.workflowId].transitions[..row.transitionCount], row.state)
  }

  /** One row keeps every trail, even when the row was read before other moves were recorded. */
  lemma RowKeepsTrails(table: FlowTable, l: Ledger, checkpointHeight: Option<nat>, row: AwaitingRow,
                       answer: Option<Transaction>)
    requires TrailsHold(table) && ReadFrom(row, table)
    ensures var after := RowMoved(table, l, checkpointHeight, row, answer);
      && TrailsHold(after) && after.Keys == table.Keys
      && forall id | id in table :: table[id].transitions <= after[id].transitions
  {
    if answer.Some? {
      var moves := RowOutcome(table, l, checkpointHeight, row, answer.value);
      var stored := table[row.workflowId].transitions;
      if |stored| == row.transitionCount {
        assert stored[..row.transitionCount] == stored;
        TrailAppend(Draft, stored, moves, row.state);
      }
    }
  }

  lemma {:induction false} PassKeepsTrails(table: FlowTable, l: Ledger, checkpointHeight: Option<nat>,
                                           pending: seq<AwaitingRow>, transaction: string -> Option<Transaction>)
    requires TrailsHold(table)
    requires forall row | row in pending :: ReadFrom(row, table)
    ensures var after := Advanced(table, l, checkpointHeight, pending, transaction);
      && TrailsHold(after) && after.Keys == table.Keys
      && forall id | id in table :: table[id].transitions <= after[id].transitions
    decreases |pending|
  {
    if pending != [] {
      var init, last := pending[..|pending| - 1], pending[|pending| - 1];
      PassKeepsTrails(table, l, checkpointHeight, init, transaction);
      var mid := Advanced(table, l, checkpointHeight, init, transaction);
      assert last in pending;
      assert mid[last.workflowId].transitions[..last.transitionCount]
          == table[last.workflowId].transitions[..last.transitionCount];
      RowKeepsTrails(mid, l, checkpointHeight, last, transaction(last.txid));
    }
  }

  /** The stored workflows, moved by the pass. */
  class FlowStore {
    var flows: FlowTable

    constructor (flows: FlowTable)
      ensures this.flows == flows
    {
      this.flows := flows;
    }

    /**
     * Written exactly when the workflow is stored, has moves to add and had no other move recorded since it
     * was read. Only its own row changes, and unbroken trails stay unbroken.
     */
    method AdvanceWorkflow(after: Workflow, expectedCount: nat) returns (written: bool)
      modifies this
      ensures written <==>
        after.transitions != [] && after.id in old(flows) && |old(flows)[after.id].transitions| == expectedCount
      ensures !written ==> flows == old(flows)
      ensures written ==>
        && flows.Keys == old(flows).Keys
        && (forall id | id in flows && id != after.id :: flows[id] == old(flows)[id])
        && flows[after.id]
           == StoredFlow(after.state, after.nextAction, old(flows)[after.id].transitions + after.transitions)
      ensures
        && TrailsHold(old(flows))
        && (written ==> TrailTo(old(flows)[after.id].state, after.transitions, after.state))
        ==> TrailsHold(flows)
      ensures (flows, written) == AdvanceFromChain(old(flows), after, expectedCount)
    {
      if after.transitions == [] || after.id !in flows { return false; }
      var row := flows[after.id];
      if |row.transitions| != expectedCount { return false; }
      flows := flows[after.id := StoredFlow(after.state, after.nextAction, row.transitions + after.transitions)];
      written := true;
      if TrailsHold(old(flows)) && TrailTo(row.state, after.transitions, after.state) {
        TrailAppend(Draft, row.transitions, after.transitions, row.state);
      }
    }
  }

  /** The stored evidence for a transaction's block, as the pass reads it. */
  method CheckStored(store: EvidenceStore, tx: Transaction) returns (blockStillCanonical: bool)
    requires OnePerHeight(store.Contents())
    ensures blockStillCanonical <==> StillCanonical(store.Contents(), tx)
  {
    blockStillCanonical := true;
    if tx.blockHash.Some? && tx.blockHeight.Some? {
      var stored := store.FindCanonicalBlock(tx.blockHeight.value);
      FoundIsUnique(store.Contents(), tx.blockHeight.value, stored);
      if stored.Some? { blockStillCanonical := stored.value == tx.blockHash.value; }
    }
  }

  /** A row whose evidence decides something is walked without throwing, then written once. */
  lemma RowIsWritten(table: FlowTable, l: Ledger, checkpointHeight: Option<nat>, row: AwaitingRow, tx: Transaction)
    requires RowStates(l, checkpointHeight, row, tx) != []
    ensures var before := Workflow(row.workflowId, row.state, Wait, []);
      var after := WalkStates(before, RowStates(l, checkpointHeight, row, tx), "tx:" + row.txid);
      && after.Ok?
      && var outcome := AdvanceFromChain(table, after.value, row.transitionCount);
        && RowMoved(table, l, checkpointHeight, row, Some(tx)) == outcome.0
        && RowVerdict(table, l, checkpointHeight, row, Some(tx)) == if outcome.1 then WasAdvanced else WasUntouched
  {
    var input := Input(row.state, Some(tx), checkpointHeight, StillCanonical(l, tx), row.isFinalStep);
    var more := DecisionApplies(input, Workflow(row.workflowId, row.state, Wait, []), "tx:" + row.txid);
  }

  /**
   * What one answered row leaves behind: its decided states as one trail of moves on the row's transaction, and the
   * state and the request to the user that end it; written exactly when something is decided and the workflow is
   * stored and has not moved since it was read. Nothing else changes, and an unanswered row changes nothing.
   */
  lemma RowOutcome(table: FlowTable, l: Ledger, checkpointHeight: Option<nat>, row: AwaitingRow, tx: Transaction)
    returns (moves: seq<Move>)
    ensures Targets(moves) == RowStates(l, checkpointHeight, row, tx) && Trail(row.state, moves)
    ensures Stamped(moves, "tx:" + row.txid)
    ensures var after := RowMoved(table, l, checkpointHeight, row, Some(tx));
      var verdict := RowVerdict(table, l, checkpointHeight, row, Some(tx));
      var end := EndState(row.state, RowStates(l, checkpointHeight, row, tx));
      if moves != [] && row.workflowId in table && |table[row.workflowId].transitions| == row.transitionCount then
        && verdict == WasAdvanced
        && row.workflowId in after && Asks(end, after[row.workflowId].nextAction)
        && after == table[row.workflowId :=
             StoredFlow(end, after[row.workflowId].nextAction, table[row.workflowId].transitions + moves)]
      else verdict == WasUntouched && after == table
    ensures RowMoved(table, l, checkpointHeight, row, None) == table
    ensures RowVerdict(table, l, checkpointHeight, row, None) == WasUnreadable
  {
    var states := RowStates(l, checkpointHeight, row, tx);
    var input := Input(row.state, Some(tx), checkpointHeight, StillCanonical(l, tx), row.isFinalStep);
    var before := Workflow(row.workflowId, row.state, Wait, []);
    moves := DecisionApplies(input, before, "tx:" + row.txid);
    TargetsLength(moves);
    assert WalkStates(before, states, "tx:" + row.txid).value.transitions == moves;
  }

  method ExamineRow(store: EvidenceStore, flows: FlowStore, row: AwaitingRow, answer: Option<Transaction>,
                    checkpointHeight: Option<nat>)
    returns (verdict: Verdict)
    requires OnePerHeight(store.Contents())
    modifies flows
    ensures flows.flows == RowMoved(old(flows.flows), store.Contents(), checkpointHeight, row, answer)
    ensures verdict == RowVerdict(old(flows.flows), store.Contents(), checkpointHeight, row, answer)
  {
    if answer.None? { return WasUnreadable; }
    var blockStillCanonical := CheckStored(store, answer.value);
    var input := Input(row.state, answer, checkpointHeight, blockStillCanonical, row.isFinalStep);
    var states := ConfirmationDecision(input);
    if states == [] { return WasUntouched; }
    var before := Workflow(row.workflowId, row.state, Wait, []);
    RowIsWritten(flows.flows, store.Contents(), checkpointHeight, row, answer.value);
    var after := ApplyConfirmation(before, states, "tx:" + row.txid);
    var written := flows.AdvanceWorkflow(after.value, row.transitionCount);
    verdict := if written then WasAdvanced else WasUntouched;
  }

  /** The summary counts each verdict. */
  ghost predicate Tallied(summary: Summary, verdicts: seq<Verdict>) {
    && summary.examined == |verdicts|
    && summary.advanced == multiset(verdicts)[WasAdvanced]
    && summary.untouched == multiset(verdicts)[WasUntouched]
    && summary.unreadable == multiset(verdicts)[WasUnreadable]
  }

  function Counted(summary: Summary, verdict: Verdict): Summary {
    var more := summary.(examined := summary.examined + 1);
    match verdict
    case WasAdvanced => more.(advanced := summary.advanced + 1)
    case WasUntouched => more.(untouched := summary.untouched + 1)
    case WasUnreadable => more.(unreadable := summary.unreadable + 1)
  }

  lemma TallyOne(summary: Summary, verdicts: seq<Verdict>, verdict: Verdict)
    requires Tallied(summary, verdicts)
    ensures Tallied(Counted(summary, verdict), verdicts + [verdict])
  {
    assert multiset(verdicts + [verdict]) == multiset(verdicts) + multiset{verdict};
  }

  lemma PassStep(table: FlowTable, l: Ledger, checkpointHeight: Option<nat>, pending: seq<AwaitingRow>, i: nat,
                 transaction: string -> Option<Transaction>)
    requires i < |pending|
    ensures var so := Advanced(table, l, checkpointHeight, pending[..i], transaction);
      var answer := transaction(pending[i].txid);
      && Advanced(table, l, checkpointHeight, pending[..i + 1], transaction)
         == RowMoved(so, l, checkpointHeight, pending[i], answer)
      && Verdicts(table, l, checkpointHeight, pending[..i + 1], transaction)
         == Verdicts(table, l, checkpointHeight, pending[..i], transaction)
            + [RowVerdict(so, l, checkpointHeight, pending[i], answer)]
  {
    assert pending[..i + 1][..i] == pending[..i];
  }

  method AdvanceSubmittedWorkflows(store: EvidenceStore, flows: FlowStore, pending: seq<AwaitingRow>,
                                   transaction: string -> Option<Transaction>, checkpointHeight: Option<nat>)
    returns (summary: Summary)
    requires OnePerHeight(store.Contents())
    modifies flows
    ensures flows.flows == Advanced(old(flows.flows), store.Contents(), checkpointHeight, pending, transaction)
    ensures Tallied(summary, Verdicts(old(flows.flows), store.Contents(), checkpointHeight, pending, transaction))
  {
    summary := Summary(0, 0, 0, 0);
    ghost var l, start := store.Contents(), flows.flows;
    ghost var verdicts: seq<Verdict> := [];
    var i := 0;
    while i < |pending|
      invariant 0 <= i <= |pending|
      invariant flows.flows == Advanced(start, l, checkpointHeight, pending[..i], transaction)
      invariant verdicts == Verdicts(start, l, checkpointHeight, pending[..i], transaction)
      invariant Tallied(summary, verdicts)
    {
      PassStep(start, l, checkpointHeight, pending, i, transaction);
      var verdict := ExamineRow(store, flows, pending[i], transaction(pending[i].txid), checkpointHeight);
      TallyOne(summary, verdicts, verdict);
      summary := Counted(summary, verdict);
      verdicts := verdicts + [verdict];
      i := i + 1;
    }
    assert pending[..i] == pending;
  }
}
