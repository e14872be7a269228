/**
 * Once the remote stands still, ingestion followed by confirmation confirms what is on its chain.
 */
module Liveness {
  import opened Wrappers
  import opened Evidence
  import opened Ingest
  import opened Lineage
  import opened Runs
  import opened Convergence
  import opened Workflows
  import opened Confirmations

  /** A transaction that executed in a block of the remote chain below its tip. */
  ghost predicate OnRemote(hdr: string -> Header, v: View, tx: Transaction)
    requires Stable(hdr, v)
  {
    && Executed(tx) && tx.blockHeight.value < v.tip.value.height
    && tx.blockHash.value == RemoteHash(hdr, v, tx.blockHeight.value)
  }

  /** No other canonical block stands at a height. */
  ghost predicate NoRival(l: Ledger, hash: string, height: nat) {
    forall other | CanonicalAt(l, other, height) :: other == hash
  }

  /** With the checkpoint on the tip, a step of the remote chain is confirmed exactly when its block has no rival. */
  lemma AtTipIff(hdr: string -> Header, l: Ledger, v: View, row: AwaitingRow, tx: Transaction)
    requires Stable(hdr, v) && OnePerHeight(l) && Waiting(row.state) && OnRemote(hdr, v, tx)
    ensures StepConfirmed in RowStates(l, Some(v.tip.value.height), row, tx) <==>
            NoRival(l, tx.blockHash.value, tx.blockHeight.value)
  {
    var h := tx.blockHeight.value;
    var found := FoundAt(l, h);
    if found.Some? { assert CanonicalAt(l, found.value, h); }
    assert found.Some? ==> (found.value == tx.blockHash.value <==> NoRival(l, tx.blockHash.value, h));
  }

  // ----- What following the remote does to rivals -----

  /** Canonical blocks stay, and new ones are the remote's own. */
  ghost predicate OnlyRemoteAdded(hdr: string -> Header, l: Ledger, m: Ledger, v: View)
    requires Stable(hdr, v)
  {
    && (forall hash: string, h: nat | CanonicalAt(l, hash, h) :: CanonicalAt(m, hash, h))
    && (forall hash: string, h: nat | CanonicalAt(m, hash, h) ::
          CanonicalAt(l, hash, h) || (h <= v.tip.value.height && hash == RemoteHash(hdr, v, h)))
  }

  lemma RecordAddsRemote(hdr: string -> Header, l: Ledger, m: Ledger, v: View, height: nat)
    requires Stable(hdr, v) && OnlyRemoteAdded(hdr, l, m, v) && height <= v.tip.value.height
    requires BlockRecorded(m, v.at(height).value).Ok?
    ensures OnlyRemoteAdded(hdr, l, BlockRecorded(m, v.at(height).value).value, v)
  {
    var b := v.at(height).value;
    var n := BlockRecorded(m, b).value;
    forall hash: string, h: nat | CanonicalAt(l, hash, h) ensures CanonicalAt(n, hash, h) {
      assert CanonicalAt(m, hash, h);
    }
    forall hash: string, h: nat | CanonicalAt(n, hash, h)
      ensures CanonicalAt(l, hash, h) || (h <= v.tip.value.height && hash == RemoteHash(hdr, v, h))
    {
      if hash in m.blocks { assert CanonicalAt(m, hash, h); }
    }
  }

  lemma {:induction false} WalkAddsRemote(hdr: string -> Header, l: Ledger, m: Ledger, v: View, k: nat,
                                          parentHash: string, height: nat, last: nat)
    requires Stable(hdr, v) && OnlyRemoteAdded(hdr, l, m, v) && last <= v.tip.value.height
    ensures OnlyRemoteAdded(hdr, l, Walk(m, Constant(v), k, parentHash, height, last).ledger, v)
    decreases last + 1 - height
  {
    if height <= last && v.at(height).value.parentHash == parentHash && BlockRecorded(m, v.at(height).value).Ok? {
      RecordAddsRemote(hdr, l, m, v, height);
      WalkAddsRemote(hdr, l, BlockRecorded(m, v.at(height).value).value, v, k + 1, v.at(height).value.hash,
                     height + 1, last);
    }
  }

  /** Tables that follow the remote, with nothing but its blocks added since. */
  ghost predicate Following(hdr: string -> Header, l: Ledger, m: Ledger, v: View)
    requires Stable(hdr, v)
  {
    Sound(hdr, m) && Agrees(hdr, m, v) && OnlyRemoteAdded(hdr, l, m, v)
  }

  lemma TickFollows(hdr: string -> Header, l: Ledger, m: Ledger, v: View, limits: Limits)
    requires Stable(hdr, v) && Following(hdr, l, m, v)
    ensures Following(hdr, l, OneTick(m, v, limits), v)
  {
    TickKeeps(hdr, m, Constant(v), 0, limits);
    TickAgrees(hdr, m, v, limits);
    TickAddsRemote(hdr, l, m, v, limits);
  }

  lemma TickAddsRemote(hdr: string -> Header, l: Ledger, m: Ledger, v: View, limits: Limits)
    requires Stable(hdr, v) && Agrees(hdr, m, v) && OnlyRemoteAdded(hdr, l, m, v)
    ensures OnlyRemoteAdded(hdr, l, OneTick(m, v, limits), v)
  {
    var c := m.checkpoint.value;
    Forward(hdr, m, v, limits);
    WalkAddsRemote(hdr, l, m, v, 2, c.hash, c.height + 1, Min(v.tip.value.height, c.height + limits.maxBlocks));
  }

  lemma TickAgrees(hdr: string -> Header, m: Ledger, v: View, limits: Limits)
    requires Stable(hdr, v) && Headed(hdr, m) && Agrees(hdr, m, v)
    ensures Agrees(hdr, OneTick(m, v, limits), v)
  {
    var height := m.checkpoint.value.height;
    TickAdvances(hdr, m, v, limits, height, Reach(hdr, m, v, height),
                 Min(v.tip.value.height, height + limits.maxBlocks));
  }

  lemma {:induction false} IteratedKeeps(next: Ledger -> Ledger, inv: Ledger -> bool, l: Ledger, n: nat)
    requires inv(l) && forall m | inv(m) :: inv(next(m))
    ensures inv(Iterated(next, l, n))
    decreases n
  {
    if n > 0 { IteratedKeeps(next, inv, next(l), n - 1); }
  }

  lemma TicksFollow(hdr: string -> Header, l: Ledger, v: View, limits: Limits, n: nat)
    requires Stable(hdr, v) && Sound(hdr, l) && Agrees(hdr, l, v)
    ensures Following(hdr, l, Ticks(l, v, limits, n), v)
  {
    var inv := (m: Ledger) => Following(hdr, l, m, v);
    forall m | inv(m) ensures inv(Ticker(v, limits)(m)) { TickFollows(hdr, l, m, v, limits); }
    IteratedKeeps(Ticker(v, limits), inv, l, n);
  }

  lemma SameRivals(hdr: string -> Header, l: Ledger, m: Ledger, v: View, h: nat)
    requires Stable(hdr, v) && h <= v.tip.value.height && OnlyRemoteAdded(hdr, l, m, v)
    ensures NoRival(m, RemoteHash(hdr, v, h), h) <==> NoRival(l, RemoteHash(hdr, v, h), h)
  {
    var hash := RemoteHash(hdr, v, h);
    if NoRival(m, hash, h) {
      forall other | CanonicalAt(l, other, h) ensures other == hash { assert CanonicalAt(m, other, h); }
    }
    if NoRival(l, hash, h) {
      forall other | CanonicalAt(m, other, h) ensures other == hash {
        if CanonicalAt(l, other, h) { assert other == hash; }
      }
    }
  }

  // ----- Confirmation at the tip -----

  /** From agreement, when the tip is reached: confirmed exactly when the block had no rival to begin with. */
  lemma ConfirmsIff(hdr: string -> Header, l: Ledger, v: View, limits: Limits, n: nat, row: AwaitingRow,
                    tx: Transaction)
    requires Stable(hdr, v) && Sound(hdr, l) && Agrees(hdr, l, v)
    requires Waiting(row.state) && OnRemote(hdr, v, tx)
    ensures StepConfirmed in RowStates(Ticks(l, v, limits, n), Some(v.tip.value.height), row, tx) <==>
            NoRival(l, tx.blockHash.value, tx.blockHeight.value)
  {
    TicksFollow(hdr, l, v, limits, n);
    AtTipIff(hdr, Ticks(l, v, limits, n), v, row, tx);
    SameRivals(hdr, l, Ticks(l, v, limits, n), v, tx.blockHeight.value);
  }

  lemma RewoundRivals(l: Ledger, a: string, hash: string, h: nat)
    requires a in l.blocks
    ensures NoRival(Rewound(l, a), hash, h) <==> h > l.blocks[a].height || NoRival(l, hash, h)
  {
    var m := Rewound(l, a);
    forall other ensures CanonicalAt(m, other, h) <==> CanonicalAt(l, other, h) && h <= l.blocks[a].height { }
  }

  /** From a fork: every block above the highest shared one, and those below it that had no rival. */
  lemma ForkConfirmsIff(hdr: string -> Header, l: Ledger, v: View, limits: Limits, a: string, n: nat,
                        row: AwaitingRow, tx: Transaction)
    requires Stable(hdr, v) && Sound(hdr, l) && Recoverable(hdr, l, v, limits) && !Agrees(hdr, l, v)
    requires l.checkpoint.value.height <= v.tip.value.height && HighestShared(hdr, l, v, a) && n > 0
    requires Waiting(row.state) && OnRemote(hdr, v, tx)
    ensures StepConfirmed in RowStates(Ticks(l, v, limits, n), Some(v.tip.value.height), row, tx) <==>
            tx.blockHeight.value > l.blocks[a].height || NoRival(l, tx.blockHash.value, tx.blockHeight.value)
  {
    var m := AfterFork(hdr, l, v, limits, a, n, tx.blockHash.value, tx.blockHeight.value);
    ConfirmsIff(hdr, m, v, limits, n - 1, row, tx);
  }

  lemma TicksFirst(l: Ledger, v: View, limits: Limits, n: nat)
    requires n > 0
    ensures Ticks(l, v, limits, n) == Ticks(OneTick(l, v, limits), v, limits, n - 1)
  {
  }

  /** The tables after the rewind, and what is left in them at a height. */
  lemma AfterFork(hdr: string -> Header, l: Ledger, v: View, limits: Limits, a: string, n: nat, hash: string, h: nat)
    returns (m: Ledger)
    requires Stable(hdr, v) && Sound(hdr, l) && Recoverable(hdr, l, v, limits) && !Agrees(hdr, l, v)
    requires l.checkpoint.value.height <= v.tip.value.height && HighestShared(hdr, l, v, a) && n > 0
    ensures Sound(hdr, m) && Agrees(hdr, m, v) && Ticks(l, v, limits, n) == Ticks(m, v, limits, n - 1)
    ensures NoRival(m, hash, h) <==> h > l.blocks[a].height || NoRival(l, hash, h)
  {
    var found := TickRewinds(hdr, l, v, limits);
    m := Rewound(l, found);
    assert l.blocks[found].height <= l.blocks[a].height <= l.blocks[found].height;
    TicksFirst(l, v, limits, n);
    RewindKeeps(hdr, l, found);
    RewoundRivals(l, found, hash, h);
  }

  /** Where every canonical block is an ancestor of the checkpoint, nothing rivals the remote below a shared block. */
  lemma TrackedNoRival(hdr: string -> Header, l: Ledger, v: View, a: string, h: nat)
    requires Stable(hdr, v) && Tracked(hdr, l) && Shared(hdr, l, v, a) && h <= l.blocks[a].height
    ensures NoRival(l, RemoteHash(hdr, v, h), h)
  {
    forall other | CanonicalAt(l, other, h) ensures other == RemoteHash(hdr, v, h) {
      var c := l.checkpoint.value;
      AncestorThen(hdr, c.hash, c.height - l.blocks[a].height, l.blocks[a].height - h);
      AncestorsAgree(hdr, v, l.blocks[a].height, h);
    }
  }

  lemma TrackedAgreeing(hdr: string -> Header, l: Ledger, v: View, h: nat)
    requires Stable(hdr, v) && Tracked(hdr, l) && Agrees(hdr, l, v) && h <= v.tip.value.height
    ensures NoRival(l, RemoteHash(hdr, v, h), h)
  {
    forall other | CanonicalAt(l, other, h) ensures other == RemoteHash(hdr, v, h) {
      AncestorsAgree(hdr, v, l.checkpoint.value.height, h);
    }
  }

  /** The steps on the remote chain below its tip are confirmed against the tables after n ticks. */
  ghost predicate AllConfirmed(hdr: string -> Header, m: Ledger, v: View)
    requires Stable(hdr, v)
  {
    forall row: AwaitingRow, tx: Transaction | Waiting(row.state) && OnRemote(hdr, v, tx) ::
      StepConfirmed in RowStates(m, Some(v.tip.value.height), row, tx)
  }

  lemma FirstConfirms(hdr: string -> Header, l: Ledger, v: View, limits: Limits)
    requires Stable(hdr, v) && Sound(hdr, l) && Tracked(hdr, l) && l.checkpoint.None?
    requires Free(hdr, l, v, v.tip.value.height)
    ensures Arrived(hdr, l, v, limits, 1) && AllConfirmed(hdr, Ticks(l, v, limits, 1), v)
  {
    FirstFollows(hdr, l, v, limits);
    var m := OneTick(l, v, limits);
    TickKeeps(hdr, l, Constant(v), 0, limits);
    TickTracks(hdr, l, Constant(v), 0, limits);
    assert Ticks(l, v, limits, 1) == Iterated(Ticker(v, limits), m, 0) == m;
    forall row: AwaitingRow, tx: Transaction | Waiting(row.state) && OnRemote(hdr, v, tx)
      ensures StepConfirmed in RowStates(m, Some(v.tip.value.height), row, tx)
    {
      TrackedAgreeing(hdr, m, v, tx.blockHeight.value);
      AtTipIff(hdr, m, v, row, tx);
    }
  }

  lemma AgreeingConfirms(hdr: string -> Header, l: Ledger, v: View, limits: Limits, n: nat)
    requires Stable(hdr, v) && Sound(hdr, l) && Tracked(hdr, l) && Agrees(hdr, l, v)
    ensures AllConfirmed(hdr, Ticks(l, v, limits, n), v)
  {
    forall row: AwaitingRow, tx: Transaction | Waiting(row.state) && OnRemote(hdr, v, tx)
      ensures StepConfirmed in RowStates(Ticks(l, v, limits, n), Some(v.tip.value.height), row, tx)
    {
      TrackedAgreeing(hdr, l, v, tx.blockHeight.value);
      ConfirmsIff(hdr, l, v, limits, n, row, tx);
    }
  }

  lemma ForkConfirms(hdr: string -> Header, l: Ledger, v: View, limits: Limits, n: nat)
    requires Stable(hdr, v) && Sound(hdr, l) && Tracked(hdr, l) && n > 0
    requires Recoverable(hdr, l, v, limits) && !Agrees(hdr, l, v) && l.checkpoint.value.height <= v.tip.value.height
    ensures AllConfirmed(hdr, Ticks(l, v, limits, n), v)
  {
    var a := AncestorFound(hdr, l, v, limits);
    forall row: AwaitingRow, tx: Transaction | Waiting(row.state) && OnRemote(hdr, v, tx)
      ensures StepConfirmed in RowStates(Ticks(l, v, limits, n), Some(v.tip.value.height), row, tx)
    {
      if tx.blockHeight.value <= l.blocks[a].height { TrackedNoRival(hdr, l, v, a, tx.blockHeight.value); }
      ForkConfirmsIff(hdr, l, v, limits, a, n, row, tx);
    }
  }

  /**
   * From tables that ticks alone lead to and that can be followed, some number of ticks reaches the tip; the last
   * of them does not throw, and by the height it reports every waiting step whose block is on the remote chain
   * below the tip is confirmed.
   */
  lemma EveryStepConfirms(hdr: string -> Header, l: Ledger, v: View, limits: Limits) returns (n: nat)
    requires Stable(hdr, v) && Sound(hdr, l) && Tracked(hdr, l) && limits.maxBlocks > 0
    requires Followable(hdr, l, v, limits)
    ensures n > 0 && Arrived(hdr, l, v, limits, n)
    ensures var last := Tick(Ticks(l, v, limits, n - 1), Constant(v), 0, limits);
      && last.result.Ok? && last.ledger == Ticks(l, v, limits, n)
      && forall row: AwaitingRow, tx: Transaction | Waiting(row.state) && OnRemote(hdr, v, tx) ::
           StepConfirmed in RowStates(last.ledger, ReportedHeight(last.result), row, tx)
  {
    n := TipConfirms(hdr, l, v, limits);
    var m := Ticks(l, v, limits, n);
    TickAtTip(hdr, m, v, limits);
    TicksLast(l, v, limits, n);
    assert ReportedHeight(Tick(m, Constant(v), 0, limits).result) == Some(v.tip.value.height);
    n := n + 1;
  }

  lemma TipConfirms(hdr: string -> Header, l: Ledger, v: View, limits: Limits) returns (n: nat)
    requires Stable(hdr, v) && Sound(hdr, l) && Tracked(hdr, l) && limits.maxBlocks > 0
    requires Followable(hdr, l, v, limits)
    ensures Arrived(hdr, l, v, limits, n) && AllConfirmed(hdr, Ticks(l, v, limits, n), v)
  {
    if l.checkpoint.None? {
      n := 1;
      FirstConfirms(hdr, l, v, limits);
    } else {
      n := Follows(hdr, l, v, limits);
      if Agrees(hdr, l, v) {
        AgreeingConfirms(hdr, l, v, limits, n);
      } else {
        assert n > 0;
        ForkConfirms(hdr, l, v, limits, n);
      }
    }
  }

  // ----- In the stored workflow -----

  lemma {:induction false} InTargets(moves: seq<Move>, state: State)
    ensures state in Targets(moves) <==> exists move | move in moves :: move.to == state
  {
    if moves != [] {
      assert moves == [moves[0]] + moves[1..];
      InTargets(moves[1..], state);
    }
  }

  /** A confirmed step is written: the pass appends a move to it, unless the workflow moved since it was read. */
  lemma ConfirmedIsWritten(table: FlowTable, l: Ledger, checkpointHeight: Option<nat>, row: AwaitingRow,
                           tx: Transaction)
    requires row.workflowId in table && |table[row.workflowId].transitions| == row.transitionCount
    requires StepConfirmed in RowStates(l, checkpointHeight, row, tx)
    ensures RowVerdict(table, l, checkpointHeight, row, Some(tx)) == WasAdvanced
    ensures var moved := RowMoved(table, l, checkpointHeight, row, Some(tx));
      && row.workflowId in moved && table[row.workflowId].transitions <= moved[row.workflowId].transitions
      && exists move | move in moved[row.workflowId].transitions[row.transitionCount..] :: move.to == StepConfirmed
  {
    var input := Input(row.state, Some(tx), checkpointHeight, StillCanonical(l, tx), row.isFinalStep);
    var before := Workflow(row.workflowId, row.state, Wait, []);
    var more := DecisionApplies(input, before, "tx:" + row.txid);
    RowIsWritten(table, l, checkpointHeight, row, tx);
    InTargets(more, StepConfirmed);
    var old_ := table[row.workflowId].transitions;
    assert WalkStates(before, RowStates(l, checkpointHeight, row, tx), "tx:" + row.txid).value.transitions == [] + more;
    assert (old_ + more)[row.transitionCount..] == more;
  }
}
