/**
 * Ticks and logs over the tables refine the pure form: blocks, events, activities and checkpoint.
 *
 * An activity carries the id of the event it was read from; the worker stores it under an id made from
 * that one. The pure form has no step for a log, so what a log adds is written out on the pure state.
 */
module Refinement {
  import opened Wrappers
  import opened Evidence
  import opened Ingest
  import opened Lineage
  import opened Runs
  import P = Ingestion

  function Row(b: P.ChainBlock): BlockRow {
    BlockRow(b.height, b.parentHash, b.canonical)
  }

  /** What the list says about a hash, once or more often: canonical as soon as one of its entries is. */
  function RowOf(blocks: seq<P.ChainBlock>, hash: string): Option<BlockRow> {
    if blocks == [] then None
    else
      var rest := RowOf(blocks[1..], hash);
      if blocks[0].hash != hash then rest
      else Some(Row(blocks[0]).(canonical := blocks[0].canonical || (rest.Some? && rest.value.canonical)))
  }

  function FindActivity(activities: seq<P.CanonicalActivity>, id: string): Option<P.CanonicalActivity> {
    if activities == [] then None
    else if activities[0].id == id then Some(activities[0])
    else FindActivity(activities[1..], id)
  }

  /** The key under which the worker stores the activity read from an event. */
  function RowId(eventId: string): string {
    "act_" + eventId
  }

  lemma RowIdTells(a: string, b: string)
    requires RowId(a) == RowId(b)
    ensures a == b
  {
    assert RowId(a)[4..] == a && RowId(b)[4..] == b;
  }

  ghost predicate SameBlock(l: Ledger, s: P.IngestionState, hash: string) {
    RowOf(s.blocks, hash) == if hash in l.blocks then Some(l.blocks[hash]) else None
  }

  ghost predicate SameEvent(l: Ledger, s: P.IngestionState, id: string) {
    match P.FindEvent(s.events, id)
    case None => id !in l.events
    case Some(e) => id in l.events && l.events[id] == EventRow(e.blockHash, e.canonical)
  }

  /** The activity read from an event, and the row the worker keeps of it. */
  ghost predicate SameActivity(l: Ledger, s: P.IngestionState, eventId: string) {
    match FindActivity(s.activities, eventId)
    case None => RowId(eventId) !in l.activities
    case Some(a) =>
      && RowId(eventId) in l.activities
      && l.activities[RowId(eventId)].blockHash == a.blockHash
      && l.activities[RowId(eventId)].canonical == a.canonical
  }

  /** Every row is stored under the id made from its event. */
  ghost predicate RowIds(l: Ledger) {
    forall id | id in l.activities :: id == RowId(l.activities[id].rawEventId)
  }

  ghost predicate PureHeaded(hdr: string -> Header, blocks: seq<P.ChainBlock>) {
    forall b | b in blocks :: hdr(b.hash) == Header(b.height, b.parentHash)
  }

  /** Tables and pure state hold the same blocks, events, activities and checkpoint, with the same flags. */
  ghost predicate Rel(hdr: string -> Header, l: Ledger, s: P.IngestionState) {
    && l.checkpoint == s.checkpoint
    && PureHeaded(hdr, s.blocks)
    && RowIds(l)
    && (forall hash :: SameBlock(l, s, hash))
    && (forall id :: SameEvent(l, s, id))
    && (forall id :: SameActivity(l, s, id))
  }

  // ----- Blocks -----

  lemma {:induction false} RowOfAppend(blocks: seq<P.ChainBlock>, b: P.ChainBlock, hash: string)
    ensures RowOf(blocks + [b], hash)
         == if b.hash != hash then RowOf(blocks, hash)
            else if RowOf(blocks, hash).None? then Some(Row(b))
            else Some(RowOf(blocks, hash).value.(canonical := RowOf(blocks, hash).value.canonical || b.canonical))
  {
    if blocks == [] {
      assert [b][1..] == [];
    } else {
      assert (blocks + [b])[1..] == blocks[1..] + [b];
      RowOfAppend(blocks[1..], b, hash);
    }
  }

  lemma {:induction false} RowOfHeaded(hdr: string -> Header, blocks: seq<P.ChainBlock>, hash: string)
    requires PureHeaded(hdr, blocks)
    ensures RowOf(blocks, hash).Some? ==>
      hdr(hash) == Header(RowOf(blocks, hash).value.height, RowOf(blocks, hash).value.parentHash)
  {
    if blocks != [] {
      assert blocks[0] in blocks;
      RowOfHeaded(hdr, blocks[1..], hash);
    }
  }

  /** `find` by hash, and the row of that hash. */
  lemma {:induction false} RowOfFinds(hdr: string -> Header, blocks: seq<P.ChainBlock>, hash: string)
    requires PureHeaded(hdr, blocks)
    ensures match P.FindBlock(blocks, hash)
            case None => RowOf(blocks, hash).None?
            case Some(b) => b.hash == hash && RowOf(blocks, hash).Some? && RowOf(blocks, hash).value.height == b.height
  {
    if blocks != [] && blocks[0].hash != hash {
      RowOfFinds(hdr, blocks[1..], hash);
    }
  }

  lemma {:induction false} RowOfRewound(hdr: string -> Header, blocks: seq<P.ChainBlock>, top: nat, hash: string)
    requires PureHeaded(hdr, blocks)
    ensures var row := RowOf(blocks, hash);
      RowOf(P.RewindBlocks(blocks, top), hash)
        == if row.None? then None else Some(row.value.(canonical := row.value.canonical && row.value.height <= top))
  {
    if blocks != [] {
      assert blocks[0] in blocks;
      RowOfRewound(hdr, blocks[1..], top, hash);
      RowOfHeaded(hdr, blocks[1..], hash);
    }
  }

  lemma RewoundHeaded(hdr: string -> Header, blocks: seq<P.ChainBlock>, top: nat)
    requires PureHeaded(hdr, blocks)
    ensures PureHeaded(hdr, P.RewindBlocks(blocks, top))
  {
    var rewound := P.RewindBlocks(blocks, top);
    forall b | b in rewound ensures hdr(b.hash) == Header(b.height, b.parentHash) {
      var i :| 0 <= i < |rewound| && rewound[i] == b;
      assert blocks[i] in blocks;
    }
  }

  function Pure(b: Block): P.ChainBlock {
    P.ChainBlock(b.height, b.hash, b.parentHash, true)
  }

  /** With one block appended, rows and list still say the same of every hash, unless the row is an orphan. */
  lemma AppendedSameIff(hdr: string -> Header, l: Ledger, m: Ledger, s: P.IngestionState, t: P.IngestionState, b: Block)
    requires Rel(hdr, l, s) && Named(hdr, b) && t.blocks == s.blocks + [Pure(b)]
    requires m.blocks
          == if b.hash in l.blocks then l.blocks else l.blocks[b.hash := BlockRow(b.height, b.parentHash, true)]
    ensures PureHeaded(hdr, t.blocks)
    ensures forall hash :: SameBlock(m, t, hash) <==> !(hash == b.hash && Orphaned(l, hash))
  {
    forall x | x in t.blocks ensures hdr(x.hash) == Header(x.height, x.parentHash) {
      assert x in s.blocks || x == Pure(b);
    }
    forall hash ensures SameBlock(m, t, hash) <==> !(hash == b.hash && Orphaned(l, hash)) {
      RowOfAppend(s.blocks, Pure(b), hash);
      RowOfHeaded(hdr, s.blocks, hash);
      assert SameBlock(l, s, hash);
    }
  }

  /** Recording a block that continues the checkpoint is applyBlock exactly when it is not stored as an orphan. */
  lemma RecordRefinesIff(hdr: string -> Header, l: Ledger, s: P.IngestionState, b: Block)
    requires Rel(hdr, l, s) && Named(hdr, b) && BlockRecorded(l, b).Ok?
    requires l.checkpoint.Some? ==> b.parentHash == l.checkpoint.value.hash
    ensures P.ApplyBlock(s, Pure(b), []).Ok?
    ensures Rel(hdr, BlockRecorded(l, b).value, P.ApplyBlock(s, Pure(b), []).value) <==> !Orphaned(l, b.hash)
  {
    var m := BlockRecorded(l, b).value;
    var t := P.ApplyBlock(s, Pure(b), []).value;
    assert t.events == s.events && t.activities == s.activities;
    AppendedSameIff(hdr, l, m, s, t, b);
    if Orphaned(l, b.hash) { assert !SameBlock(m, t, b.hash); }
    EvidenceSame(l, m, s, t);
  }

  lemma EvidenceSame(l: Ledger, m: Ledger, s: P.IngestionState, t: P.IngestionState)
    requires m.events == l.events && m.activities == l.activities
    requires t.events == s.events && t.activities == s.activities
    ensures forall id :: SameEvent(m, t, id) <==> SameEvent(l, s, id)
    ensures forall id :: SameActivity(m, t, id) <==> SameActivity(l, s, id)
    ensures RowIds(m) <==> RowIds(l)
  {
  }

  // ----- Rewinding -----

  /** Some canonical event sits in an orphaned block above a height. */
  ghost predicate StainedAbove(l: Ledger, top: nat) {
    exists id :: StainedEvent(l, id) && l.blocks[l.events[id].blockHash].height > top
  }

  /** The event is of a stored block above the height: applyReorg flags the activity read from it. */
  predicate EventAbove(l: Ledger, eventId: string, top: nat) {
    && eventId in l.events && l.events[eventId].blockHash in l.blocks
    && l.blocks[l.events[eventId].blockHash].height > top
  }

  /** The row's own block is orphaned by the rewind: markReorg flags the row. */
  predicate RowOrphaned(l: Ledger, eventId: string, top: nat) {
    RowId(eventId) in l.activities && l.activities[RowId(eventId)].blockHash in Orphans(l, top)
  }

  predicate MovesTogether(l: Ledger, eventId: string, top: nat) {
    RowId(eventId) in l.activities && l.activities[RowId(eventId)].canonical ==>
      (EventAbove(l, eventId, top) <==> RowOrphaned(l, eventId, top))
  }

  /** Each canonical activity's event is above the height exactly when its own block is orphaned. */
  ghost predicate Together(l: Ledger, top: nat) {
    forall eventId :: MovesTogether(l, eventId, top)
  }

  lemma RewindRefinesBlocks(hdr: string -> Header, l: Ledger, s: P.IngestionState, hash: string)
    requires Rel(hdr, l, s) && hash in l.blocks
    ensures P.ApplyReorg(s, hash).Ok?
    ensures var t := P.ApplyReorg(s, hash).value;
      && t.blocks == P.RewindBlocks(s.blocks, l.blocks[hash].height) && PureHeaded(hdr, t.blocks)
      && t.events == P.RewindEvents(s.blocks, s.events, l.blocks[hash].height)
      && (forall h :: SameBlock(Rewound(l, hash), t, h))
      && t.checkpoint == Some(Checkpoint(l.blocks[hash].height, hash))
  {
    assert SameBlock(l, s, hash);
    RowOfFinds(hdr, s.blocks, hash);
    var top := l.blocks[hash].height;
    RewoundHeaded(hdr, s.blocks, top);
    forall h ensures SameBlock(Rewound(l, hash), P.ApplyReorg(s, hash).value, h) {
      RowOfRewound(hdr, s.blocks, top, h);
      assert SameBlock(l, s, h);
    }
  }

  lemma AboveIs(hdr: string -> Header, l: Ledger, s: P.IngestionState, hash: string, top: nat)
    requires Rel(hdr, l, s)
    ensures P.AboveAncestor(s.blocks, hash, top) <==> hash in l.blocks && l.blocks[hash].height > top
  {
    RowOfFinds(hdr, s.blocks, hash);
    assert SameBlock(l, s, hash);
  }

  /** One event stays alike on both sides, unless it is canonical in an orphaned block above the ancestor. */
  lemma EventRefinesIff(hdr: string -> Header, l: Ledger, s: P.IngestionState, hash: string, id: string)
    requires Rel(hdr, l, s) && hash in l.blocks
    ensures P.ApplyReorg(s, hash).Ok?
    ensures SameEvent(Rewound(l, hash), P.ApplyReorg(s, hash).value, id) <==>
            !(StainedEvent(l, id) && l.blocks[l.events[id].blockHash].height > l.blocks[hash].height)
  {
    RewindRefinesBlocks(hdr, l, s, hash);
    P.FindEventRewound(s.blocks, s.events, l.blocks[hash].height, id);
    assert SameEvent(l, s, id);
    if id in l.events { AboveIs(hdr, l, s, l.events[id].blockHash, l.blocks[hash].height); }
  }

  lemma {:induction false} FindActivityRewound(s: P.IngestionState, before: seq<P.CanonicalActivity>,
                                               after: seq<P.CanonicalActivity>, top: nat, id: string)
    requires |after| == |before|
    requires forall i | 0 <= i < |before| :: after[i] == P.RewindActivity(s, before[i], top)
    ensures match FindActivity(before, id)
            case None => FindActivity(after, id).None?
            case Some(a) => a.id == id && FindActivity(after, id) == Some(P.RewindActivity(s, a, top))
  {
    if before != [] {
      assert after[0] == P.RewindActivity(s, before[0], top);
      FindActivityRewound(s, before[1..], after[1..], top, id);
    }
  }

  lemma EventAboveIs(hdr: string -> Header, l: Ledger, s: P.IngestionState, id: string, top: nat)
    requires Rel(hdr, l, s)
    ensures EventAbove(l, id, top) <==>
            P.FindEvent(s.events, id).Some? && P.AboveAncestor(s.blocks, P.FindEvent(s.events, id).value.blockHash, top)
  {
    assert SameEvent(l, s, id);
    if id in l.events { AboveIs(hdr, l, s, l.events[id].blockHash, top); }
  }

  /** The rewind leaves one activity alike on both sides exactly when its event and its own block move together. */
  lemma ActivityRefinesIff(hdr: string -> Header, l: Ledger, s: P.IngestionState, hash: string, id: string)
    requires Rel(hdr, l, s) && hash in l.blocks
    ensures P.ApplyReorg(s, hash).Ok?
    ensures SameActivity(Rewound(l, hash), P.ApplyReorg(s, hash).value, id) <==>
            MovesTogether(l, id, l.blocks[hash].height)
  {
    RewindRefinesBlocks(hdr, l, s, hash);
    var top := l.blocks[hash].height;
    FindActivityRewound(s, s.activities, P.ApplyReorg(s, hash).value.activities, top, id);
    EventAboveIs(hdr, l, s, id, top);
    assert SameActivity(l, s, id);
  }

  lemma RewoundRowIds(l: Ledger, hash: string)
    requires RowIds(l) && hash in l.blocks
    ensures RowIds(Rewound(l, hash))
  {
  }

  /**
   * A rewind is applyReorg, for blocks, events, activities and checkpoint, exactly when no canonical event sits in
   * an orphaned block above the ancestor and every canonical activity moves together with its event.
   */
  lemma RewindRefinesIff(hdr: string -> Header, l: Ledger, s: P.IngestionState, hash: string)
    requires Rel(hdr, l, s) && hash in l.blocks && l.checkpoint.Some?
    ensures P.ApplyReorg(s, hash).Ok?
    ensures Rel(hdr, Rewound(l, hash), P.ApplyReorg(s, hash).value) <==>
            !StainedAbove(l, l.blocks[hash].height) && Together(l, l.blocks[hash].height)
  {
    RewindRefinesBlocks(hdr, l, s, hash);
    RewoundRowIds(l, hash);
    forall id ensures
      SameEvent(Rewound(l, hash), P.ApplyReorg(s, hash).value, id) <==>
        !(StainedEvent(l, id) && l.blocks[l.events[id].blockHash].height > l.blocks[hash].height)
    {
      EventRefinesIff(hdr, l, s, hash, id);
    }
    forall id ensures
      SameActivity(Rewound(l, hash), P.ApplyReorg(s, hash).value, id) <==> MovesTogether(l, id, l.blocks[hash].height)
    {
      ActivityRefinesIff(hdr, l, s, hash, id);
    }
  }

  /** Rows as the worker writes them: each in the block of the event it was read from. */
  ghost predicate RowsInEventBlocks(l: Ledger) {
    forall id | id in l.activities ::
      && l.activities[id].rawEventId in l.events
      && l.events[l.activities[id].rawEventId].blockHash == l.activities[id].blockHash
  }

  /** Such rows move with their events exactly when no canonical one sits in an orphaned block above the height. */
  lemma WorkerRowsMoveIff(l: Ledger, top: nat)
    requires RowIds(l) && RowsInEventBlocks(l)
    requires forall id | id in l.activities :: l.activities[id].blockHash in l.blocks
    ensures Together(l, top) <==>
      forall id :: !(StainedActivity(l, id) && l.blocks[l.activities[id].blockHash].height > top)
  {
    if Together(l, top) {
      forall id | StainedActivity(l, id) ensures l.blocks[l.activities[id].blockHash].height <= top {
        assert id == RowId(l.activities[id].rawEventId) && MovesTogether(l, l.activities[id].rawEventId, top);
      }
    }
    if forall id :: !(StainedActivity(l, id) && l.blocks[l.activities[id].blockHash].height > top) {
      forall eventId ensures MovesTogether(l, eventId, top) {
        var id := RowId(eventId);
        if id in l.activities {
          RowIdTells(eventId, l.activities[id].rawEventId);
          assert !(StainedActivity(l, id) && l.blocks[l.activities[id].blockHash].height > top);
        }
      }
    }
  }

  // ----- A tick -----

  function Appends(recorded: seq<Block>): seq<P.PureStep> {
    if recorded == [] then [] else [P.Append(Pure(recorded[0]), [])] + Appends(recorded[1..])
  }

  /** The pure steps behind a tick. */
  function StepsOf(out: Outcome): seq<P.PureStep> {
    match out.result
    case Ok(r) => (match r.reorg case Some(reorg) => [P.Rewind(reorg.ancestorHash)] case None => Appends(out.recorded))
    case Err(_) => Appends(out.recorded)
  }

  lemma {:induction false} AppendsMore(recorded: seq<Block>, b: Block)
    ensures Appends(recorded + [b]) == Appends(recorded) + [P.Append(Pure(b), [])]
  {
    if recorded == [] {
      assert [b][1..] == [];
    } else {
      assert (recorded + [b])[1..] == recorded[1..] + [b];
      AppendsMore(recorded[1..], b);
    }
  }

  lemma {:induction false} AppliedMore(s: P.IngestionState, steps: seq<P.PureStep>, step: P.PureStep)
    ensures P.Applied(s, steps + [step])
         == match P.Applied(s, steps) case Ok(t) => P.Apply(t, step) case Err(e) => Err(e)
    decreases |steps|
  {
    if steps == [] {
      assert [step][1..] == [];
    } else {
      assert (steps + [step])[1..] == steps[1..] + [step];
      var first := P.Apply(s, steps[0]);
      if first.Ok? { AppliedMore(first.value, steps[1..], step); }
    }
  }

  /** The list calls a block canonical that the tables hold as an orphan. */
  ghost predicate Diverged(m: Ledger, t: P.IngestionState) {
    exists hash :: Orphaned(m, hash) && RowOf(t.blocks, hash).Some? && RowOf(t.blocks, hash).value.canonical
  }

  lemma DivergedNotRel(hdr: string -> Header, m: Ledger, t: P.IngestionState)
    requires Diverged(m, t)
    ensures !Rel(hdr, m, t)
  {
    var hash :| Orphaned(m, hash) && RowOf(t.blocks, hash).Some? && RowOf(t.blocks, hash).value.canonical;
    assert !SameBlock(m, t, hash);
  }

  /** The pure run behind the blocks recorded so far: related until one was an orphan, diverged from then on. */
  ghost predicate Simulates(hdr: string -> Header, l: Ledger, s: P.IngestionState, m: Ledger, rec: seq<Block>) {
    var done := P.Applied(s, Appends(rec));
    && done.Ok? && done.value.checkpoint == m.checkpoint && Above(hdr, l, m)
    && if Revives(l, rec) then Diverged(m, done.value) else Rel(hdr, m, done.value)
  }

  lemma OneMoreApplied(s: P.IngestionState, rec: seq<Block>, b: Block)
    requires P.Applied(s, Appends(rec)).Ok?
    ensures P.Applied(s, Appends(rec + [b])) == P.ApplyBlock(P.Applied(s, Appends(rec)).value, Pure(b), [])
  {
    AppendsMore(rec, b);
    AppliedMore(s, Appends(rec), P.Append(Pure(b), []));
  }

  lemma StaysDiverged(m: Ledger, t: P.IngestionState, b: Block)
    requires Diverged(m, t) && BlockRecorded(m, b).Ok? && P.ApplyBlock(t, Pure(b), []).Ok?
    ensures Diverged(BlockRecorded(m, b).value, P.ApplyBlock(t, Pure(b), []).value)
  {
    var hash :| Orphaned(m, hash) && RowOf(t.blocks, hash).Some? && RowOf(t.blocks, hash).value.canonical;
    RowOfAppend(t.blocks, Pure(b), hash);
    assert Orphaned(BlockRecorded(m, b).value, hash);
  }

  lemma RevivalDiverges(m: Ledger, t: P.IngestionState, b: Block)
    requires Orphaned(m, b.hash) && BlockRecorded(m, b).Ok? && P.ApplyBlock(t, Pure(b), []).Ok?
    ensures Diverged(BlockRecorded(m, b).value, P.ApplyBlock(t, Pure(b), []).value)
  {
    RowOfAppend(t.blocks, Pure(b), b.hash);
    assert Orphaned(BlockRecorded(m, b).value, b.hash);
  }

  lemma AboveAfterRecord(hdr: string -> Header, l: Ledger, m: Ledger, b: Block)
    requires Above(hdr, l, m) && Extends(hdr, m, b)
    ensures Above(hdr, l, BlockRecorded(m, b).value) && (Orphaned(m, b.hash) <==> Orphaned(l, b.hash))
  {
    var n := BlockRecorded(m, b).value;
    forall h | hdr(h).height > b.height ensures Orphaned(n, h) <==> Orphaned(l, h) {
      assert h != b.hash;
      assert Orphaned(m, h) <==> Orphaned(l, h);
    }
  }

  lemma SimulatesMore(hdr: string -> Header, l: Ledger, s: P.IngestionState, m: Ledger, rec: seq<Block>, b: Block)
    requires Simulates(hdr, l, s, m, rec) && Extends(hdr, m, b)
    ensures Simulates(hdr, l, s, BlockRecorded(m, b).value, rec + [b])
  {
    var before := P.Applied(s, Appends(rec)).value;
    OneMoreApplied(s, rec, b);
    AboveAfterRecord(hdr, l, m, b);
    RevivesMore(l, rec, b);
    if Revives(l, rec) {
      StaysDiverged(m, before, b);
    } else if Orphaned(l, b.hash) {
      RevivalDiverges(m, before, b);
    } else {
      RecordRefinesIff(hdr, m, before, b);
    }
  }

  /** The rewind of a tick, if it made one, met nothing that the two sides flag differently. */
  ghost predicate CleanRewind(l: Ledger, out: Outcome) {
    forall hash | out.result.Ok? && out.result.value.reorg.Some? && out.result.value.reorg.value.ancestorHash == hash ::
      hash in l.blocks && !StainedAbove(l, l.blocks[hash].height) && Together(l, l.blocks[hash].height)
  }

  /** The pure steps behind a tick's outcome do not throw, and lead to a related state. */
  ghost predicate Refined(hdr: string -> Header, s: P.IngestionState, out: Outcome) {
    var done := P.Applied(s, StepsOf(out));
    done.Ok? && Rel(hdr, out.ledger, done.value)
  }

  /** Refined exactly when no orphan was recorded and the rewind was clean; the pure steps never throw. */
  ghost predicate RefinedIff(hdr: string -> Header, l: Ledger, s: P.IngestionState, out: Outcome) {
    && P.Applied(s, StepsOf(out)).Ok?
    && (Refined(hdr, s, out) <==> !Revives(l, out.recorded) && CleanRewind(l, out))
  }

  /**
   * A tick refines its pure steps, which never throw, exactly when it recorded no block stored as an orphan and
   * its rewind was clean.
   */
  lemma TickRefinesIff(hdr: string -> Header, l: Ledger, s: P.IngestionState, view: nat -> View, k: nat, limits: Limits)
    requires HonestRun(hdr, view) && Rel(hdr, l, s)
    ensures RefinedIff(hdr, l, s, Tick(l, view, k, limits))
  {
    if view(k).tip.Some? && l.checkpoint.None? {
      FirstRefines(hdr, l, s, view, k, limits, view(k).tip.value);
    } else if view(k).tip.Some? && view(k + 1).at(l.checkpoint.value.height).Some? {
      LaterRefines(hdr, l, s, view, k, limits);
    } else {
      IdleRefines(hdr, l, s, Tick(l, view, k, limits));
    }
  }

  lemma LaterRefines(hdr: string -> Header, l: Ledger, s: P.IngestionState, view: nat -> View, k: nat, limits: Limits)
    requires HonestRun(hdr, view) && Rel(hdr, l, s) && view(k).tip.Some?
    requires l.checkpoint.Some? && view(k + 1).at(l.checkpoint.value.height).Some?
    ensures RefinedIff(hdr, l, s, Tick(l, view, k, limits))
  {
    if view(k + 1).at(l.checkpoint.value.height).value.hash == l.checkpoint.value.hash {
      TickGoesForward(l, view, k, limits);
      ForwardRefines(hdr, l, s, view, k + 2, view(k).tip.value, limits.maxBlocks);
    } else {
      TickGoesBack(l, view, k, limits);
      BackRefines(hdr, l, s, view, k + 2, view(k).tip.value, limits.maxRewind);
    }
  }

  lemma IdleRefines(hdr: string -> Header, l: Ledger, s: P.IngestionState, out: Outcome)
    requires Rel(hdr, l, s) && out.ledger == l && out.recorded == [] && out.result.Err?
    ensures RefinedIff(hdr, l, s, out)
  {
  }

  lemma FirstRefines(hdr: string -> Header, l: Ledger, s: P.IngestionState, view: nat -> View, k: nat, limits: Limits,
                     tip: Block)
    requires Honest(hdr, view(k)) && Rel(hdr, l, s) && l.checkpoint.None? && view(k).tip == Some(tip)
    ensures RefinedIff(hdr, l, s, Tick(l, view, k, limits))
  {
    if BlockRecorded(l, tip).Ok? {
      RecordRefinesIff(hdr, l, s, tip);
      assert Appends([tip])[1..] == [];
      assert tip in [tip];
    }
  }

  lemma WalkSimulates(hdr: string -> Header, l: Ledger, s: P.IngestionState, view: nat -> View, k: nat, last: nat)
    requires HonestRun(hdr, view) && Rel(hdr, l, s) && l.checkpoint.Some?
    ensures var c := l.checkpoint.value;
      var w := Walk(l, view, k, c.hash, c.height + 1, last);
      Simulates(hdr, l, s, w.ledger, w.recorded)
  {
    var c := l.checkpoint.value;
    var inv := (m: Ledger, rec: seq<Block>) => Simulates(hdr, l, s, m, rec);
    forall m, rec, b | inv(m, rec) && Extends(hdr, m, b)
      ensures inv(BlockRecorded(m, b).value, rec + [b])
    {
      SimulatesMore(hdr, l, s, m, rec, b);
    }
    assert !Revives(l, []);
    WalkInvariant(hdr, inv, l, [], view, k, c.hash, c.height + 1, last);
    NothingBefore(Walk(l, view, k, c.hash, c.height + 1, last).recorded);
  }

  lemma SimulatesRefines(hdr: string -> Header, l: Ledger, s: P.IngestionState, out: Outcome)
    requires Simulates(hdr, l, s, out.ledger, out.recorded)
    requires out.result.Ok? ==> out.result.value.reorg.None?
    ensures RefinedIff(hdr, l, s, out)
  {
    if Revives(l, out.recorded) { DivergedNotRel(hdr, out.ledger, P.Applied(s, Appends(out.recorded)).value); }
  }

  lemma ForwardRefines(hdr: string -> Header, l: Ledger, s: P.IngestionState, view: nat -> View, k: nat, tip: Block,
                       maxBlocks: nat)
    requires HonestRun(hdr, view) && Rel(hdr, l, s) && l.checkpoint.Some?
    ensures RefinedIff(hdr, l, s, ForwardTick(l, view, k, l.checkpoint.value, tip, maxBlocks))
  {
    WalkSimulates(hdr, l, s, view, k, Min(tip.height, l.checkpoint.value.height + maxBlocks));
    SimulatesRefines(hdr, l, s, ForwardTick(l, view, k, l.checkpoint.value, tip, maxBlocks));
  }

  lemma BackRefines(hdr: string -> Header, l: Ledger, s: P.IngestionState, view: nat -> View, k: nat, tip: Block,
                    maxRewind: nat)
    requires Rel(hdr, l, s) && l.checkpoint.Some?
    ensures RefinedIff(hdr, l, s, RewindTick(l, view, k, l.checkpoint.value, tip, maxRewind))
  {
    var c := l.checkpoint.value;
    SearchFinds(l, view, k, c.height - 1, c.height - 1 - maxRewind);
    var found := SearchBack(l, view, k, c.height - 1, c.height - 1 - maxRewind).found;
    if found.Ok? {
      RewindRefinesIff(hdr, l, s, found.value);
      assert [P.Rewind(found.value)][1..] == [];
    }
  }

  // ----- A log -----

  predicate CanonicalHeight(blocks: seq<P.ChainBlock>, height: nat) {
    exists b | b in blocks :: b.canonical && b.height == height
  }

  /** What a log does to the pure state: its block, unless stored, its event, and the activity read from it. */
  function Noted(s: P.IngestionState, b: Block, eventId: string): P.IngestionState {
    if P.FindEvent(s.events, eventId).Some? then s
    else if P.FindBlock(s.blocks, b.hash).None? && CanonicalHeight(s.blocks, b.height) then s
    else P.IngestionState(
      if P.FindBlock(s.blocks, b.hash).Some? then s.blocks else s.blocks + [Pure(b)],
      s.events + [P.RawEvent(eventId, b.hash, true)],
      s.checkpoint,
      s.activities + [P.CanonicalActivity(eventId, b.hash, true)])
  }

  lemma {:induction false} CanonicalRow(blocks: seq<P.ChainBlock>, hash: string)
    ensures RowOf(blocks, hash).Some? && RowOf(blocks, hash).value.canonical <==>
            exists b :: b in blocks && b.hash == hash && b.canonical
  {
    if blocks != [] {
      assert blocks == [blocks[0]] + blocks[1..];
      CanonicalRow(blocks[1..], hash);
    }
  }

  lemma HeightTakenIs(hdr: string -> Header, l: Ledger, s: P.IngestionState, height: nat)
    requires Rel(hdr, l, s)
    ensures HeightTaken(l, height) <==> CanonicalHeight(s.blocks, height)
  {
    if HeightTaken(l, height) {
      var hash :| CanonicalAt(l, hash, height);
      assert SameBlock(l, s, hash);
      CanonicalRow(s.blocks, hash);
      RowOfHeaded(hdr, s.blocks, hash);
      var b :| b in s.blocks && b.hash == hash && b.canonical;
    }
    if CanonicalHeight(s.blocks, height) {
      var b :| b in s.blocks && b.canonical && b.height == height;
      CanonicalRow(s.blocks, b.hash);
      RowOfHeaded(hdr, s.blocks, b.hash);
      assert SameBlock(l, s, b.hash);
      assert CanonicalAt(l, b.hash, height);
    }
  }

  lemma {:induction false} FindEventMore(events: seq<P.RawEvent>, e: P.RawEvent, id: string)
    ensures P.FindEvent(events + [e], id)
         == if P.FindEvent(events, id).Some? then P.FindEvent(events, id) else if e.id == id then Some(e) else None
  {
    if events == [] {
      assert [e][1..] == [];
    } else {
      assert (events + [e])[1..] == events[1..] + [e];
      FindEventMore(events[1..], e, id);
    }
  }

  lemma {:induction false} FindActivityMore(activities: seq<P.CanonicalActivity>, a: P.CanonicalActivity, id: string)
    ensures FindActivity(activities + [a], id)
         == if FindActivity(activities, id).Some? then FindActivity(activities, id)
            else if a.id == id then Some(a) else None
  {
    if activities == [] {
      assert [a][1..] == [];
    } else {
      assert (activities + [a])[1..] == activities[1..] + [a];
      FindActivityMore(activities[1..], a, id);
    }
  }

  /** A new log's block, event and row, when the rows are as the worker writes them. */
  ghost predicate LogLeft(l: Ledger, m: Ledger, b: Block, eventId: string, kind: string) {
    && BlockInserted(l, b).Ok? && m.blocks == BlockInserted(l, b).value.blocks
    && m.checkpoint == l.checkpoint
    && m.events == l.events[eventId := EventRow(b.hash, true)]
    && RowId(eventId) !in l.activities
    && m.activities == l.activities[RowId(eventId) := ActivityRow(eventId, kind, b.hash, true)]
  }

  lemma LogLeaves(l: Ledger, b: Block, eventId: string, kind: string)
    requires RowIds(l) && RowsInEventBlocks(l) && eventId !in l.events && BlockInserted(l, b).Ok?
    ensures LogLeft(l, LogStored(l, b, eventId, kind).ledger, b, eventId, kind)
  {
    if RowId(eventId) in l.activities {
      RowIdTells(eventId, l.activities[RowId(eventId)].rawEventId);
    }
    assert !ActivityExists(l, eventId, kind);
  }

  /** A log is what it does to the pure state, always. */
  lemma LogRefines(hdr: string -> Header, l: Ledger, s: P.IngestionState, b: Block, eventId: string, kind: string)
    requires Rel(hdr, l, s) && RowsInEventBlocks(l) && Named(hdr, b)
    ensures Rel(hdr, LogStored(l, b, eventId, kind).ledger, Noted(s, b, eventId))
  {
    assert SameEvent(l, s, eventId) && SameBlock(l, s, b.hash);
    RowOfFinds(hdr, s.blocks, b.hash);
    HeightTakenIs(hdr, l, s, b.height);
    if eventId !in l.events && BlockInserted(l, b).Ok? {
      LogLeaves(l, b, eventId, kind);
      NewLogRefines(hdr, l, s, LogStored(l, b, eventId, kind).ledger, Noted(s, b, eventId), b, eventId, kind);
    }
  }

  lemma NewLogRefines(hdr: string -> Header, l: Ledger, s: P.IngestionState, m: Ledger, t: P.IngestionState, b: Block,
                      eventId: string, kind: string)
    requires Rel(hdr, l, s) && Named(hdr, b) && eventId !in l.events
    requires LogLeft(l, m, b, eventId, kind) && t.checkpoint == s.checkpoint
    requires t.blocks == if b.hash in l.blocks then s.blocks else s.blocks + [Pure(b)]
    requires t.events == s.events + [P.RawEvent(eventId, b.hash, true)]
    requires t.activities == s.activities + [P.CanonicalActivity(eventId, b.hash, true)]
    ensures Rel(hdr, m, t)
  {
    NewLogBlocks(hdr, l, s, m, t, b);
    forall id ensures SameEvent(m, t, id) {
      FindEventMore(s.events, P.RawEvent(eventId, b.hash, true), id);
      assert SameEvent(l, s, id);
    }
    forall id ensures SameActivity(m, t, id) {
      FindActivityMore(s.activities, P.CanonicalActivity(eventId, b.hash, true), id);
      assert SameActivity(l, s, id);
      if RowId(id) == RowId(eventId) { RowIdTells(id, eventId); }
    }
  }

  lemma NewLogBlocks(hdr: string -> Header, l: Ledger, s: P.IngestionState, m: Ledger, t: P.IngestionState, b: Block)
    requires Rel(hdr, l, s) && Named(hdr, b) && BlockInserted(l, b).Ok? && m.blocks == BlockInserted(l, b).value.blocks
    requires t.blocks == if b.hash in l.blocks then s.blocks else s.blocks + [Pure(b)]
    ensures PureHeaded(hdr, t.blocks) && forall hash :: SameBlock(m, t, hash)
  {
    if b.hash in l.blocks {
      forall hash ensures SameBlock(m, t, hash) { assert SameBlock(l, s, hash); }
    } else {
      AppendedSameIff(hdr, l, m, s, t, b);
    }
  }

  // ----- Runs -----

  /** Tables with rows as the worker writes them, and the pure state behind them. */
  ghost predicate Ready(hdr: string -> Header, l: Ledger, s: P.IngestionState) {
    Rel(hdr, l, s) && Sound(hdr, l) && RowsInEventBlocks(l)
  }

  /** Ticks and logs keep every row in the block of its event. */
  lemma StepKeepsRows(hdr: string -> Header, l: Ledger, step: Step)
    requires RowIds(l) && RowsInEventBlocks(l) && HonestStep(hdr, step)
    ensures RowIds(Stepped(l, step)) && RowsInEventBlocks(Stepped(l, step))
  {
    match step {
      case Ticked(view, limits) =>
        var inv := (m: Ledger, rec: seq<Block>) => RowIds(m) && RowsInEventBlocks(m);
        TickInvariant(hdr, inv, inv, l, view, 0, limits);
      case Logged(b, eventId, kind) =>
        if eventId !in l.events && BlockInserted(l, b).Ok? { LogLeaves(l, b, eventId, kind); }
    }
  }

  /** The pure side of one step. */
  ghost function PureStepped(l: Ledger, s: P.IngestionState, step: Step): Result<P.IngestionState, P.IngestionError> {
    match step
    case Ticked(view, limits) => P.Applied(s, StepsOf(Tick(l, view, 0, limits)))
    case Logged(b, eventId, _) => Ok(Noted(s, b, eventId))
  }

  ghost function PureRun(l: Ledger, s: P.IngestionState, steps: seq<Step>): Result<P.IngestionState, P.IngestionError>
    decreases |steps|
  {
    if steps == [] then Ok(s)
    else match PureStepped(l, s, steps[0])
    case Err(e) => Err(e)
    case Ok(t) => PureRun(Stepped(l, steps[0]), t, steps[1..])
  }

  ghost predicate RunRefined(hdr: string -> Header, l: Ledger, s: P.IngestionState, steps: seq<Step>) {
    PureRun(l, s, steps).Ok? && Rel(hdr, Run(l, steps), PureRun(l, s, steps).value)
  }

  /** A tick that records no orphan and rewinds cleanly, or a log. */
  ghost predicate StaysTogether(l: Ledger, step: Step) {
    step.Ticked? ==>
      var out := Tick(l, step.view, 0, step.limits);
      !Revives(l, out.recorded) && CleanRewind(l, out)
  }

  ghost predicate NeverDiverges(l: Ledger, steps: seq<Step>)
    decreases |steps|
  {
    steps != [] ==> StaysTogether(l, steps[0]) && NeverDiverges(Stepped(l, steps[0]), steps[1..])
  }

  lemma StepFromReady(hdr: string -> Header, l: Ledger, s: P.IngestionState, step: Step)
    requires Ready(hdr, l, s) && HonestStep(hdr, step)
    ensures PureStepped(l, s, step).Ok?
    ensures StaysTogether(l, step) ==> Ready(hdr, Stepped(l, step), PureStepped(l, s, step).value)
    ensures !StaysTogether(l, step) ==> !Rel(hdr, Stepped(l, step), PureStepped(l, s, step).value)
  {
    StepKeeps(hdr, l, step);
    StepKeepsRows(hdr, l, step);
    match step {
      case Ticked(view, limits) => TickRefinesIff(hdr, l, s, view, 0, limits);
      case Logged(b, eventId, kind) => LogRefines(hdr, l, s, b, eventId, kind);
    }
  }

  lemma {:induction false} RunRefinedIf(hdr: string -> Header, l: Ledger, s: P.IngestionState, steps: seq<Step>)
    requires Ready(hdr, l, s) && NeverDiverges(l, steps)
    requires forall step | step in steps :: HonestStep(hdr, step)
    ensures RunRefined(hdr, l, s, steps)
    decreases |steps|
  {
    if steps != [] {
      assert steps[0] in steps;
      StepFromReady(hdr, l, s, steps[0]);
      RunRefinedIf(hdr, Stepped(l, steps[0]), PureStepped(l, s, steps[0]).value, steps[1..]);
    }
  }

  lemma RunRefinedFirst(hdr: string -> Header, l: Ledger, s: P.IngestionState, steps: seq<Step>)
    requires steps != [] && PureStepped(l, s, steps[0]).Ok?
    ensures RunRefined(hdr, l, s, steps) <==>
            RunRefined(hdr, Stepped(l, steps[0]), PureStepped(l, s, steps[0]).value, steps[1..])
  {
  }

  lemma {:induction false} DivergenceShows(hdr: string -> Header, l: Ledger, s: P.IngestionState, steps: seq<Step>)
    returns (n: nat)
    requires Ready(hdr, l, s) && !NeverDiverges(l, steps)
    requires forall step | step in steps :: HonestStep(hdr, step)
    ensures n <= |steps| && !RunRefined(hdr, l, s, steps[..n])
    decreases |steps|
  {
    assert steps[0] in steps;
    StepFromReady(hdr, l, s, steps[0]);
    var m, t := Stepped(l, steps[0]), PureStepped(l, s, steps[0]).value;
    var later := 0;
    if StaysTogether(l, steps[0]) {
      later := DivergenceShows(hdr, m, t, steps[1..]);
    } else {
      NothingRefined(hdr, m, t, steps[1..][..0]);
    }
    n := later + 1;
    RunPrefix(l, steps, n);
    RunRefinedFirst(hdr, l, s, steps[..n]);
  }

  lemma NothingRefined(hdr: string -> Header, l: Ledger, s: P.IngestionState, steps: seq<Step>)
    requires steps == [] && !Rel(hdr, l, s)
    ensures !RunRefined(hdr, l, s, steps)
  {
  }

  lemma {:induction false} NeverDivergesPrefix(l: Ledger, steps: seq<Step>, n: nat)
    requires NeverDiverges(l, steps) && n <= |steps|
    ensures NeverDiverges(l, steps[..n])
    decreases |steps|
  {
    if n > 0 {
      NeverDivergesPrefix(Stepped(l, steps[0]), steps[1..], n - 1);
      RunPrefix(l, steps, n);
    }
  }

  /**
   * Every prefix of a run of ticks and logs refines its pure side exactly when no tick records an orphan and
   * every rewind is clean.
   */
  lemma RunRefinesIff(hdr: string -> Header, l: Ledger, s: P.IngestionState, steps: seq<Step>)
    requires Ready(hdr, l, s) && forall step | step in steps :: HonestStep(hdr, step)
    ensures (forall n: nat | n <= |steps| :: RunRefined(hdr, l, s, steps[..n])) <==> NeverDiverges(l, steps)
  {
    if NeverDiverges(l, steps) {
      forall n: nat | n <= |steps|
        ensures RunRefined(hdr, l, s, steps[..n])
      {
        NeverDivergesPrefix(l, steps, n);
        RunRefinedIf(hdr, l, s, steps[..n]);
      }
    } else {
      var n := DivergenceShows(hdr, l, s, steps);
    }
  }

  /** With canonical evidence in canonical blocks every rewind is clean. */
  lemma EvidenceIsClean(hdr: string -> Header, l: Ledger, step: Step)
    requires Sound(hdr, l) && EvidenceCanonical(l) && RowIds(l) && RowsInEventBlocks(l) && HonestStep(hdr, step)
    requires step.Ticked?
    ensures CleanRewind(l, Tick(l, step.view, 0, step.limits))
  {
    StainFound(hdr, l);
    forall top: nat ensures !StainedAbove(l, top) && Together(l, top) { WorkerRowsMoveIff(l, top); }
    RewindsToStored(l, step.view, 0, step.limits);
  }

  lemma RewindsToStored(l: Ledger, view: nat -> View, k: nat, limits: Limits)
    ensures var out := Tick(l, view, k, limits);
      out.result.Ok? && out.result.value.reorg.Some? ==> out.result.value.reorg.value.ancestorHash in l.blocks
  {
    if view(k).tip.Some? && l.checkpoint.Some? {
      var c := l.checkpoint.value;
      SearchFinds(l, view, k + 2, c.height - 1, c.height - 1 - limits.maxRewind);
    }
  }

  /** From the start, a run that records no orphan and logs no event of one is refined all along. */
  lemma {:induction false} CleanRunsRefine(hdr: string -> Header, l: Ledger, steps: seq<Step>)
    requires Sound(hdr, l) && EvidenceCanonical(l) && RowIds(l) && RowsInEventBlocks(l)
    requires forall step | step in steps :: HonestStep(hdr, step)
    requires NeverRevives(l, steps) && NoOrphanLogs(l, steps)
    ensures NeverDiverges(l, steps)
    decreases |steps|
  {
    if steps != [] {
      assert steps[0] in steps;
      if steps[0].Ticked? { EvidenceIsClean(hdr, l, steps[0]); }
      StepKeeps(hdr, l, steps[0]);
      StepKeepsRows(hdr, l, steps[0]);
      StepEvidenceIff(hdr, l, steps[0]);
      CleanRunsRefine(hdr, Stepped(l, steps[0]), steps[1..]);
    }
  }

  /** The start of every run. */
  lemma StartIsReady(hdr: string -> Header)
    ensures Ready(hdr, EMPTY, P.NOTHING) && EvidenceCanonical(EMPTY)
  {
  }

  /** From the start ticks alone are refined all along exactly when none records an orphan. */
  lemma TicksRefineIff(hdr: string -> Header, steps: seq<Step>)
    requires forall step | step in steps :: step.Ticked? && HonestStep(hdr, step)
    ensures (forall n: nat | n <= |steps| :: RunRefined(hdr, EMPTY, P.NOTHING, steps[..n]))
            <==> NeverRevives(EMPTY, steps)
  {
    StartIsReady(hdr);
    RunRefinesIff(hdr, EMPTY, P.NOTHING, steps);
    TicksLogNothing(EMPTY, steps);
    if NeverRevives(EMPTY, steps) { CleanRunsRefine(hdr, EMPTY, steps); }
    if NeverDiverges(EMPTY, steps) { DivergesLess(EMPTY, steps); }
  }

  lemma {:induction false} TicksLogNothing(l: Ledger, steps: seq<Step>)
    requires forall step | step in steps :: step.Ticked?
    ensures NoOrphanLogs(l, steps)
    decreases |steps|
  {
    if steps != [] {
      assert steps[0] in steps;
      TicksLogNothing(Stepped(l, steps[0]), steps[1..]);
    }
  }

  lemma {:induction false} DivergesLess(l: Ledger, steps: seq<Step>)
    requires NeverDiverges(l, steps)
    ensures NeverRevives(l, steps)
    decreases |steps|
  {
    if steps != [] { DivergesLess(Stepped(l, steps[0]), steps[1..]); }
  }
}
