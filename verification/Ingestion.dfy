/**
 * The pure form of ingestion: appending a block with its events, and rewinding to an ancestor.
 *
 * Chain and network are fixed, and the fields no step reads (payload, source, observation time,
 * kind, owner, effects) are left out.
 */
module Ingestion {
  import opened Wrappers
  import opened Evidence

  datatype ChainBlock = ChainBlock(height: nat, hash: string, parentHash: string, canonical: bool)
  datatype RawEvent = RawEvent(id: string, blockHash: string, canonical: bool)
  datatype CanonicalActivity = CanonicalActivity(id: string, blockHash: string, canonical: bool)

  datatype IngestionState = IngestionState(
    blocks: seq<ChainBlock>,
    events: seq<RawEvent>,
    checkpoint: Option<Checkpoint>,
    activities: seq<CanonicalActivity>)

  datatype IngestionError = DoesNotContinue | UnknownAncestorBlock

  const NOTHING := IngestionState([], [], None, [])

  function MarkAll(events: seq<RawEvent>): seq<RawEvent> {
    seq(|events|, i requires 0 <= i < |events| => events[i].(canonical := true))
  }

  function ApplyBlock(s: IngestionState, block: ChainBlock, events: seq<RawEvent>)
    : Result<IngestionState, IngestionError>
  {
    if s.checkpoint.Some? && block.parentHash != s.checkpoint.value.hash then Err(DoesNotContinue)
    else Ok(IngestionState(
      s.blocks + [block.(canonical := true)],
      s.events + MarkAll(events),
      Some(Checkpoint(block.height, block.hash)),
      s.activities))
  }

  /** `find` by hash: the first block stored with it. */
  function FindBlock(blocks: seq<ChainBlock>, hash: string): Option<ChainBlock> {
    if blocks == [] then None
    else if blocks[0].hash == hash then Some(blocks[0])
    else FindBlock(blocks[1..], hash)
  }

  function FindEvent(events: seq<RawEvent>, id: string): Option<RawEvent> {
    if events == [] then None
    else if events[0].id == id then Some(events[0])
    else FindEvent(events[1..], id)
  }

  function RewindBlock(b: ChainBlock, top: nat): ChainBlock {
    if b.height > top then b.(canonical := false) else b
  }

  predicate AboveAncestor(blocks: seq<ChainBlock>, hash: string, top: nat) {
    FindBlock(blocks, hash).Some? && FindBlock(blocks, hash).value.height > top
  }

  function RewindEvent(blocks: seq<ChainBlock>, e: RawEvent, top: nat): RawEvent {
    if AboveAncestor(blocks, e.blockHash, top) then e.(canonical := false) else e
  }

  /** `map` over the stored blocks. */
  function RewindBlocks(blocks: seq<ChainBlock>, top: nat): (rewound: seq<ChainBlock>)
    ensures |rewound| == |blocks| && forall i | 0 <= i < |blocks| :: rewound[i] == RewindBlock(blocks[i], top)
  {
    if blocks == [] then [] else [RewindBlock(blocks[0], top)] + RewindBlocks(blocks[1..], top)
  }

  function RewindEvents(blocks: seq<ChainBlock>, events: seq<RawEvent>, top: nat): (rewound: seq<RawEvent>)
    ensures |rewound| == |events| && forall i | 0 <= i < |events| :: rewound[i] == RewindEvent(blocks, events[i], top)
  {
    if events == [] then [] else [RewindEvent(blocks, events[0], top)] + RewindEvents(blocks, events[1..], top)
  }

  function RewindActivity(s: IngestionState, a: CanonicalActivity, top: nat): CanonicalActivity {
    var event := FindEvent(s.events, a.id);
    if event.Some? && AboveAncestor(s.blocks, event.value.blockHash, top) then a.(canonical := false) else a
  }

  function ApplyReorg(s: IngestionState, commonAncestorHash: string): Result<IngestionState, IngestionError> {
    var ancestor := FindBlock(s.blocks, commonAncestorHash);
    if ancestor.None? then Err(UnknownAncestorBlock)
    else
      var top := ancestor.value.height;
      Ok(IngestionState(
        RewindBlocks(s.blocks, top),
        RewindEvents(s.blocks, s.events, top),
        Some(Checkpoint(top, ancestor.value.hash)),
        seq(|s.activities|, i requires 0 <= i < |s.activities| => RewindActivity(s, s.activities[i], top))))
  }

  // ----- The canonical chain -----

  /** The canonical blocks, in the order they were stored. */
  function Canonical(blocks: seq<ChainBlock>): seq<ChainBlock> {
    if blocks == [] then []
    else (if blocks[0].canonical then [blocks[0]] else []) + Canonical(blocks[1..])
  }

  /** Consecutive heights, each block naming the one before it as its parent. */
  ghost predicate Linked(chain: seq<ChainBlock>) {
    forall i | 0 < i < |chain| :: chain[i].height == chain[i - 1].height + 1 && chain[i].parentHash == chain[i - 1].hash
  }

  /** One parent-linked canonical chain with the checkpoint at its head. */
  ghost predicate OneChain(s: IngestionState) {
    var chain := Canonical(s.blocks);
    && Linked(chain)
    && (s.checkpoint.None? ==> s.blocks == [])
    && (s.checkpoint.Some? ==>
          chain != [] && s.checkpoint.value == Checkpoint(chain[|chain| - 1].height, chain[|chain| - 1].hash))
  }

  /** Blocks with equal hashes are equal up to the flag. */
  ghost predicate HashFixesHeight(blocks: seq<ChainBlock>) {
    forall b, c | b in blocks && c in blocks && b.hash == c.hash :: b.height == c.height
  }

  /** Every canonical event sits in a canonical block. */
  ghost predicate EventsCanonical(s: IngestionState) {
    forall e | e in s.events && e.canonical :: exists b :: b in s.blocks && b.canonical && b.hash == e.blockHash
  }

  /** Every canonical activity is read from a stored canonical event of the same id. */
  ghost predicate ActivitiesCanonical(s: IngestionState) {
    forall a | a in s.activities && a.canonical ::
        FindEvent(s.events, a.id).Some? && FindEvent(s.events, a.id).value.canonical
  }

  ghost predicate Consistent(s: IngestionState) {
    OneChain(s) && HashFixesHeight(s.blocks) && EventsCanonical(s) && ActivitiesCanonical(s)
  }

  lemma {:induction false} CanonicalAppend(blocks: seq<ChainBlock>, more: seq<ChainBlock>)
    ensures Canonical(blocks + more) == Canonical(blocks) + Canonical(more)
  {
    if blocks == [] {
      assert blocks + more == more;
    } else {
      assert (blocks + more)[1..] == blocks[1..] + more;
      CanonicalAppend(blocks[1..], more);
      var head := if blocks[0].canonical then [blocks[0]] else [];
      assert Canonical(blocks + more) == head + (Canonical(blocks[1..]) + Canonical(more));
      assert Canonical(blocks) == head + Canonical(blocks[1..]);
    }
  }

  lemma {:induction false} CanonicalMembers(blocks: seq<ChainBlock>)
    ensures forall b :: b in Canonical(blocks) <==> b in blocks && b.canonical
  {
    if blocks != [] {
      CanonicalMembers(blocks[1..]);
      assert blocks == [blocks[0]] + blocks[1..];
    }
  }

  lemma {:induction false} LinkedHeights(chain: seq<ChainBlock>, i: nat)
    requires Linked(chain) && i < |chain|
    ensures chain[i].height == chain[0].height + i
  {
    if i > 0 {
      LinkedHeights(chain, i - 1);
    }
  }

  /** What stays of a linked chain when everything above `top` goes: its first blocks. */
  function UpTo(chain: seq<ChainBlock>, top: nat): seq<ChainBlock> {
    if chain == [] then []
    else (if chain[0].height > top then [] else [chain[0]]) + UpTo(chain[1..], top)
  }

  lemma {:induction false} UpToPrefix(chain: seq<ChainBlock>, top: nat)
    requires Linked(chain)
    ensures UpTo(chain, top) <= chain
    ensures forall i | 0 <= i < |chain| :: i < |UpTo(chain, top)| <==> chain[i].height <= top
  {
    if chain != [] {
      if chain[0].height > top {
        forall i | 0 <= i < |chain| ensures chain[i].height > top {
          LinkedHeights(chain, i);
        }
        UpToNone(chain, top);
      } else {
        UpToPrefix(chain[1..], top);
        assert chain == [chain[0]] + chain[1..];
        forall i | 0 <= i < |chain|
          ensures i < |UpTo(chain, top)| <==> chain[i].height <= top
        {
          if i > 0 { assert chain[1..][i - 1] == chain[i]; }
        }
      }
    }
  }

  lemma {:induction false} UpToNone(chain: seq<ChainBlock>, top: nat)
    requires forall i | 0 <= i < |chain| :: chain[i].height > top
    ensures UpTo(chain, top) == []
  {
    if chain != [] { UpToNone(chain[1..], top); }
  }

  lemma {:induction false} CanonicalRewound(blocks: seq<ChainBlock>, top: nat)
    ensures Canonical(RewindBlocks(blocks, top)) == UpTo(Canonical(blocks), top)
  {
    if blocks != [] {
      var rest := blocks[1..];
      CanonicalRewound(rest, top);
      if blocks[0].canonical {
        assert Canonical(blocks)[1..] == Canonical(rest);
      } else {
        assert Canonical(blocks) == Canonical(rest);
      }
    }
  }

  lemma {:induction false} FindBlockFinds(blocks: seq<ChainBlock>, hash: string)
    ensures FindBlock(blocks, hash).Some? ==>
            FindBlock(blocks, hash).value in blocks && FindBlock(blocks, hash).value.hash == hash
    ensures FindBlock(blocks, hash).None? ==> forall b | b in blocks :: b.hash != hash
  {
    if blocks != [] && blocks[0].hash != hash {
      FindBlockFinds(blocks[1..], hash);
    }
  }

  // ----- Steps -----

  datatype PureStep = Append(block: ChainBlock, events: seq<RawEvent>) | Rewind(ancestorHash: string)

  function Apply(s: IngestionState, step: PureStep): Result<IngestionState, IngestionError> {
    match step
    case Append(block, events) => ApplyBlock(s, block, events)
    case Rewind(hash) => ApplyReorg(s, hash)
  }

  /**
   * What a caller must respect: heights follow the checkpoint, hashes are not reused for another
   * height, events carry the hash of their own block, and a rewind goes to a
   * canonical block.
   */
  ghost predicate Proper(s: IngestionState, step: PureStep) {
    match step
    case Append(block, events) =>
      && (s.checkpoint.Some? ==> block.height == s.checkpoint.value.height + 1)
      && HashFixesHeight(s.blocks + [block])
      && forall e | e in events :: e.blockHash == block.hash
    case Rewind(hash) =>
      exists b :: b in s.blocks && b.canonical && b.hash == hash
  }

  /** A block that continues the checkpoint, or the first one, keeps everything consistent; any other throws. */
  lemma ApplyBlockKeeps(s: IngestionState, block: ChainBlock, events: seq<RawEvent>)
    requires Consistent(s) && Proper(s, Append(block, events))
    ensures match ApplyBlock(s, block, events)
            case Ok(t) => (s.checkpoint.Some? ==> block.parentHash == s.checkpoint.value.hash) && Consistent(t)
            case Err(e) => s.checkpoint.Some? && block.parentHash != s.checkpoint.value.hash && e == DoesNotContinue
  {
    if ApplyBlock(s, block, events).Ok? {
      AppendChain(s, block, events);
      AppendHashes(s.blocks, block);
      AppendEvents(s, block, events);
      var t := ApplyBlock(s, block, events).value;
      forall a | a in t.activities && a.canonical
        ensures FindEvent(t.events, a.id).Some? && FindEvent(t.events, a.id).value.canonical
      {
        FindEventAppend(s.events, MarkAll(events), a.id);
      }
    }
  }

  /** An applied block and its events are added as canonical, and nothing else changes but the checkpoint. */
  lemma ApplyBlockAppends(s: IngestionState, block: ChainBlock, events: seq<RawEvent>)
    requires ApplyBlock(s, block, events).Ok?
    ensures var t := ApplyBlock(s, block, events).value;
      && |t.blocks| == |s.blocks| + 1 && t.blocks[..|s.blocks|] == s.blocks
      && t.blocks[|s.blocks|] == ChainBlock(block.height, block.hash, block.parentHash, true)
      && |t.events| == |s.events| + |events| && t.events[..|s.events|] == s.events
      && (forall i | 0 <= i < |events| ::
            t.events[|s.events| + i] == RawEvent(events[i].id, events[i].blockHash, true))
      && t.activities == s.activities && t.checkpoint == Some(Checkpoint(block.height, block.hash))
  {
  }

  lemma AppendChain(s: IngestionState, block: ChainBlock, events: seq<RawEvent>)
    requires OneChain(s) && ApplyBlock(s, block, events).Ok?
    requires s.checkpoint.Some? ==> block.height == s.checkpoint.value.height + 1
    ensures OneChain(ApplyBlock(s, block, events).value)
  {
    var stored := block.(canonical := true);
    CanonicalAppend(s.blocks, [stored]);
    assert Canonical([stored]) == [stored] by { assert [stored][1..] == []; }
    assert Canonical(s.blocks + [stored]) == Canonical(s.blocks) + [stored];
  }

  lemma AppendHashes(blocks: seq<ChainBlock>, block: ChainBlock)
    requires HashFixesHeight(blocks + [block])
    ensures HashFixesHeight(blocks + [block.(canonical := true)])
  {
    var more := blocks + [block.(canonical := true)];
    forall b, c | b in more && c in more && b.hash == c.hash ensures b.height == c.height {
      assert block in blocks + [block];
      if b in blocks { assert b in blocks + [block]; }
      if c in blocks { assert c in blocks + [block]; }
    }
  }

  lemma AppendEvents(s: IngestionState, block: ChainBlock, events: seq<RawEvent>)
    requires EventsCanonical(s) && ApplyBlock(s, block, events).Ok?
    requires forall e | e in events :: e.blockHash == block.hash
    ensures EventsCanonical(ApplyBlock(s, block, events).value)
  {
    var t := ApplyBlock(s, block, events).value;
    var stored := block.(canonical := true);
    forall e | e in t.events && e.canonical
      ensures exists b :: b in t.blocks && b.canonical && b.hash == e.blockHash
    {
      if e in s.events {
        var b :| b in s.blocks && b.canonical && b.hash == e.blockHash;
        assert b in t.blocks;
      } else {
        assert stored in t.blocks && stored.hash == e.blockHash;
      }
    }
  }

  lemma {:induction false} FindEventAppend(first: seq<RawEvent>, second: seq<RawEvent>, id: string)
    requires FindEvent(first, id).Some?
    ensures FindEvent(first + second, id) == FindEvent(first, id)
  {
    assert (first + second)[1..] == first[1..] + second;
    if first[0].id != id {
      FindEventAppend(first[1..], second, id);
    }
  }

  /** Cutting a linked chain at one of its own heights leaves that block at the head. */
  lemma UpToHead(chain: seq<ChainBlock>, b: ChainBlock)
    requires Linked(chain) && b in chain
    ensures var kept := UpTo(chain, b.height);
      Linked(kept) && kept != [] && kept[|kept| - 1] == b
  {
    UpToPrefix(chain, b.height);
    var kept := UpTo(chain, b.height);
    var i :| 0 <= i < |chain| && chain[i] == b;
    assert i < |kept|;
    if i + 1 < |chain| {
      assert chain[i + 1].height > b.height;
    }
    assert |kept| == i + 1;
    assert Linked(kept);
  }

  lemma ReorgChain(s: IngestionState, hash: string)
    requires Consistent(s) && Proper(s, Rewind(hash))
    ensures ApplyReorg(s, hash).Ok? && OneChain(ApplyReorg(s, hash).value)
  {
    FindBlockFinds(s.blocks, hash);
    var b :| b in s.blocks && b.canonical && b.hash == hash;
    RewoundChain(s.blocks, b);
  }

  /** The canonical chain after a rewind to one of its blocks. */
  lemma RewoundChain(blocks: seq<ChainBlock>, b: ChainBlock)
    requires Linked(Canonical(blocks)) && b in blocks && b.canonical
    ensures var chain := Canonical(RewindBlocks(blocks, b.height));
      Linked(chain) && chain != [] && chain[|chain| - 1] == b
  {
    CanonicalMembers(blocks);
    CanonicalRewound(blocks, b.height);
    UpToHead(Canonical(blocks), b);
  }

  lemma ReorgEvents(s: IngestionState, hash: string)
    requires Consistent(s) && Proper(s, Rewind(hash)) && ApplyReorg(s, hash).Ok?
    ensures EventsCanonical(ApplyReorg(s, hash).value)
  {
    var top := FindBlock(s.blocks, hash).value.height;
    var t := ApplyReorg(s, hash).value;
    forall e | e in t.events && e.canonical
      ensures exists b :: b in t.blocks && b.canonical && b.hash == e.blockHash
    {
      var i :| 0 <= i < |t.events| && t.events[i] == e;
      assert s.events[i] == e;
      var b :| b in s.blocks && b.canonical && b.hash == e.blockHash;
      FindBlockFinds(s.blocks, e.blockHash);
      var j :| 0 <= j < |s.blocks| && s.blocks[j] == b;
      assert t.blocks[j] == b;
    }
  }

  lemma {:induction false} FindEventRewound(blocks: seq<ChainBlock>, events: seq<RawEvent>, top: nat, id: string)
    ensures match FindEvent(events, id)
            case None => FindEvent(RewindEvents(blocks, events, top), id).None?
            case Some(e) => FindEvent(RewindEvents(blocks, events, top), id) == Some(RewindEvent(blocks, e, top))
  {
    if events != [] {
      FindEventRewound(blocks, events[1..], top, id);
    }
  }

  lemma ReorgActivities(s: IngestionState, hash: string)
    requires ActivitiesCanonical(s) && ApplyReorg(s, hash).Ok?
    ensures ActivitiesCanonical(ApplyReorg(s, hash).value)
  {
    var top := FindBlock(s.blocks, hash).value.height;
    var t := ApplyReorg(s, hash).value;
    forall a | a in t.activities && a.canonical
      ensures FindEvent(t.events, a.id).Some? && FindEvent(t.events, a.id).value.canonical
    {
      var i :| 0 <= i < |t.activities| && t.activities[i] == a;
      assert s.activities[i] == a;
      FindEventRewound(s.blocks, s.events, top, a.id);
    }
  }

  lemma ApplyReorgKeeps(s: IngestionState, hash: string)
    requires Consistent(s) && Proper(s, Rewind(hash))
    ensures ApplyReorg(s, hash).Ok? && Consistent(ApplyReorg(s, hash).value)
  {
    ReorgChain(s, hash);
    ReorgEvents(s, hash);
    ReorgActivities(s, hash);
    ReorgHashes(s, hash);
  }

  /** A consistent state stays consistent exactly when the named ancestor is canonical; an unknown one throws. */
  lemma ApplyReorgKeepsIff(s: IngestionState, hash: string)
    requires Consistent(s)
    ensures match ApplyReorg(s, hash)
            case Ok(t) => Consistent(t) <==> exists b :: b in s.blocks && b.canonical && b.hash == hash
            case Err(e) => e == UnknownAncestorBlock && forall b | b in s.blocks :: b.hash != hash
  {
    FindBlockFinds(s.blocks, hash);
    if exists b :: b in s.blocks && b.canonical && b.hash == hash {
      ApplyReorgKeeps(s, hash);
    } else if ApplyReorg(s, hash).Ok? && OneChain(ApplyReorg(s, hash).value) {
      HeadWasCanonical(s, hash);
      assert false;
    }
  }

  /** The head of the chain after a reorg was canonical before it. */
  lemma HeadWasCanonical(s: IngestionState, hash: string)
    requires ApplyReorg(s, hash).Ok? && OneChain(ApplyReorg(s, hash).value)
    ensures exists b :: b in s.blocks && b.canonical && b.hash == hash
  {
    FindBlockFinds(s.blocks, hash);
    var top := FindBlock(s.blocks, hash).value.height;
    var chain := Canonical(RewindBlocks(s.blocks, top));
    CanonicalMembers(RewindBlocks(s.blocks, top));
    assert chain[|chain| - 1] in chain;
    var before := BeforeRewind(s.blocks, top, chain[|chain| - 1]);
  }

  lemma ReorgHashes(s: IngestionState, hash: string)
    requires HashFixesHeight(s.blocks) && ApplyReorg(s, hash).Ok?
    ensures HashFixesHeight(ApplyReorg(s, hash).value.blocks)
  {
    RewoundHashes(s.blocks, FindBlock(s.blocks, hash).value.height);
  }

  lemma RewoundHashes(blocks: seq<ChainBlock>, top: nat)
    requires HashFixesHeight(blocks)
    ensures HashFixesHeight(RewindBlocks(blocks, top))
  {
    var rewound := RewindBlocks(blocks, top);
    forall b, c | b in rewound && c in rewound && b.hash == c.hash ensures b.height == c.height {
      var b0 := BeforeRewind(blocks, top, b);
      var c0 := BeforeRewind(blocks, top, c);
    }
  }

  lemma BeforeRewind(blocks: seq<ChainBlock>, top: nat, b: ChainBlock) returns (before: ChainBlock)
    requires b in RewindBlocks(blocks, top)
    ensures before in blocks && before.hash == b.hash && before.height == b.height
    ensures b.canonical ==> before.canonical
  {
    var i :| 0 <= i < |RewindBlocks(blocks, top)| && RewindBlocks(blocks, top)[i] == b;
    before := blocks[i];
  }

  /** Nothing stored is removed or reordered; only flags go down. */
  ghost predicate Flagging(s: IngestionState, t: IngestionState) {
    && |s.blocks| <= |t.blocks|
    && (forall i | 0 <= i < |s.blocks| ::
          t.blocks[i] == s.blocks[i].(canonical := t.blocks[i].canonical)
              && (t.blocks[i].canonical ==> s.blocks[i].canonical))
    && |s.events| <= |t.events|
    && (forall i | 0 <= i < |s.events| ::
          t.events[i] == s.events[i].(canonical := t.events[i].canonical)
              && (t.events[i].canonical ==> s.events[i].canonical))
    && |s.activities| <= |t.activities|
    && (forall i | 0 <= i < |s.activities| ::
          && t.activities[i] == s.activities[i].(canonical := t.activities[i].canonical)
          && (t.activities[i].canonical ==> s.activities[i].canonical))
  }

  lemma StepFlags(s: IngestionState, step: PureStep)
    requires Apply(s, step).Ok?
    ensures Flagging(s, Apply(s, step).value)
  {
  }

  /** A run of steps; the first one that throws ends it. */
  function Applied(s: IngestionState, steps: seq<PureStep>): Result<IngestionState, IngestionError>
    decreases |steps|
  {
    if steps == [] then Ok(s)
    else match Apply(s, steps[0])
    case Err(e) => Err(e)
    case Ok(t) => Applied(t, steps[1..])
  }

  ghost predicate ProperRun(s: IngestionState, steps: seq<PureStep>)
    decreases |steps|
  {
    steps != [] ==>
      && Proper(s, steps[0])
      && (Apply(s, steps[0]).Ok? ==> ProperRun(Apply(s, steps[0]).value, steps[1..]))
  }

  /** Every run of proper steps keeps one chain, canonical evidence in canonical blocks, and every record. */
  lemma {:induction false} RunConsistent(s: IngestionState, steps: seq<PureStep>)
    requires Consistent(s) && ProperRun(s, steps) && Applied(s, steps).Ok?
    ensures Consistent(Applied(s, steps).value) && Flagging(s, Applied(s, steps).value)
    decreases |steps|
  {
    if steps != [] {
      match steps[0] {
        case Append(block, events) => ApplyBlockKeeps(s, block, events);
        case Rewind(hash) => ApplyReorgKeeps(s, hash);
      }
      StepFlags(s, steps[0]);
      RunConsistent(Apply(s, steps[0]).value, steps[1..]);
    }
  }
}
