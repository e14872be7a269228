/**
 * One ingestion tick: walk the checkpoint forward along the remote chain, or rewind it.
 *
 * The remote chain may be a different one at every provider call. Call number k is answered from
 * view(k), and an absent answer is a call that threw.
 */
module Ingest {
  import opened Wrappers
  import opened Evidence
  import Lists

  datatype View = View(tip: Option<Block>, at: nat -> Option<Block>)

  datatype Limits = Limits(maxBlocks: nat, maxRewind: nat)

  datatype TickError = ProviderFailed | StoreFailed(cause: StoreError) | NoCommonAncestor

  datatype ReorgResult = ReorgResult(ancestorHash: string, flagged: Flagged)

  datatype BlockResult = BlockResult(
    tipHeight: nat, blocks: nat, reorg: Option<ReorgResult>, checkpoint: Option<Checkpoint>)

  /** What a tick leaves behind. `recorded` lists the blocks it handed to the store, in order. */
  datatype Outcome = Outcome(
    ledger: Ledger, calls: nat, recorded: seq<Block>, result: Result<BlockResult, TickError>)

  datatype Search = Search(calls: nat, found: Result<string, TickError>)

  datatype Walked = Walked(ledger: Ledger, calls: nat, recorded: seq<Block>, error: Option<TickError>)

  // ----- The tick as a function -----

  /** Step back from `height` while `height` is above `floor`; skip heights with no stored block. */
  ghost function SearchBack(l: Ledger, view: nat -> View, k: nat, height: int, floor: int): Search
    decreases height - floor
  {
    if height <= floor || height < 0 then Search(k, Err(NoCommonAncestor))
    else match FoundAt(l, height)
    case None => SearchBack(l, view, k, height - 1, floor)
    case Some(stored) =>
      match view(k).at(height)
      case None => Search(k + 1, Err(ProviderFailed))
      case Some(b) =>
        if b.hash == stored then Search(k + 1, Ok(stored))
        else SearchBack(l, view, k + 1, height - 1, floor)
  }

  /** Record blocks height..last while each one continues `parentHash`. */
  ghost function Walk(l: Ledger, view: nat -> View, k: nat, parentHash: string, height: nat, last: nat): Walked
    decreases last + 1 - height
  {
    if height > last then Walked(l, k, [], None)
    else match view(k).at(height)
    case None => Walked(l, k + 1, [], Some(ProviderFailed))
    case Some(b) =>
      if b.parentHash != parentHash then Walked(l, k + 1, [], None)
      else match BlockRecorded(l, b)
      case Err(e) => Walked(l, k + 1, [], Some(StoreFailed(e)))
      case Ok(stored) =>
        var rest := Walk(stored, view, k + 1, b.hash, height + 1, last);
        rest.(recorded := [b] + rest.recorded)
  }

  ghost function FirstTick(l: Ledger, k: nat, tip: Block): Outcome {
    match BlockRecorded(l, tip)
    case Err(e) => Outcome(l, k, [], Err(StoreFailed(e)))
    case Ok(stored) =>
      Outcome(stored, k, [tip], Ok(BlockResult(tip.height, 1, None, Some(Checkpoint(tip.height, tip.hash)))))
  }

  ghost function RewindTick(l: Ledger, view: nat -> View, k: nat, c: Checkpoint, tip: Block, maxRewind: nat): Outcome {
    var search := SearchBack(l, view, k, c.height - 1, c.height - 1 - maxRewind);
    match search.found
    case Err(e) => Outcome(l, search.calls, [], Err(e))
    case Ok(hash) =>
      match ReorgMarked(l, hash)
      case Err(e) => Outcome(l, search.calls, [], Err(StoreFailed(e)))
      case Ok(rewound) =>
        var orphans := Orphans(l, l.blocks[hash].height);
        var flagged := Flagged(|orphans|, |OrphanedEvents(l, orphans)|, |OrphanedActivities(l, orphans)|);
        Outcome(rewound, search.calls, [],
                Ok(BlockResult(tip.height, 0, Some(ReorgResult(hash, flagged)), rewound.checkpoint)))
  }

  function Min(a: nat, b: nat): nat { if a < b then a else b }

  ghost function ForwardTick(l: Ledger, view: nat -> View, k: nat, c: Checkpoint, tip: Block, maxBlocks: nat): Outcome {
    var w := Walk(l, view, k, c.hash, c.height + 1, Min(tip.height, c.height + maxBlocks));
    Outcome(w.ledger, w.calls, w.recorded,
            match w.error
            case Some(e) => Err(e)
            case None => Ok(BlockResult(tip.height, |w.recorded|, None, w.ledger.checkpoint)))
  }

  ghost function Tick(l: Ledger, view: nat -> View, k: nat, limits: Limits): Outcome {
    match view(k).tip
    case None => Outcome(l, k + 1, [], Err(ProviderFailed))
    case Some(tip) =>
      match l.checkpoint
      case None => FirstTick(l, k + 1, tip)
      case Some(c) =>
        match view(k + 1).at(c.height)
        case None => Outcome(l, k + 2, [], Err(ProviderFailed))
        case Some(there) =>
          if there.hash != c.hash then RewindTick(l, view, k + 2, c, tip, limits.maxRewind)
          else ForwardTick(l, view, k + 2, c, tip, limits.maxBlocks)
  }

  lemma TickGoesForward(l: Ledger, view: nat -> View, k: nat, limits: Limits)
    requires view(k).tip.Some? && l.checkpoint.Some?
    requires var there := view(k + 1).at(l.checkpoint.value.height);
      there.Some? && there.value.hash == l.checkpoint.value.hash
    ensures Tick(l, view, k, limits)
         == ForwardTick(l, view, k + 2, l.checkpoint.value, view(k).tip.value, limits.maxBlocks)
  {
  }

  lemma TickGoesBack(l: Ledger, view: nat -> View, k: nat, limits: Limits)
    requires view(k).tip.Some? && l.checkpoint.Some?
    requires var there := view(k + 1).at(l.checkpoint.value.height);
      there.Some? && there.value.hash != l.checkpoint.value.hash
    ensures Tick(l, view, k, limits)
         == RewindTick(l, view, k + 2, l.checkpoint.value, view(k).tip.value, limits.maxRewind)
  {
  }

  /** Rows whose flag a tick cleared. */
  ghost predicate Cleared(before: map<string, BlockRow>, after: map<string, BlockRow>, hash: string) {
    hash in before && before[hash].canonical && hash in after && !after[hash].canonical
  }

  /** What a tick that does not throw reports of its rewind. */
  ghost predicate ReportsRewind(l: Ledger, m: Ledger, reorg: ReorgResult) {
    && reorg.ancestorHash in l.blocks
    && m.checkpoint == Some(Checkpoint(l.blocks[reorg.ancestorHash].height, reorg.ancestorHash))
    && reorg.flagged.blocks == |set hash | hash in l.blocks && Cleared(l.blocks, m.blocks, hash)|
    && reorg.flagged.events
       == |set id | id in l.events && l.events[id].canonical && id in m.events && !m.events[id].canonical|
    && reorg.flagged.activities
       == |set id | id in l.activities && l.activities[id].canonical
                    && id in m.activities && !m.activities[id].canonical|
  }

  /**
   * What a tick that does not throw reports is what it leaves: the checkpoint of the tables, the height of the tip
   * it was shown, the number of blocks it recorded, and how many flags its rewind cleared.
   */
  lemma TickReports(l: Ledger, view: nat -> View, k: nat, limits: Limits)
    requires Tick(l, view, k, limits).result.Ok?
    ensures var out := Tick(l, view, k, limits);
      var r := out.result.value;
      && r.checkpoint == out.ledger.checkpoint && r.checkpoint.Some?
      && view(k).tip.Some? && r.tipHeight == view(k).tip.value.height
      && r.blocks == |out.recorded|
      && (r.reorg.Some? ==> r.blocks == 0 && ReportsRewind(l, out.ledger, r.reorg.value))
  {
    if l.checkpoint.Some? {
      var c := l.checkpoint.value;
      if view(k + 1).at(c.height).value.hash == c.hash {
        TickGoesForward(l, view, k, limits);
        var last := Min(view(k).tip.value.height, c.height + limits.maxBlocks);
        WalkKeepsCheckpoint(l, view, k + 2, c.hash, c.height + 1, last);
      } else {
        TickGoesBack(l, view, k, limits);
        RewindReports(l, view, k + 2, view(k).tip.value, limits.maxRewind);
      }
    }
  }

  // ----- When the provider does not answer -----

  /** A walk ends for want of an answer exactly when its last call got none; it makes one call for each height. */
  lemma {:induction false} WalkFailsIff(l: Ledger, view: nat -> View, k: nat, parentHash: string, height: nat,
                                        last: nat)
    ensures var w := Walk(l, view, k, parentHash, height, last);
      && w.calls >= k
      && (w.error == Some(ProviderFailed) <==>
            w.calls > k && view(w.calls - 1).at(height + (w.calls - 1 - k)).None?)
    decreases last + 1 - height
  {
    if height <= last && view(k).at(height).Some? {
      var b := view(k).at(height).value;
      if b.parentHash == parentHash && BlockRecorded(l, b).Ok? {
        WalkFailsIff(BlockRecorded(l, b).value, view, k + 1, b.hash, height + 1, last);
      }
    }
  }

  /** The search saw the remote's block at this height, and it is another one than the stored one. */
  ghost predicate SeenOther(l: Ledger, view: nat -> View, k: nat, calls: nat, h: nat) {
    FoundAt(l, h).Some? ==>
      exists j: nat | k <= j < calls :: view(j).at(h).Some? && view(j).at(h).value.hash != FoundAt(l, h).value
  }

  /**
   * The search ends for want of an answer only when its last call got none, finds a block only when the remote shows
   * it at its height, and finds nothing only when the remote shows another block at every stored height it reaches.
   */
  lemma {:induction false} SearchAnswers(l: Ledger, view: nat -> View, k: nat, height: int, floor: int)
    ensures var s := SearchBack(l, view, k, height, floor);
      && s.calls >= k
      && (s.found == Err(ProviderFailed) ==>
            exists h: nat :: s.calls > k && floor < h <= height && FoundAt(l, h).Some? && view(s.calls - 1).at(h).None?)
      && (s.found.Ok? ==>
            exists h: nat :: s.calls > k && floor < h <= height && FoundAt(l, h) == Some(s.found.value)
              && view(s.calls - 1).at(h).Some? && view(s.calls - 1).at(h).value.hash == s.found.value)
      && (s.found == Err(NoCommonAncestor) ==>
            forall h: nat | floor < h <= height :: SeenOther(l, view, k, s.calls, h))
      && (s.found.Err? ==> s.found.error in {ProviderFailed, NoCommonAncestor})
    decreases height - floor
  {
    if height > floor && height >= 0 {
      var stored := FoundAt(l, height);
      if stored.None? {
        SearchAnswers(l, view, k, height - 1, floor);
      } else if view(k).at(height).Some? && view(k).at(height).value.hash != stored.value {
        SearchAnswers(l, view, k + 1, height - 1, floor);
        var s := SearchBack(l, view, k + 1, height - 1, floor);
        assert SeenOther(l, view, k, s.calls, height);
        forall h: nat | SeenOther(l, view, k + 1, s.calls, h) ensures SeenOther(l, view, k, s.calls, h) { }
      }
    }
  }

  lemma {:induction false} WalkKeepsCheckpoint(l: Ledger, view: nat -> View, k: nat, parentHash: string, height: nat,
                                               last: nat)
    requires l.checkpoint.Some?
    ensures Walk(l, view, k, parentHash, height, last).ledger.checkpoint.Some?
    decreases last + 1 - height
  {
    if height <= last && view(k).at(height).Some? {
      var b := view(k).at(height).value;
      if b.parentHash == parentHash && BlockRecorded(l, b).Ok? {
        WalkKeepsCheckpoint(BlockRecorded(l, b).value, view, k + 1, b.hash, height + 1, last);
      }
    }
  }

  lemma RewindReports(l: Ledger, view: nat -> View, k: nat, tip: Block, maxRewind: nat)
    requires l.checkpoint.Some? && RewindTick(l, view, k, l.checkpoint.value, tip, maxRewind).result.Ok?
    ensures var out := RewindTick(l, view, k, l.checkpoint.value, tip, maxRewind);
      var r := out.result.value;
      && r.reorg.Some? && r.checkpoint == out.ledger.checkpoint && r.tipHeight == tip.height
      && r.blocks == 0 == |out.recorded| && ReportsRewind(l, out.ledger, r.reorg.value)
  {
    var out := RewindTick(l, view, k, l.checkpoint.value, tip, maxRewind);
    RewindClears(l, out.result.value.reorg.value.ancestorHash);
  }

  /** The rows a rewind flags are those whose flag it clears. */
  lemma RewindClears(l: Ledger, hash: string)
    requires hash in l.blocks
    ensures var m := Rewound(l, hash);
      var orphans := Orphans(l, l.blocks[hash].height);
      && orphans == (set h | h in l.blocks && Cleared(l.blocks, m.blocks, h))
      && OrphanedEvents(l, orphans)
         == (set id | id in l.events && l.events[id].canonical && id in m.events && !m.events[id].canonical)
      && OrphanedActivities(l, orphans)
         == (set id | id in l.activities && l.activities[id].canonical && id in m.activities
               && !m.activities[id].canonical)
  {
  }

  // ----- The tick as the worker runs it -----

  /** The remote node: each call is answered from the next view. */
  class Provider {
    const view: nat -> View
    var calls: nat

    constructor (view: nat -> View)
      ensures this.view == view && calls == 0
    {
      this.view, calls := view, 0;
    }

    method LatestBlock() returns (answer: Option<Block>)
      modifies this
      ensures calls == old(calls) + 1 && answer == view(old(calls)).tip
    {
      answer := view(calls).tip;
      calls := calls + 1;
    }

    method BlockAt(height: nat) returns (answer: Option<Block>)
      modifies this
      ensures calls == old(calls) + 1 && answer == view(old(calls)).at(height)
    {
      answer := view(calls).at(height);
      calls := calls + 1;
    }
  }

  /** The query and the function agree when at most one block per height is canonical. */
  lemma FoundIsUnique(l: Ledger, height: nat, found: Option<string>)
    requires OnePerHeight(l)
    requires found.Some? ==> CanonicalAt(l, found.value, height)
    requires found.None? ==> !HeightTaken(l, height)
    ensures found == FoundAt(l, height)
  {
  }

  /** The partial unique index on canonical blocks. */
  ghost predicate OnePerHeight(l: Ledger) {
    forall h1, h2 | h1 in l.blocks && h2 in l.blocks && l.blocks[h1].canonical && l.blocks[h2].canonical
      && l.blocks[h1].height == l.blocks[h2].height :: h1 == h2
  }

  method FindCommonAncestor(store: EvidenceStore, hiro: Provider, fromHeight: nat, maxRewind: nat)
    returns (found: Result<string, TickError>)
    requires OnePerHeight(store.Contents())
    modifies hiro
    ensures Search(hiro.calls, found)
         == SearchBack(store.Contents(), hiro.view, old(hiro.calls), fromHeight - 1, fromHeight - 1 - maxRewind)
  {
    var floor := fromHeight - 1 - maxRewind;
    var height: int := fromHeight - 1;
    while height > floor && height >= 0
      invariant height <= fromHeight - 1
      invariant SearchBack(store.Contents(), hiro.view, old(hiro.calls), fromHeight - 1, floor)
             == SearchBack(store.Contents(), hiro.view, hiro.calls, height, floor)
      decreases height - floor
    {
      var stored := store.FindCanonicalBlock(height);
      FoundIsUnique(store.Contents(), height, stored);
      if stored.Some? {
        var chainBlock := hiro.BlockAt(height);
        if chainBlock.None? { return Err(ProviderFailed); }
        if chainBlock.value.hash == stored.value { return Ok(stored.value); }
      }
      height := height - 1;
    }
    found := Err(NoCommonAncestor);
  }

  /** A walk that goes on after blocks already recorded. */
  ghost function After(recorded: seq<Block>, rest: Walked): Walked {
    rest.(recorded := recorded + rest.recorded)
  }

  /** What one block of a walk leaves behind, from the provider's answer. */
  ghost function Advance(l: Ledger, answer: Option<Block>, parentHash: string)
    : (Ledger, Result<Option<Block>, TickError>)
  {
    match answer
    case None => (l, Err(ProviderFailed))
    case Some(b) =>
      if b.parentHash != parentHash then (l, Ok(None))
      else match BlockRecorded(l, b)
      case Err(e) => (l, Err(StoreFailed(e)))
      case Ok(stored) => (stored, Ok(Some(b)))
  }

  lemma WalkOn(l: Ledger, view: nat -> View, k: nat, parentHash: string, height: nat, last: nat, recorded: seq<Block>)
    requires height <= last
    ensures var (m, next) := Advance(l, view(k).at(height), parentHash);
      After(recorded, Walk(l, view, k, parentHash, height, last))
        == match next
           case Err(e) => Walked(m, k + 1, recorded, Some(e))
           case Ok(None) => Walked(m, k + 1, recorded, None)
           case Ok(Some(b)) => After(recorded + [b], Walk(m, view, k + 1, b.hash, height + 1, last))
  {
    var (m, next) := Advance(l, view(k).at(height), parentHash);
    if next.Ok? && next.value.Some? {
      var b := next.value.value;
      Lists.AppendThen(recorded, b, Walk(m, view, k + 1, b.hash, height + 1, last).recorded);
    } else {
      assert recorded + [] == recorded;
    }
  }

  lemma WalkRecords(l: Ledger, view: nat -> View, k: nat, parentHash: string, height: nat, last: nat,
                    recorded: seq<Block>, m: Ledger, b: Block)
    requires height <= last && Advance(l, view(k).at(height), parentHash) == (m, Ok(Some(b)))
    ensures After(recorded, Walk(l, view, k, parentHash, height, last))
         == After(recorded + [b], Walk(m, view, k + 1, b.hash, height + 1, last))
  {
    WalkOn(l, view, k, parentHash, height, last, recorded);
  }

  /** One block of the walk: recorded, or absent when the remote's block does not continue the stored chain. */
  method RecordNext(store: EvidenceStore, hiro: Provider, parentHash: string, height: nat)
    returns (r: Result<Option<Block>, TickError>)
    modifies store, hiro
    ensures hiro.calls == old(hiro.calls) + 1
    ensures (store.Contents(), r)
         == Advance(old(store.Contents()), hiro.view(old(hiro.calls)).at(height), parentHash)
  {
    var block := hiro.BlockAt(height);
    if block.None? { return Err(ProviderFailed); }
    // The remote changed chains while the walk was under way.
    if block.value.parentHash != parentHash { return Ok(None); }
    var stored := store.RecordBlock(block.value);
    r := if stored.Err? then Err(StoreFailed(stored.error)) else Ok(Some(block.value));
  }

  method WalkForward(store: EvidenceStore, hiro: Provider, from: string, first: nat, last: nat)
    returns (error: Option<TickError>, blocks: nat, ghost recorded: seq<Block>)
    requires OnePerHeight(store.Contents())
    modifies store, hiro
    ensures Walked(store.Contents(), hiro.calls, recorded, error)
         == Walk(old(store.Contents()), hiro.view, old(hiro.calls), from, first, last)
    ensures blocks == |recorded|
  {
    var parentHash := from;
    blocks, recorded, error := 0, [], None;
    var height := first;
    ghost var whole := Walk(store.Contents(), hiro.view, hiro.calls, parentHash, height, last);
    assert recorded + whole.recorded == whole.recorded;
    while height <= last
      invariant blocks == |recorded|
      invariant whole == After(recorded, Walk(store.Contents(), hiro.view, hiro.calls, parentHash, height, last))
      decreases last + 1 - height
    {
      ghost var l, k := store.Contents(), hiro.calls;
      var next := RecordNext(store, hiro, parentHash, height);
      if next.Err? {
        WalkOn(l, hiro.view, k, parentHash, height, last, recorded);
        return Some(next.error), blocks, recorded;
      }
      if next.value.None? {
        WalkOn(l, hiro.view, k, parentHash, height, last, recorded);
        return;
      }
      WalkRecords(l, hiro.view, k, parentHash, height, last, recorded, store.Contents(), next.value.value);
      recorded := recorded + [next.value.value];
      parentHash := next.value.value.hash;
      blocks := blocks + 1;
      height := height + 1;
    }
  }

  method RewindToAncestor(store: EvidenceStore, hiro: Provider, c: Checkpoint, tip: Block, maxRewind: nat)
    returns (r: Result<BlockResult, TickError>)
    requires OnePerHeight(store.Contents())
    modifies store, hiro
    ensures Outcome(store.Contents(), hiro.calls, [], r)
         == RewindTick(old(store.Contents()), hiro.view, old(hiro.calls), c, tip, maxRewind)
  {
    var ancestor := FindCommonAncestor(store, hiro, c.height, maxRewind);
    if ancestor.Err? { return Err(ancestor.error); }
    var marked := store.MarkReorg(ancestor.value);
    if marked.Err? { return Err(StoreFailed(marked.error)); }
    var reorg := ReorgResult(ancestor.value, marked.value);
    r := Ok(BlockResult(tip.height, 0, Some(reorg), store.checkpoint));
  }

  method IngestBlocks(store: EvidenceStore, hiro: Provider, limits: Limits)
    returns (r: Result<BlockResult, TickError>, ghost recorded: seq<Block>)
    requires OnePerHeight(store.Contents())
    modifies store, hiro
    ensures Outcome(store.Contents(), hiro.calls, recorded, r)
         == Tick(old(store.Contents()), hiro.view, old(hiro.calls), limits)
  {
    recorded := [];
    var tip := hiro.LatestBlock();
    if tip.None? { return Err(ProviderFailed), []; }
    var checkpoint := store.checkpoint;
    if checkpoint.None? {
      var stored := store.RecordBlock(tip.value);
      if stored.Err? { return Err(StoreFailed(stored.error)), []; }
      var at := Checkpoint(tip.value.height, tip.value.hash);
      return Ok(BlockResult(tip.value.height, 1, None, Some(at))), [tip.value];
    }

    var c := checkpoint.value;
    var atCheckpoint := hiro.BlockAt(c.height);
    if atCheckpoint.None? { return Err(ProviderFailed), []; }
    if atCheckpoint.value.hash != c.hash {
      r := RewindToAncestor(store, hiro, c, tip.value, limits.maxRewind);
      return;
    }

    var last := Min(tip.value.height, c.height + limits.maxBlocks);
    var error, blocks;
    error, blocks, recorded := WalkForward(store, hiro, c.hash, c.height + 1, last);
    if error.Some? { return Err(error.value), recorded; }
    r := Ok(BlockResult(tip.value.height, blocks, None, store.checkpoint));
  }
}
