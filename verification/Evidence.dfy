/**
 * The chain evidence tables and the statements that change them.
 *
 * Rows are keyed as the tables are: blocks by hash, events and activities by id. A row is never
 * deleted and only its `canonical` flag may change. The partial unique index allows one canonical
 * block per height. Chain and network are fixed, so those columns are left out, and so are the
 * columns no statement reads back (source, payload, observation time).
 */
module Evidence {
  import opened Wrappers

  datatype Block = Block(height: nat, hash: string, parentHash: string)
  datatype BlockRow = BlockRow(height: nat, parentHash: string, canonical: bool)
  datatype EventRow = EventRow(blockHash: string, canonical: bool)
  datatype ActivityRow = ActivityRow(rawEventId: string, kind: string, blockHash: string, canonical: bool)
  datatype Checkpoint = Checkpoint(height: nat, hash: string)

  datatype Ledger = Ledger(
    blocks: map<string, BlockRow>,
    events: map<string, EventRow>,
    activities: map<string, ActivityRow>,
    checkpoint: Option<Checkpoint>)

  datatype StoreError = SlotTaken | UnknownAncestor | DuplicateActivity

  /** How many rows a rewind flagged. */
  datatype Flagged = Flagged(blocks: nat, events: nat, activities: nat)

  const EMPTY := Ledger(map[], map[], map[], None)

  // ----- What each statement does, as functions on the tables -----

  predicate CanonicalAt(l: Ledger, hash: string, height: nat) {
    hash in l.blocks && l.blocks[hash].canonical && l.blocks[hash].height == height
  }

  ghost predicate HeightTaken(l: Ledger, height: nat) {
    exists hash :: CanonicalAt(l, hash, height)
  }

  /** The canonical block at a height, when there is one. */
  ghost function FoundAt(l: Ledger, height: nat): Option<string> {
    if HeightTaken(l, height) then
      var hash :| CanonicalAt(l, hash, height);
      Some(hash)
    else None
  }

  /** Insert with `ON CONFLICT (hash) DO NOTHING`, under the one-canonical-block-per-height index. */
  ghost function BlockInserted(l: Ledger, b: Block): Result<Ledger, StoreError> {
    if b.hash in l.blocks then Ok(l)
    else if HeightTaken(l, b.height) then Err(SlotTaken)
    else Ok(l.(blocks := l.blocks[b.hash := BlockRow(b.height, b.parentHash, true)]))
  }

  /** A block and the checkpoint, in one transaction. */
  ghost function BlockRecorded(l: Ledger, b: Block): Result<Ledger, StoreError> {
    match BlockInserted(l, b)
    case Ok(stored) => Ok(stored.(checkpoint := Some(Checkpoint(b.height, b.hash))))
    case Err(error) => Err(error)
  }

  function Orphans(l: Ledger, top: nat): set<string> {
    set hash | hash in l.blocks && l.blocks[hash].canonical && l.blocks[hash].height > top
  }

  function OrphanedEvents(l: Ledger, orphans: set<string>): set<string> {
    set id | id in l.events && l.events[id].canonical && l.events[id].blockHash in orphans
  }

  function OrphanedActivities(l: Ledger, orphans: set<string>): set<string> {
    set id | id in l.activities && l.activities[id].canonical && l.activities[id].blockHash in orphans
  }

  /** Everything above the ancestor loses its canonical flag and the checkpoint moves back to it. */
  function Rewound(l: Ledger, ancestorHash: string): Ledger
    requires ancestorHash in l.blocks
  {
    var top := l.blocks[ancestorHash].height;
    var orphans := Orphans(l, top);
    var events := OrphanedEvents(l, orphans);
    var activities := OrphanedActivities(l, orphans);
    Ledger(
      map hash | hash in l.blocks ::
        if hash in orphans then l.blocks[hash].(canonical := false) else l.blocks[hash],
      map id | id in l.events ::
        if id in events then l.events[id].(canonical := false) else l.events[id],
      map id | id in l.activities ::
        if id in activities then l.activities[id].(canonical := false) else l.activities[id],
      if l.checkpoint.Some? then Some(Checkpoint(top, ancestorHash)) else None)
  }

  ghost function ReorgMarked(l: Ledger, ancestorHash: string): Result<Ledger, StoreError> {
    if ancestorHash in l.blocks then Ok(Rewound(l, ancestorHash)) else Err(UnknownAncestor)
  }

  /** A statement sequence that is not one transaction: what it left behind, and whether it threw. */
  datatype Stored = Stored(ledger: Ledger, error: Option<StoreError>)

  predicate ActivityExists(l: Ledger, rawEventId: string, kind: string) {
    exists id | id in l.activities :: l.activities[id].rawEventId == rawEventId && l.activities[id].kind == kind
  }

  /** What one contract log leaves behind: its block, the raw event, and the activity read from it. */
  ghost function LogStored(l: Ledger, b: Block, eventId: string, kind: string): Stored {
    if eventId in l.events then Stored(l, None)
    else match BlockInserted(l, b)
    case Err(error) => Stored(l, Some(error))
    case Ok(evidence) =>
      var withEvent := evidence.(events := evidence.events[eventId := EventRow(b.hash, true)]);
      var id := "act_" + eventId;
      if ActivityExists(l, eventId, kind) then Stored(withEvent, None)
      else if id in l.activities then Stored(withEvent, Some(DuplicateActivity))
      else
        var row := ActivityRow(eventId, kind, b.hash, true);
        Stored(withEvent.(activities := withEvent.activities[id := row]), None)
  }

  /** The tables, changed in place by each statement. */
  class EvidenceStore {
    var blocks: map<string, BlockRow>
    var events: map<string, EventRow>
    var activities: map<string, ActivityRow>
    var checkpoint: Option<Checkpoint>

    constructor ()
      ensures Contents() == EMPTY
    {
      blocks, events, activities, checkpoint := map[], map[], map[], None;
    }

    function Contents(): Ledger
      reads this
    {
      Ledger(blocks, events, activities, checkpoint)
    }

    method FindCanonicalBlock(height: nat) returns (found: Option<string>)
      ensures found.Some? ==> CanonicalAt(Contents(), found.value, height)
      ensures found.None? ==> !HeightTaken(Contents(), height)
    {
      if hash :| hash in blocks && CanonicalAt(Contents(), hash, height) {
        found := Some(hash);
      } else {
        assert forall hash :: CanonicalAt(Contents(), hash, height) ==> hash in blocks;
        found := None;
      }
    }

    method InsertBlock(b: Block) returns (r: Result<bool, StoreError>)
      modifies this`blocks
      ensures match BlockInserted(old(Contents()), b)
              case Ok(l) => Contents() == l && r == Ok(b.hash !in old(blocks))
              case Err(e) => Contents() == old(Contents()) && r == Err(e)
    {
      if b.hash in blocks { return Ok(false); }
      var taken := FindCanonicalBlock(b.height);
      if taken.Some? { return Err(SlotTaken); }
      blocks := blocks[b.hash := BlockRow(b.height, b.parentHash, true)];
      r := Ok(true);
    }

    method RecordBlock(b: Block) returns (r: Result<bool, StoreError>)
      modifies this`blocks, this`checkpoint
      ensures match BlockRecorded(old(Contents()), b)
              case Ok(l) => Contents() == l && r == Ok(b.hash !in old(blocks))
              case Err(e) => Contents() == old(Contents()) && r == Err(e)
    {
      r := InsertBlock(b);
      if r.Ok? {
        checkpoint := Some(Checkpoint(b.height, b.hash));
      }
    }

    method MarkReorg(ancestorHash: string) returns (r: Result<Flagged, StoreError>)
      modifies this
      ensures match ReorgMarked(old(Contents()), ancestorHash)
              case Ok(l) =>
                && Contents() == l
                && var orphans := Orphans(old(Contents()), old(blocks)[ancestorHash].height);
                  r == Ok(Flagged(|orphans|, |OrphanedEvents(old(Contents()), orphans)|,
                                  |OrphanedActivities(old(Contents()), orphans)|))
              case Err(e) => Contents() == old(Contents()) && r == Err(e)
    {
      if ancestorHash !in blocks { return Err(UnknownAncestor); }
      var before := Contents();
      var top := blocks[ancestorHash].height;
      var orphans := Orphans(before, top);
      if checkpoint.Some? {
        checkpoint := Some(Checkpoint(top, ancestorHash));
      }
      var staleActivities := OrphanedActivities(before, orphans);
      var staleEvents := OrphanedEvents(before, orphans);
      if orphans == {} {
        assert staleActivities == {} && staleEvents == {};
        assert Contents() == Rewound(before, ancestorHash);
        return Ok(Flagged(0, 0, 0));
      }
      activities := map id | id in activities ::
        if id in staleActivities then activities[id].(canonical := false) else activities[id];
      events := map id | id in events ::
        if id in staleEvents then events[id].(canonical := false) else events[id];
      blocks := map hash | hash in blocks ::
        if hash in orphans then blocks[hash].(canonical := false) else blocks[hash];
      r := Ok(Flagged(|orphans|, |staleEvents|, |staleActivities|));
    }

    method StoreLog(b: Block, eventId: string, kind: string) returns (error: Option<StoreError>)
      modifies this
      ensures Stored(Contents(), error) == LogStored(old(Contents()), b, eventId, kind)
    {
      if eventId in events { return None; }
      var inserted := InsertBlock(b);
      if inserted.Err? { return Some(inserted.error); }
      events := events[eventId := EventRow(b.hash, true)];
      var id := "act_" + eventId;
      if ActivityExists(Contents(), eventId, kind) { return None; }
      if id in activities { return Some(DuplicateActivity); }
      activities := activities[id := ActivityRow(eventId, kind, b.hash, true)];
      error := None;
    }
  }
}
