/**
 * What every run of ticks keeps.
 *
 * A block's hash fixes its header: `hdr` is the header behind each hash. Nothing else is assumed of
 * the remote, which may answer every call from a different chain.
 */
module Lineage {
  import opened Wrappers
  import opened Evidence
  import opened Ingest
  import Lists

  datatype Header = Header(height: nat, parentHash: string)

  /** The block `back` steps up the parent links. */
  ghost function Ancestor(hdr: string -> Header, hash: string, back: nat): string
    decreases back
  {
    if back == 0 then hash else Ancestor(hdr, hdr(hash).parentHash, back - 1)
  }

  lemma {:induction false} AncestorThen(hdr: string -> Header, hash: string, m: nat, n: nat)
    ensures Ancestor(hdr, Ancestor(hdr, hash, m), n) == Ancestor(hdr, hash, m + n)
    decreases m
  {
    if m > 0 {
      AncestorThen(hdr, hdr(hash).parentHash, m - 1, n);
    }
  }

  /** The answer is a block at the height asked for, with the header its hash names. */
  ghost predicate Named(hdr: string -> Header, b: Block) {
    hdr(b.hash) == Header(b.height, b.parentHash)
  }

  ghost predicate Honest(hdr: string -> Header, v: View) {
    && (v.tip.Some? ==> Named(hdr, v.tip.value))
    && forall h: nat :: v.at(h).Some? ==> v.at(h).value.height == h && Named(hdr, v.at(h).value)
  }

  ghost predicate HonestRun(hdr: string -> Header, view: nat -> View) {
    forall k: nat :: Honest(hdr, view(k))
  }

  // ----- Invariants of the tables -----

  /** Rows carry the headers their hashes name. */
  ghost predicate Headed(hdr: string -> Header, l: Ledger) {
    forall h | h in l.blocks :: hdr(h) == Header(l.blocks[h].height, l.blocks[h].parentHash)
  }

  /** Rows carry their headers, and every reference points at a stored row: the foreign keys. */
  ghost predicate Matches(hdr: string -> Header, l: Ledger) {
    && Headed(hdr, l)
    && (forall id | id in l.events :: l.events[id].blockHash in l.blocks)
    && (forall id | id in l.activities :: l.activities[id].blockHash in l.blocks)
    && (forall id | id in l.activities :: l.activities[id].rawEventId in l.events)
    && (l.checkpoint.Some? ==>
          && l.checkpoint.value.hash in l.blocks
          && l.blocks[l.checkpoint.value.hash].height == l.checkpoint.value.height)
  }

  /** No canonical event or activity sits in an orphaned block. */
  ghost predicate EvidenceCanonical(l: Ledger) {
    && (forall id | id in l.events && l.events[id].canonical ::
          l.events[id].blockHash in l.blocks && l.blocks[l.events[id].blockHash].canonical)
    && (forall id | id in l.activities && l.activities[id].canonical ::
          l.activities[id].blockHash in l.blocks && l.blocks[l.activities[id].blockHash].canonical)
  }

  /** Every canonical block is the checkpoint or one of its ancestors, at its own height. */
  ghost predicate Tracked(hdr: string -> Header, l: Ledger) {
    forall h | h in l.blocks && l.blocks[h].canonical ::
      && l.checkpoint.Some?
      && l.blocks[h].height <= l.checkpoint.value.height
      && h == Ancestor(hdr, l.checkpoint.value.hash, l.checkpoint.value.height - l.blocks[h].height)
  }

  /** The chain block at `height` on the way down from the checkpoint. */
  ghost function Link(hdr: string -> Header, c: Checkpoint, height: nat): string
    requires height <= c.height
  {
    Ancestor(hdr, c.hash, c.height - height)
  }

  /** From `base` up to the checkpoint, every ancestor of the checkpoint is stored and canonical. */
  ghost predicate Whole(hdr: string -> Header, l: Ledger, base: nat) {
    && l.checkpoint.Some?
    && base <= l.checkpoint.value.height
    && forall i: nat | base <= i <= l.checkpoint.value.height ::
         CanonicalAt(l, Link(hdr, l.checkpoint.value, i), i)
  }

  /** Some ancestor of the checkpoint inside the window is stored as orphaned. */
  ghost predicate Broken(hdr: string -> Header, l: Ledger, base: nat) {
    && l.checkpoint.Some?
    && exists i: nat :: base <= i <= l.checkpoint.value.height
         && Orphaned(l, Link(hdr, l.checkpoint.value, i))
  }

  predicate Orphaned(l: Ledger, hash: string) {
    hash in l.blocks && !l.blocks[hash].canonical
  }

  /** Evidence is only ever added or flagged; a flag never comes back. */
  ghost predicate Grows(l: Ledger, m: Ledger) {
    && (forall h | h in l.blocks :: h in m.blocks
          && m.blocks[h] == l.blocks[h].(canonical := m.blocks[h].canonical)
          && (m.blocks[h].canonical ==> l.blocks[h].canonical))
    && (forall id | id in l.events :: id in m.events
          && m.events[id] == l.events[id].(canonical := m.events[id].canonical)
          && (m.events[id].canonical ==> l.events[id].canonical))
    && (forall id | id in l.activities :: id in m.activities
          && m.activities[id] == l.activities[id].(canonical := m.activities[id].canonical)
          && (m.activities[id].canonical ==> l.activities[id].canonical))
  }

  /** The invariant every statement keeps, whatever the remote does. */
  ghost predicate Sound(hdr: string -> Header, l: Ledger) {
    Matches(hdr, l) && OnePerHeight(l)
  }

  // ----- One block, one rewind, one log -----

  lemma InsertKeeps(hdr: string -> Header, l: Ledger, b: Block)
    requires Sound(hdr, l) && Named(hdr, b)
    requires BlockInserted(l, b).Ok?
    ensures var m := BlockInserted(l, b).value;
      && Sound(hdr, m) && Grows(l, m) && b.hash in m.blocks && m.blocks[b.hash].height == b.height
      && m.events == l.events && m.activities == l.activities && m.checkpoint == l.checkpoint
  {
    var m := BlockInserted(l, b).value;
    if b.hash !in l.blocks {
      assert forall h | h in l.blocks && l.blocks[h].canonical :: CanonicalAt(l, h, l.blocks[h].height);
    }
  }

  lemma RecordKeeps(hdr: string -> Header, l: Ledger, b: Block)
    requires Sound(hdr, l) && Named(hdr, b)
    requires BlockRecorded(l, b).Ok?
    ensures Sound(hdr, BlockRecorded(l, b).value) && Grows(l, BlockRecorded(l, b).value)
  {
    InsertKeeps(hdr, l, b);
  }

  lemma RecordEvidence(l: Ledger, b: Block)
    requires EvidenceCanonical(l) && BlockRecorded(l, b).Ok?
    ensures EvidenceCanonical(BlockRecorded(l, b).value)
  {
    var m := BlockRecorded(l, b).value;
    assert forall h | h in l.blocks :: h in m.blocks && m.blocks[h] == l.blocks[h];
  }

  lemma RewindGrows(l: Ledger, hash: string)
    requires hash in l.blocks
    ensures Grows(l, Rewound(l, hash))
  {
  }

  /** Flagging rows keeps the tables sound when the checkpoint still names a stored row. */
  lemma FlaggingSound(hdr: string -> Header, l: Ledger, m: Ledger)
    requires Sound(hdr, l) && Grows(l, m)
    requires m.blocks.Keys == l.blocks.Keys && m.events.Keys == l.events.Keys && m.activities.Keys == l.activities.Keys
    requires m.checkpoint.Some? ==>
      && m.checkpoint.value.hash in m.blocks
      && m.blocks[m.checkpoint.value.hash].height == m.checkpoint.value.height
    ensures Sound(hdr, m)
  {
    assert forall h | h in m.blocks :: h in l.blocks && m.blocks[h] == l.blocks[h].(canonical := m.blocks[h].canonical);
  }

  lemma RewindSound(hdr: string -> Header, l: Ledger, hash: string)
    requires Sound(hdr, l) && hash in l.blocks
    ensures Sound(hdr, Rewound(l, hash))
  {
    RewindGrows(l, hash);
    FlaggingSound(hdr, l, Rewound(l, hash));
  }

  lemma RewindEvidence(l: Ledger, hash: string)
    requires EvidenceCanonical(l) && hash in l.blocks
    ensures EvidenceCanonical(Rewound(l, hash))
  {
    var m := Rewound(l, hash);
    var orphans := Orphans(l, l.blocks[hash].height);
    assert forall h | h in l.blocks && h !in orphans :: m.blocks[h] == l.blocks[h];
    assert forall id | id in m.events && m.events[id].canonical :: l.events[id].blockHash !in orphans;
    assert forall id | id in m.activities && m.activities[id].canonical :: l.activities[id].blockHash !in orphans;
  }

  lemma RewindKeeps(hdr: string -> Header, l: Ledger, hash: string)
    requires Sound(hdr, l) && hash in l.blocks
    ensures Sound(hdr, Rewound(l, hash)) && Grows(l, Rewound(l, hash))
    ensures EvidenceCanonical(l) ==> EvidenceCanonical(Rewound(l, hash))
  {
    RewindSound(hdr, l, hash);
    RewindGrows(l, hash);
    if EvidenceCanonical(l) { RewindEvidence(l, hash); }
  }

  /** The link below a block that continues the checkpoint is the checkpoint's own link. */
  lemma LinkContinues(hdr: string -> Header, c: Checkpoint, b: Block, i: nat)
    requires Named(hdr, b) && b.parentHash == c.hash && b.height == c.height + 1 && i <= c.height
    ensures Link(hdr, Checkpoint(b.height, b.hash), i) == Link(hdr, c, i)
  {
  }

  lemma RecordTracks(hdr: string -> Header, l: Ledger, b: Block)
    requires Sound(hdr, l) && Tracked(hdr, l) && Named(hdr, b)
    requires l.checkpoint.Some? ==> b.parentHash == l.checkpoint.value.hash && b.height == l.checkpoint.value.height + 1
    requires BlockRecorded(l, b).Ok?
    ensures Tracked(hdr, BlockRecorded(l, b).value)
  {
    var m := BlockRecorded(l, b).value;
    forall h | h in m.blocks && m.blocks[h].canonical
      ensures m.blocks[h].height <= b.height
           && h == Ancestor(hdr, b.hash, b.height - m.blocks[h].height)
    {
      if h != b.hash || h in l.blocks {
        LinkContinues(hdr, l.checkpoint.value, b, m.blocks[h].height);
      }
    }
  }

  lemma RewindTracks(hdr: string -> Header, l: Ledger, hash: string)
    requires Sound(hdr, l) && Tracked(hdr, l) && hash in l.blocks && l.blocks[hash].canonical
    ensures Tracked(hdr, Rewound(l, hash))
  {
    var m := Rewound(l, hash);
    var c, a := l.checkpoint.value, m.checkpoint.value;
    forall h | h in m.blocks && m.blocks[h].canonical
      ensures m.blocks[h].height <= a.height && h == Ancestor(hdr, a.hash, a.height - m.blocks[h].height)
    {
      AncestorThen(hdr, c.hash, c.height - a.height, a.height - m.blocks[h].height);
    }
  }

  /** Recording a block that continues a whole chain keeps it whole exactly when the block is not an orphan. */
  lemma RecordWholeIff(hdr: string -> Header, l: Ledger, b: Block, base: nat)
    requires Headed(hdr, l) && Whole(hdr, l, base) && Named(hdr, b)
    requires b.parentHash == l.checkpoint.value.hash && b.height == l.checkpoint.value.height + 1
    requires BlockRecorded(l, b).Ok?
    ensures Whole(hdr, BlockRecorded(l, b).value, base) <==> !Orphaned(l, b.hash)
    ensures Orphaned(l, b.hash) ==> Broken(hdr, BlockRecorded(l, b).value, base)
  {
    var m := BlockRecorded(l, b).value;
    var c := m.checkpoint.value;
    assert Link(hdr, c, b.height) == b.hash;
    forall i: nat | base <= i <= l.checkpoint.value.height
      ensures CanonicalAt(m, Link(hdr, c, i), i)
    {
      LinkContinues(hdr, l.checkpoint.value, b, i);
      assert CanonicalAt(l, Link(hdr, l.checkpoint.value, i), i);
    }
  }

  /** A hole in the chain is never filled by walking on. */
  lemma RecordStaysBroken(hdr: string -> Header, l: Ledger, b: Block, base: nat)
    requires Broken(hdr, l, base) && Named(hdr, b)
    requires b.parentHash == l.checkpoint.value.hash && b.height == l.checkpoint.value.height + 1
    requires BlockRecorded(l, b).Ok?
    ensures Broken(hdr, BlockRecorded(l, b).value, base)
  {
    var i: nat :| base <= i <= l.checkpoint.value.height && Orphaned(l, Link(hdr, l.checkpoint.value, i));
    LinkContinues(hdr, l.checkpoint.value, b, i);
    var m := BlockRecorded(l, b).value;
    assert Orphaned(m, Link(hdr, m.checkpoint.value, i));
  }

  lemma BrokenNotWhole(hdr: string -> Header, l: Ledger, base: nat)
    requires Broken(hdr, l, base)
    ensures !Whole(hdr, l, base)
  {
    var i: nat :| base <= i <= l.checkpoint.value.height && Orphaned(l, Link(hdr, l.checkpoint.value, i));
    assert !CanonicalAt(l, Link(hdr, l.checkpoint.value, i), i);
  }

  /** A rewind to a canonical block keeps a whole chain whole, from the ancestor itself if it lies below the window. */
  lemma RewindWhole(hdr: string -> Header, l: Ledger, hash: string, base: nat)
    requires Sound(hdr, l) && Whole(hdr, l, base)
    requires hash in l.blocks && l.blocks[hash].canonical && l.blocks[hash].height <= l.checkpoint.value.height
    ensures Whole(hdr, Rewound(l, hash), Min(base, l.blocks[hash].height))
  {
    var m := Rewound(l, hash);
    var c, a := l.checkpoint.value, m.checkpoint.value;
    var from := Min(base, a.height);
    forall i: nat | from <= i <= a.height
      ensures CanonicalAt(m, Link(hdr, a, i), i)
    {
      if a.height < base {
        assert i == a.height;
      } else {
        assert CanonicalAt(l, Link(hdr, c, a.height), a.height);
        assert Link(hdr, c, a.height) == hash;
        AncestorThen(hdr, c.hash, c.height - a.height, a.height - i);
        assert CanonicalAt(l, Link(hdr, c, i), i);
      }
    }
  }

  // ----- A tick -----

  /** A block the store accepts on top of its checkpoint. */
  ghost predicate Extends(hdr: string -> Header, l: Ledger, b: Block) {
    && Named(hdr, b)
    && l.checkpoint.Some?
    && b.parentHash == l.checkpoint.value.hash
    && b.height == l.checkpoint.value.height + 1
    && BlockRecorded(l, b).Ok?
  }

  /** Where a walk may start: at the block after the checkpoint. */
  ghost predicate Next(l: Ledger, parentHash: string, height: nat) {
    l.checkpoint.Some? && parentHash == l.checkpoint.value.hash && height == l.checkpoint.value.height + 1
  }

  /** What every accepted block keeps, of the tables and the blocks recorded so far, a walk keeps. */
  lemma {:induction false} WalkInvariant(hdr: string -> Header, inv: (Ledger, seq<Block>) -> bool, l: Ledger,
                                         done: seq<Block>, view: nat -> View, k: nat, parentHash: string,
                                         height: nat, last: nat)
    requires HonestRun(hdr, view) && inv(l, done) && Next(l, parentHash, height)
    requires forall m, rec, b | inv(m, rec) && Extends(hdr, m, b) :: inv(BlockRecorded(m, b).value, rec + [b])
    ensures var w := Walk(l, view, k, parentHash, height, last);
      inv(w.ledger, done + w.recorded)
    decreases last + 1 - height
  {
    assert Honest(hdr, view(k));
    var w := Walk(l, view, k, parentHash, height, last);
    if height <= last && view(k).at(height).Some? {
      var b := view(k).at(height).value;
      if b.parentHash == parentHash && BlockRecorded(l, b).Ok? {
        assert Extends(hdr, l, b);
        var m := BlockRecorded(l, b).value;
        WalkInvariant(hdr, inv, m, done + [b], view, k + 1, b.hash, height + 1, last);
        Lists.AppendThen(done, b, Walk(m, view, k + 1, b.hash, height + 1, last).recorded);
        return;
      }
    }
    assert done + w.recorded == done;
  }

  /** A rewind goes to a stored canonical block below the checkpoint. */
  ghost predicate Below(l: Ledger, hash: string) {
    && hash in l.blocks && l.blocks[hash].canonical
    && l.checkpoint.Some? && l.blocks[hash].height < l.checkpoint.value.height
  }

  /**
   * What holds after a tick: what its walk keeps at every accepted block, or what holds after the
   * first block, after the rewind, or when nothing changed.
   */
  lemma TickInvariant(hdr: string -> Header, inv: (Ledger, seq<Block>) -> bool, post: (Ledger, seq<Block>) -> bool,
                      l: Ledger, view: nat -> View, k: nat, limits: Limits)
    requires HonestRun(hdr, view) && inv(l, []) && post(l, [])
    requires forall m, rec, b | inv(m, rec) && Extends(hdr, m, b) :: inv(BlockRecorded(m, b).value, rec + [b])
    requires forall m, rec | inv(m, rec) :: post(m, rec)
    requires forall b | l.checkpoint.None? && Named(hdr, b) && BlockRecorded(l, b).Ok? ::
               post(BlockRecorded(l, b).value, [b])
    requires forall h | Below(l, h) :: post(Rewound(l, h), [])
    ensures var out := Tick(l, view, k, limits); post(out.ledger, out.recorded)
  {
    assert Honest(hdr, view(k));
    if view(k).tip.Some? && l.checkpoint.Some? {
      var c, tip := l.checkpoint.value, view(k).tip.value;
      if view(k + 1).at(c.height).Some? {
        if view(k + 1).at(c.height).value.hash != c.hash {
          TickGoesBack(l, view, k, limits);
          RewindTickInvariant(post, l, view, k + 2, tip, limits.maxRewind);
        } else {
          TickGoesForward(l, view, k, limits);
          ForwardTickInvariant(hdr, inv, l, view, k + 2, tip, limits.maxBlocks);
        }
      }
    }
  }

  lemma RewindTickInvariant(post: (Ledger, seq<Block>) -> bool, l: Ledger, view: nat -> View, k: nat, tip: Block,
                            maxRewind: nat)
    requires l.checkpoint.Some? && post(l, [])
    requires forall h | Below(l, h) :: post(Rewound(l, h), [])
    ensures var out := RewindTick(l, view, k, l.checkpoint.value, tip, maxRewind); post(out.ledger, out.recorded)
  {
    var c := l.checkpoint.value;
    SearchFinds(l, view, k, c.height - 1, c.height - 1 - maxRewind);
  }

  lemma ForwardTickInvariant(hdr: string -> Header, inv: (Ledger, seq<Block>) -> bool, l: Ledger, view: nat -> View,
                             k: nat, tip: Block, maxBlocks: nat)
    requires HonestRun(hdr, view) && l.checkpoint.Some? && inv(l, [])
    requires forall m, rec, b | inv(m, rec) && Extends(hdr, m, b) :: inv(BlockRecorded(m, b).value, rec + [b])
    ensures var out := ForwardTick(l, view, k, l.checkpoint.value, tip, maxBlocks); inv(out.ledger, out.recorded)
  {
    var c := l.checkpoint.value;
    var last := Min(tip.height, c.height + maxBlocks);
    WalkInvariant(hdr, inv, l, [], view, k, c.hash, c.height + 1, last);
    NothingBefore(Walk(l, view, k, c.hash, c.height + 1, last).recorded);
  }

  lemma NothingBefore<T>(s: seq<T>)
    ensures [] + s == s
  {
  }

  lemma GrowsThen(l: Ledger, m: Ledger, n: Ledger)
    requires Grows(l, m) && Grows(m, n)
    ensures Grows(l, n)
  {
  }

  /** Some block of the list was already stored as orphaned. */
  ghost predicate Revives(l: Ledger, recorded: seq<Block>) {
    exists b :: b in recorded && Orphaned(l, b.hash)
  }

  /** Blocks recorded so far, and the orphans above the checkpoint as they were before. */
  ghost predicate Above(hdr: string -> Header, l: Ledger, m: Ledger) {
    m.checkpoint.Some? && forall h | hdr(h).height > m.checkpoint.value.height :: Orphaned(m, h) <==> Orphaned(l, h)
  }

  /** Whole as long as nothing was revived; broken from the first revival on. */
  ghost predicate WholeOrBroken(hdr: string -> Header, l: Ledger, base: nat, m: Ledger, rec: seq<Block>) {
    && Headed(hdr, m) && Above(hdr, l, m)
    && if Revives(l, rec) then Broken(hdr, m, base) else Whole(hdr, m, base)
  }

  lemma RecordWholeOrBroken(hdr: string -> Header, l: Ledger, base: nat, m: Ledger, rec: seq<Block>, b: Block)
    requires WholeOrBroken(hdr, l, base, m, rec) && Extends(hdr, m, b)
    ensures WholeOrBroken(hdr, l, base, BlockRecorded(m, b).value, rec + [b])
  {
    RevivesMore(l, rec, b);
    assert Orphaned(m, b.hash) <==> Orphaned(l, b.hash);
    var n := BlockRecorded(m, b).value;
    forall h | hdr(h).height > b.height ensures Orphaned(n, h) <==> Orphaned(l, h) {
      assert h != b.hash;
      assert Orphaned(m, h) <==> Orphaned(l, h);
    }
    if Revives(l, rec) {
      RecordStaysBroken(hdr, m, b, base);
    } else {
      RecordWholeIff(hdr, m, b, base);
    }
  }

  lemma RevivesMore(l: Ledger, rec: seq<Block>, b: Block)
    ensures Revives(l, rec + [b]) <==> Revives(l, rec) || Orphaned(l, b.hash)
  {
    assert b in rec + [b];
    if Revives(l, rec) {
      var o :| o in rec && Orphaned(l, o.hash);
      assert o in rec + [b];
    }
  }

  /** The search answers with a stored canonical block at or below where it starts. */
  lemma {:induction false} SearchFinds(l: Ledger, view: nat -> View, k: nat, height: int, floor: int)
    ensures var found := SearchBack(l, view, k, height, floor).found;
      found.Ok? ==> found.value in l.blocks && CanonicalAt(l, found.value, l.blocks[found.value].height)
                    && floor < l.blocks[found.value].height <= height
    decreases height - floor
  {
    if height > floor && height >= 0 {
      var stored := FoundAt(l, height);
      if stored.None? {
        SearchFinds(l, view, k, height - 1, floor);
      } else if view(k).at(height).Some? && view(k).at(height).value.hash != stored.value {
        SearchFinds(l, view, k + 1, height - 1, floor);
      }
    }
  }

  /** Whatever the provider answers, call by call, a tick keeps the tables sound and only adds or flags. */
  lemma TickKeeps(hdr: string -> Header, l: Ledger, view: nat -> View, k: nat, limits: Limits)
    requires HonestRun(hdr, view) && Sound(hdr, l)
    ensures Sound(hdr, Tick(l, view, k, limits).ledger) && Grows(l, Tick(l, view, k, limits).ledger)
  {
    var inv := (m: Ledger, rec: seq<Block>) => Sound(hdr, m) && Grows(l, m);
    forall m, b | inv(m, []) && Named(hdr, b) && BlockRecorded(m, b).Ok?
      ensures inv(BlockRecorded(m, b).value, [b])
    {
      RecordKeeps(hdr, m, b);
      GrowsThen(l, m, BlockRecorded(m, b).value);
    }
    forall m, h | inv(m, []) && Below(m, h)
      ensures inv(Rewound(m, h), [])
    {
      RewindKeeps(hdr, m, h);
      GrowsThen(l, m, Rewound(m, h));
    }
    TickInvariant(hdr, inv, inv, l, view, k, limits);
  }

  /** A tick leaves no canonical event or activity in an orphaned block. */
  lemma TickKeepsEvidence(hdr: string -> Header, l: Ledger, view: nat -> View, k: nat, limits: Limits)
    requires HonestRun(hdr, view) && Sound(hdr, l) && EvidenceCanonical(l)
    ensures EvidenceCanonical(Tick(l, view, k, limits).ledger)
  {
    var inv := (m: Ledger, rec: seq<Block>) => Sound(hdr, m) && EvidenceCanonical(m);
    forall m, b | inv(m, []) && Named(hdr, b) && BlockRecorded(m, b).Ok?
      ensures inv(BlockRecorded(m, b).value, [b])
    {
      RecordKeeps(hdr, m, b);
      RecordEvidence(m, b);
    }
    forall m, h | inv(m, []) && Below(m, h)
      ensures inv(Rewound(m, h), [])
    {
      RewindKeeps(hdr, m, h);
    }
    TickInvariant(hdr, inv, inv, l, view, k, limits);
  }

  /** A tick keeps every canonical block among the ancestors of the checkpoint. */
  lemma TickTracks(hdr: string -> Header, l: Ledger, view: nat -> View, k: nat, limits: Limits)
    requires HonestRun(hdr, view) && Sound(hdr, l) && Tracked(hdr, l)
    ensures Tracked(hdr, Tick(l, view, k, limits).ledger)
  {
    var inv := (m: Ledger, rec: seq<Block>) => Sound(hdr, m) && Tracked(hdr, m);
    forall m, b | inv(m, []) && Named(hdr, b) && BlockRecorded(m, b).Ok? && (m.checkpoint.None? || Extends(hdr, m, b))
      ensures inv(BlockRecorded(m, b).value, [b])
    {
      RecordKeeps(hdr, m, b);
      RecordTracks(hdr, m, b);
    }
    forall m, h | inv(m, []) && Below(m, h)
      ensures inv(Rewound(m, h), [])
    {
      RewindKeeps(hdr, m, h);
      RewindTracks(hdr, m, h);
    }
    TickInvariant(hdr, inv, inv, l, view, k, limits);
  }

  /** Where the chain starts after a tick: lower only when a rewind went below the old start. */
  ghost function NextBase(l: Ledger, m: Ledger, base: nat): nat {
    if m.checkpoint.None? then base
    else if l.checkpoint.None? then m.checkpoint.value.height
    else Min(base, m.checkpoint.value.height)
  }

  /** A tick on a whole chain leaves it whole exactly when it recorded no block already stored as orphaned. */
  lemma TickWholeIff(hdr: string -> Header, l: Ledger, view: nat -> View, k: nat, limits: Limits, base: nat)
    requires HonestRun(hdr, view) && Sound(hdr, l) && Whole(hdr, l, base)
    ensures var out := Tick(l, view, k, limits);
      Whole(hdr, out.ledger, NextBase(l, out.ledger, base)) <==> !Revives(l, out.recorded)
  {
    var from := l.checkpoint.value.height;
    var inv := (m: Ledger, rec: seq<Block>) =>
      WholeOrBroken(hdr, l, base, m, rec) && m.checkpoint.value.height >= from;
    var post := (m: Ledger, rec: seq<Block>) => Whole(hdr, m, NextBase(l, m, base)) <==> !Revives(l, rec);
    forall m, rec, b | inv(m, rec) && Extends(hdr, m, b)
      ensures inv(BlockRecorded(m, b).value, rec + [b])
    {
      RecordWholeOrBroken(hdr, l, base, m, rec, b);
    }
    forall m, rec | inv(m, rec)
      ensures post(m, rec)
    {
      assert NextBase(l, m, base) == base;
      if Revives(l, rec) { BrokenNotWhole(hdr, m, base); }
    }
    forall h | Below(l, h)
      ensures post(Rewound(l, h), [])
    {
      RewindWhole(hdr, l, h, base);
      assert NextBase(l, Rewound(l, h), base) == Min(base, l.blocks[h].height);
    }
    assert !Revives(l, []);
    TickInvariant(hdr, inv, post, l, view, k, limits);
  }

  /** The first tick starts a whole chain of one block, unless that block was already an orphan. */
  lemma FirstTickWholeIff(hdr: string -> Header, l: Ledger, view: nat -> View, k: nat, limits: Limits)
    requires HonestRun(hdr, view) && Sound(hdr, l)
    requires l.checkpoint.None?
    ensures var out := Tick(l, view, k, limits);
      out.result.Ok? ==>
        (Whole(hdr, out.ledger, out.ledger.checkpoint.value.height) <==> !Revives(l, out.recorded))
  {
    assert Honest(hdr, view(k));
    var out := Tick(l, view, k, limits);
    if out.result.Ok? {
      var tip := view(k).tip.value;
      assert out.recorded == [tip];
      assert tip in out.recorded;
      assert Link(hdr, out.ledger.checkpoint.value, tip.height) == tip.hash;
      assert Orphaned(l, tip.hash) ==> !CanonicalAt(out.ledger, tip.hash, tip.height);
    }
  }

  // ----- Logs between ticks -----

  /** One event of a stored block is new, and at most one activity, read from that event. */
  ghost predicate RowsAdded(mid: Ledger, m: Ledger, hash: string, eventId: string) {
    && m.blocks == mid.blocks && m.checkpoint == mid.checkpoint
    && m.events == mid.events[eventId := EventRow(hash, true)]
    && (forall id | id in mid.activities :: id in m.activities && m.activities[id] == mid.activities[id])
    && (forall id | id in m.activities && id !in mid.activities ::
          m.activities[id].rawEventId == eventId && m.activities[id].blockHash == hash)
  }

  lemma LogAdds(l: Ledger, b: Block, eventId: string, kind: string)
    requires eventId !in l.events && BlockInserted(l, b).Ok?
    ensures RowsAdded(BlockInserted(l, b).value, LogStored(l, b, eventId, kind).ledger, b.hash, eventId)
  {
  }

  /**
   * Storing a log, statement by statement: nothing for a known event; a refused block throws; otherwise the block and
   * a canonical event are stored, and a canonical activity of the event unless one of its kind is there already.
   */
  lemma LogReads(l: Ledger, b: Block, eventId: string, kind: string)
    ensures var log := LogStored(l, b, eventId, kind);
      var m := log.ledger;
      var present := exists id | id in l.activities ::
        l.activities[id].rawEventId == eventId && l.activities[id].kind == kind;
      if eventId in l.events then m == l && log.error == None
      else if b.hash !in l.blocks && HeightTaken(l, b.height) then m == l && log.error == Some(SlotTaken)
      else
        && m.events == l.events[eventId := EventRow(b.hash, true)] && m.checkpoint == l.checkpoint
        && b.hash in m.blocks && (b.hash in l.blocks ==> m.blocks == l.blocks)
        && (if present then m.activities == l.activities && log.error == None
            else if "act_" + eventId in l.activities then
              m.activities == l.activities && log.error == Some(DuplicateActivity)
            else
              && m.activities == l.activities["act_" + eventId := ActivityRow(eventId, kind, b.hash, true)]
              && log.error == None)
  {
  }

  lemma LogKeeps(hdr: string -> Header, l: Ledger, b: Block, eventId: string, kind: string)
    requires Sound(hdr, l) && Named(hdr, b)
    ensures var m := LogStored(l, b, eventId, kind).ledger;
      && Sound(hdr, m) && Grows(l, m) && m.checkpoint == l.checkpoint
  {
    if eventId !in l.events && BlockInserted(l, b).Ok? {
      var mid := BlockInserted(l, b).value;
      InsertKeeps(hdr, l, b);
      LogAdds(l, b, eventId, kind);
      AddingKeeps(hdr, mid, LogStored(l, b, eventId, kind).ledger, b.hash, eventId);
      GrowsThen(l, mid, LogStored(l, b, eventId, kind).ledger);
    }
  }

  lemma AddingKeeps(hdr: string -> Header, mid: Ledger, m: Ledger, hash: string, eventId: string)
    requires Sound(hdr, mid) && hash in mid.blocks && eventId !in mid.events && RowsAdded(mid, m, hash, eventId)
    ensures Sound(hdr, m) && Grows(mid, m)
  {
    AddingGrows(mid, m, hash, eventId);
    assert forall id | id in m.activities ::
        m.activities[id].blockHash in m.blocks && m.activities[id].rawEventId in m.events;
  }

  lemma AddingGrows(mid: Ledger, m: Ledger, hash: string, eventId: string)
    requires eventId !in mid.events && RowsAdded(mid, m, hash, eventId)
    ensures Grows(mid, m)
  {
  }

  /** A block stored for a log never changes the chain between base and checkpoint. */
  lemma LogWhole(hdr: string -> Header, l: Ledger, b: Block, eventId: string, kind: string, base: nat)
    requires Whole(hdr, l, base)
    ensures Whole(hdr, LogStored(l, b, eventId, kind).ledger, base)
  {
    var m := LogStored(l, b, eventId, kind).ledger;
    forall i: nat | base <= i <= l.checkpoint.value.height
      ensures CanonicalAt(m, Link(hdr, l.checkpoint.value, i), i)
    {
      assert CanonicalAt(l, Link(hdr, l.checkpoint.value, i), i);
    }
  }

  /** A log keeps canonical evidence in canonical blocks exactly when its event is known or its block is no orphan. */
  lemma LogEvidenceIff(hdr: string -> Header, l: Ledger, b: Block, eventId: string, kind: string)
    requires Sound(hdr, l) && EvidenceCanonical(l)
    ensures EvidenceCanonical(LogStored(l, b, eventId, kind).ledger) <==> eventId in l.events || !Orphaned(l, b.hash)
  {
    if eventId !in l.events && BlockInserted(l, b).Ok? {
      var mid := BlockInserted(l, b).value;
      LogAdds(l, b, eventId, kind);
      assert EvidenceCanonical(mid);
      assert Orphaned(mid, b.hash) <==> Orphaned(l, b.hash);
      AddingEvidenceIff(mid, LogStored(l, b, eventId, kind).ledger, b.hash, eventId);
    }
  }

  lemma AddingEvidenceIff(mid: Ledger, m: Ledger, hash: string, eventId: string)
    requires EvidenceCanonical(mid) && hash in mid.blocks && RowsAdded(mid, m, hash, eventId)
    ensures EvidenceCanonical(m) <==> !Orphaned(mid, hash)
  {
    assert eventId in m.events && m.events[eventId] == EventRow(hash, true);
    if !Orphaned(mid, hash) {
      forall id | id in m.activities && m.activities[id].canonical
        ensures m.blocks[m.activities[id].blockHash].canonical
      {
        assert id in mid.activities || m.activities[id].blockHash == hash;
      }
    }
  }

  /** What a whole chain means, link by link. */
  lemma WholeIsLinked(hdr: string -> Header, l: Ledger, base: nat, i: nat)
    requires Sound(hdr, l) && Whole(hdr, l, base) && base <= i <= l.checkpoint.value.height
    ensures FoundAt(l, i) == Some(Link(hdr, l.checkpoint.value, i))
    ensures i == l.checkpoint.value.height ==> FoundAt(l, i) == Some(l.checkpoint.value.hash)
    ensures i < l.checkpoint.value.height ==>
      l.blocks[Link(hdr, l.checkpoint.value, i + 1)].parentHash == Link(hdr, l.checkpoint.value, i)
  {
    var c := l.checkpoint.value;
    assert CanonicalAt(l, Link(hdr, c, i), i);
    if i < c.height {
      assert CanonicalAt(l, Link(hdr, c, i + 1), i + 1);
      AncestorThen(hdr, c.hash, c.height - (i + 1), 1);
      assert Ancestor(hdr, Link(hdr, c, i + 1), 1) == hdr(Link(hdr, c, i + 1)).parentHash;
    }
  }
}
