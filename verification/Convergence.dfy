/**
 * Ticks against a remote chain that has stopped changing.
 */
module Convergence {
  import opened Wrappers
  import opened Evidence
  import opened Ingest
  import opened Lineage
  import opened Runs

  /** One fixed, gap-free, parent-linked chain up to its tip. */
  ghost predicate Stable(hdr: string -> Header, v: View) {
    && Honest(hdr, v)
    && v.tip.Some?
    && (forall h: nat | h <= v.tip.value.height :: v.at(h).Some?)
    && v.at(v.tip.value.height) == v.tip
    && forall h: nat | h < v.tip.value.height :: v.at(h + 1).value.parentHash == v.at(h).value.hash
  }

  ghost function Constant(v: View): nat -> View { (k: nat) => v }

  /** The remote's hash at a height it reaches. */
  ghost function RemoteHash(hdr: string -> Header, v: View, h: nat): string
    requires Stable(hdr, v) && h <= v.tip.value.height
  {
    v.at(h).value.hash
  }

  /** A hash fixes its whole ancestry: below a shared block everything is shared. */
  lemma {:induction false} AncestorsAgree(hdr: string -> Header, v: View, h: nat, i: nat)
    requires Stable(hdr, v) && i <= h <= v.tip.value.height
    ensures Ancestor(hdr, RemoteHash(hdr, v, h), h - i) == RemoteHash(hdr, v, i)
    decreases h
  {
    if i < h {
      assert v.at(h).value.parentHash == v.at(h - 1).value.hash;
      AncestorsAgree(hdr, v, h - 1, i);
    }
  }

  // ----- The common ancestor -----

  /** A stored canonical block that the remote still has at its height. */
  ghost predicate Shared(hdr: string -> Header, l: Ledger, v: View, hash: string)
    requires Stable(hdr, v)
  {
    && hash in l.blocks && l.blocks[hash].canonical
    && l.blocks[hash].height <= v.tip.value.height
    && RemoteHash(hdr, v, l.blocks[hash].height) == hash
  }

  lemma SharedIsStored(hdr: string -> Header, l: Ledger, v: View, height: nat)
    requires Stable(hdr, v) && OnePerHeight(l)
    ensures forall h | Shared(hdr, l, v, h) && l.blocks[h].height == height ::
              FoundAt(l, height) == Some(h) && RemoteHash(hdr, v, height) == h
  {
    forall h | Shared(hdr, l, v, h) && l.blocks[h].height == height
      ensures FoundAt(l, height) == Some(h)
    {
      assert CanonicalAt(l, h, height);
    }
  }

  /** The search finds the highest shared block of its window, and fails only when there is none. */
  lemma {:induction false} SearchExact(hdr: string -> Header, l: Ledger, v: View, k: nat, height: int, floor: int)
    requires Stable(hdr, v) && OnePerHeight(l) && height <= v.tip.value.height
    ensures var found := SearchBack(l, Constant(v), k, height, floor).found;
      match found
      case Ok(a) =>
        && Shared(hdr, l, v, a) && floor < l.blocks[a].height <= height
        && forall h | Shared(hdr, l, v, h) && l.blocks[h].height <= height :: l.blocks[h].height <= l.blocks[a].height
      case Err(e) =>
        && e == NoCommonAncestor
        && forall h | Shared(hdr, l, v, h) && l.blocks[h].height <= height :: l.blocks[h].height <= floor
    decreases height - floor
  {
    if height > floor && height >= 0 {
      var stored := FoundAt(l, height);
      if stored.Some? {
        assert CanonicalAt(l, stored.value, height);
      }
      SharedIsStored(hdr, l, v, height);
      if stored.None? {
        SearchExact(hdr, l, v, k, height - 1, floor);
      } else if v.at(height).value.hash != stored.value {
        SearchExact(hdr, l, v, k + 1, height - 1, floor);
      }
    }
  }

  /** After a rewind to a shared block, every canonical block of a whole chain is the remote's own. */
  lemma RewindAgrees(hdr: string -> Header, l: Ledger, v: View, a: string, base: nat)
    requires Stable(hdr, v) && Sound(hdr, l) && Whole(hdr, l, base)
    requires Shared(hdr, l, v, a) && l.blocks[a].height <= l.checkpoint.value.height
    ensures var m := Rewound(l, a);
      forall h | h in m.blocks && m.blocks[h].canonical && m.blocks[h].height >= base :: Shared(hdr, m, v, h)
  {
    var m := Rewound(l, a);
    RewindWhole(hdr, l, a, base);
    RewindKeeps(hdr, l, a);
    forall h | h in m.blocks && m.blocks[h].canonical && m.blocks[h].height >= base
      ensures Shared(hdr, m, v, h)
    {
      WholeAgrees(hdr, m, v, h, Min(base, l.blocks[a].height));
    }
  }

  /** With the checkpoint on the remote chain, a canonical block of a whole chain is the remote's own. */
  lemma WholeAgrees(hdr: string -> Header, m: Ledger, v: View, h: string, base: nat)
    requires Stable(hdr, v) && OnePerHeight(m) && Whole(hdr, m, base)
    requires m.checkpoint.value.height <= v.tip.value.height
    requires RemoteHash(hdr, v, m.checkpoint.value.height) == m.checkpoint.value.hash
    requires h in m.blocks && m.blocks[h].canonical && base <= m.blocks[h].height <= m.checkpoint.value.height
    ensures Shared(hdr, m, v, h)
  {
    var top, i := m.checkpoint.value, m.blocks[h].height;
    assert CanonicalAt(m, Link(hdr, top, i), i);
    AncestorsAgree(hdr, v, top.height, i);
  }

  /** The same for any run of ticks, whole or not, where every canonical block is an ancestor of the checkpoint. */
  lemma RewindAgreesTracked(hdr: string -> Header, l: Ledger, v: View, a: string)
    requires Stable(hdr, v) && Sound(hdr, l) && Tracked(hdr, l) && Shared(hdr, l, v, a)
    ensures var m := Rewound(l, a);
      forall h | h in m.blocks && m.blocks[h].canonical :: Shared(hdr, m, v, h)
  {
    var m := Rewound(l, a);
    RewindTracks(hdr, l, a);
    forall h | h in m.blocks && m.blocks[h].canonical
      ensures Shared(hdr, m, v, h)
    {
      AncestorsAgree(hdr, v, m.checkpoint.value.height, m.blocks[h].height);
    }
  }

  /** From above the tip the provider has no block to compare with: a tick fails and changes nothing. */
  lemma TickAboveTip(l: Ledger, v: View, limits: Limits)
    requires v.tip.Some? && l.checkpoint.Some? && v.at(l.checkpoint.value.height).None?
    ensures OneTick(l, v, limits) == l && Tick(l, Constant(v), 0, limits).result == Err(ProviderFailed)
  {
  }

  /** The first tick records the tip exactly when its height is free. */
  lemma FirstTickIff(hdr: string -> Header, l: Ledger, v: View, limits: Limits)
    requires Stable(hdr, v) && l.checkpoint.None?
    ensures if Free(hdr, l, v, v.tip.value.height)
            then OneTick(l, v, limits).checkpoint == Some(Checkpoint(v.tip.value.height, v.tip.value.hash))
            else OneTick(l, v, limits) == l
  {
    assert v.at(v.tip.value.height) == v.tip;
  }

  // ----- Reaching the tip -----

  ghost predicate Agrees(hdr: string -> Header, l: Ledger, v: View)
    requires Stable(hdr, v)
  {
    && l.checkpoint.Some?
    && l.checkpoint.value.height <= v.tip.value.height
    && RemoteHash(hdr, v, l.checkpoint.value.height) == l.checkpoint.value.hash
  }

  /** The store takes the remote's block at a height: it holds that block, or no canonical one there. */
  ghost predicate Free(hdr: string -> Header, l: Ledger, v: View, i: nat)
    requires Stable(hdr, v) && i <= v.tip.value.height
  {
    RemoteHash(hdr, v, i) in l.blocks || !HeightTaken(l, i)
  }

  /** Every height from the checkpoint to the tip is free for the remote's block. */
  ghost predicate Open(hdr: string -> Header, l: Ledger, v: View)
    requires Stable(hdr, v)
  {
    && l.checkpoint.Some?
    && forall i: nat | l.checkpoint.value.height < i <= v.tip.value.height :: Free(hdr, l, v, i)
  }

  /** How high the remote's blocks are accepted, going up from a height. */
  ghost function Reach(hdr: string -> Header, l: Ledger, v: View, from: nat): (top: nat)
    requires Stable(hdr, v) && from <= v.tip.value.height
    ensures from <= top <= v.tip.value.height
    decreases v.tip.value.height - from
  {
    if from == v.tip.value.height || !Free(hdr, l, v, from + 1) then from else Reach(hdr, l, v, from + 1)
  }

  lemma {:induction false} ReachIsTip(hdr: string -> Header, l: Ledger, v: View, from: nat)
    requires Stable(hdr, v) && from <= v.tip.value.height
    ensures Reach(hdr, l, v, from) == v.tip.value.height
            <==> forall i: nat | from < i <= v.tip.value.height :: Free(hdr, l, v, i)
    decreases v.tip.value.height - from
  {
    if from < v.tip.value.height {
      ReachIsTip(hdr, l, v, from + 1);
    }
  }

  lemma {:induction false} ReachSame(hdr: string -> Header, l: Ledger, m: Ledger, v: View, from: nat)
    requires Stable(hdr, v) && from <= v.tip.value.height
    requires forall i: nat | from < i <= v.tip.value.height :: Free(hdr, m, v, i) <==> Free(hdr, l, v, i)
    ensures Reach(hdr, m, v, from) == Reach(hdr, l, v, from)
    decreases v.tip.value.height - from
  {
    if from < v.tip.value.height {
      ReachSame(hdr, l, m, v, from + 1);
    }
  }

  /** The remote's next block is accepted exactly when its height is free, and leaves the heights above as they were. */
  lemma NextAcceptedIff(hdr: string -> Header, l: Ledger, v: View)
    requires Stable(hdr, v) && Headed(hdr, l) && Agrees(hdr, l, v) && l.checkpoint.value.height < v.tip.value.height
    ensures var i := l.checkpoint.value.height + 1;
      var b := v.at(i).value;
      var r := BlockRecorded(l, b);
      && b.height == i && b.parentHash == l.checkpoint.value.hash
      && (r.Ok? <==> Free(hdr, l, v, i))
      && (r.Err? ==> r.error == SlotTaken)
      && (r.Ok? ==> Headed(hdr, r.value) && Agrees(hdr, r.value, v) && r.value.checkpoint.value.height == i
                    && Reach(hdr, r.value, v, i) == Reach(hdr, l, v, i))
  {
    var i := l.checkpoint.value.height + 1;
    var b := v.at(i).value;
    assert v.at(i).value.parentHash == v.at(i - 1).value.hash;
    if BlockRecorded(l, b).Ok? {
      var m := BlockRecorded(l, b).value;
      forall j: nat | i < j <= v.tip.value.height
        ensures Free(hdr, m, v, j) <==> Free(hdr, l, v, j)
      {
        FreeAbove(hdr, l, v, b, j);
      }
      ReachSame(hdr, l, m, v, i);
    }
  }

  lemma FreeAbove(hdr: string -> Header, l: Ledger, v: View, b: Block, j: nat)
    requires Stable(hdr, v) && Headed(hdr, l) && Named(hdr, b) && b.height < j <= v.tip.value.height
    requires BlockRecorded(l, b).Ok?
    ensures Free(hdr, BlockRecorded(l, b).value, v, j) <==> Free(hdr, l, v, j)
  {
    var m := BlockRecorded(l, b).value;
    assert RemoteHash(hdr, v, j) != b.hash;
    if hash :| CanonicalAt(m, hash, j) {
      assert CanonicalAt(l, hash, j);
    } else if hash :| CanonicalAt(l, hash, j) {
      assert CanonicalAt(m, hash, j);
    }
  }

  datatype Place = Place(height: nat, reach: nat)

  /** The height of a checkpoint on the remote chain, and how high the remote's blocks are accepted from there. */
  ghost function PlaceOf(hdr: string -> Header, l: Ledger, v: View): Option<Place>
    requires Stable(hdr, v)
  {
    if Headed(hdr, l) && Agrees(hdr, l, v)
    then Some(Place(l.checkpoint.value.height, Reach(hdr, l, v, l.checkpoint.value.height)))
    else None
  }

  lemma NextAccepted(hdr: string -> Header, l: Ledger, v: View, height: nat, reach: nat)
    requires Stable(hdr, v) && PlaceOf(hdr, l, v) == Some(Place(height, reach)) && height < v.tip.value.height
    ensures var r := BlockRecorded(l, v.at(height + 1).value);
      && (r.Err? ==> r.error == SlotTaken && reach == height)
      && (r.Ok? ==> reach > height && PlaceOf(hdr, r.value, v) == Some(Place(height + 1, reach)))
  {
    NextAcceptedIff(hdr, l, v);
  }

  /** What a walk that starts above `height` ends with. */
  ghost function Ends(hdr: string -> Header, l: Ledger, v: View, k: nat, height: nat, last: nat)
    : (Ledger, Option<TickError>)
    requires Stable(hdr, v) && height <= v.tip.value.height
  {
    var w := Walk(l, Constant(v), k, RemoteHash(hdr, v, height), height + 1, last);
    (w.ledger, w.error)
  }

  /** The tables with the remote's next block recorded, if it is accepted. */
  ghost function Taken(l: Ledger, v: View): Ledger {
    if l.checkpoint.None? then l
    else
      var b := v.at(l.checkpoint.value.height + 1);
      if b.Some? && BlockRecorded(l, b.value).Ok? then BlockRecorded(l, b.value).value else l
  }

  lemma WalkTakes(hdr: string -> Header, l: Ledger, v: View, k: nat, height: nat, reach: nat, last: nat)
    requires Stable(hdr, v) && PlaceOf(hdr, l, v) == Some(Place(height, reach)) && height < reach && height < last
    ensures PlaceOf(hdr, Taken(l, v), v) == Some(Place(height + 1, reach))
    ensures Ends(hdr, l, v, k, height, last) == Ends(hdr, Taken(l, v), v, k + 1, height + 1, last)
  {
    NextAccepted(hdr, l, v, height, reach);
    assert v.at(height + 1).value.parentHash == RemoteHash(hdr, v, height);
  }

  /** A walk within reach records every block up to its last height. */
  lemma {:induction false} WalkArrives(hdr: string -> Header, l: Ledger, v: View, k: nat, height: nat, reach: nat,
                                       last: nat)
    requires Stable(hdr, v) && PlaceOf(hdr, l, v) == Some(Place(height, reach)) && height <= last <= reach
    ensures Ends(hdr, l, v, k, height, last).1.None?
    ensures PlaceOf(hdr, Ends(hdr, l, v, k, height, last).0, v) == Some(Place(last, reach))
    decreases last - height
  {
    if height == last {
      assert Ends(hdr, l, v, k, height, last) == (l, None);
    } else {
      WalkTakes(hdr, l, v, k, height, reach, last);
      WalkArrives(hdr, Taken(l, v), v, k + 1, height + 1, reach, last);
    }
  }

  /** A walk beyond reach stops below the first height that is taken by another block, and throws. */
  lemma {:induction false} WalkStops(hdr: string -> Header, l: Ledger, v: View, k: nat, height: nat, reach: nat,
                                     last: nat)
    requires Stable(hdr, v) && PlaceOf(hdr, l, v) == Some(Place(height, reach))
    requires height <= reach < last <= v.tip.value.height
    ensures Ends(hdr, l, v, k, height, last).1 == Some(StoreFailed(SlotTaken))
    ensures PlaceOf(hdr, Ends(hdr, l, v, k, height, last).0, v) == Some(Place(reach, reach))
    decreases last - height
  {
    if height == reach {
      NextAccepted(hdr, l, v, height, reach);
      WalkRefused(hdr, l, v, k, height, last);
    } else {
      WalkTakes(hdr, l, v, k, height, reach, last);
      WalkStops(hdr, Taken(l, v), v, k + 1, height + 1, reach, last);
    }
  }

  lemma WalkRefused(hdr: string -> Header, l: Ledger, v: View, k: nat, height: nat, last: nat)
    requires Stable(hdr, v) && height < last <= v.tip.value.height
    requires BlockRecorded(l, v.at(height + 1).value) == Err(SlotTaken)
    ensures Ends(hdr, l, v, k, height, last) == (l, Some(StoreFailed(SlotTaken)))
  {
    assert v.at(height + 1).value.parentHash == RemoteHash(hdr, v, height);
  }

  ghost function OneTick(l: Ledger, v: View, limits: Limits): Ledger {
    Tick(l, Constant(v), 0, limits).ledger
  }

  lemma Forward(hdr: string -> Header, l: Ledger, v: View, limits: Limits)
    requires Stable(hdr, v) && Agrees(hdr, l, v)
    ensures Tick(l, Constant(v), 0, limits)
         == ForwardTick(l, Constant(v), 2, l.checkpoint.value, v.tip.value, limits.maxBlocks)
  {
    assert v.at(l.checkpoint.value.height).value.hash == l.checkpoint.value.hash;
    TickGoesForward(l, Constant(v), 0, limits);
  }

  lemma Back(hdr: string -> Header, l: Ledger, v: View, limits: Limits)
    requires Stable(hdr, v) && l.checkpoint.Some? && l.checkpoint.value.height <= v.tip.value.height
    requires !Agrees(hdr, l, v)
    ensures Tick(l, Constant(v), 0, limits)
         == RewindTick(l, Constant(v), 2, l.checkpoint.value, v.tip.value, limits.maxRewind)
  {
    assert v.at(l.checkpoint.value.height).value.hash != l.checkpoint.value.hash;
    TickGoesBack(l, Constant(v), 0, limits);
  }

  lemma TickIsWalk(hdr: string -> Header, l: Ledger, v: View, limits: Limits, height: nat, last: nat)
    requires Stable(hdr, v) && Agrees(hdr, l, v) && height == l.checkpoint.value.height
    requires last == Min(v.tip.value.height, height + limits.maxBlocks)
    ensures var out := Tick(l, Constant(v), 0, limits);
      var error := Ends(hdr, l, v, 2, height, last).1;
      && out.ledger == Ends(hdr, l, v, 2, height, last).0
      && (out.result.Ok? <==> error.None?)
      && (out.result.Err? ==> error == Some(out.result.error))
  {
    Forward(hdr, l, v, limits);
  }

  /**
   * From agreement a tick moves the checkpoint up the remote chain to its last block, or as far as the
   * store accepts, and it throws exactly when that is short of its last block.
   */
  lemma TickAdvances(hdr: string -> Header, l: Ledger, v: View, limits: Limits, height: nat, reach: nat, last: nat)
    requires Stable(hdr, v) && PlaceOf(hdr, l, v) == Some(Place(height, reach))
    requires last == Min(v.tip.value.height, height + limits.maxBlocks)
    ensures PlaceOf(hdr, OneTick(l, v, limits), v) == Some(Place(Min(reach, last), reach))
    ensures Tick(l, Constant(v), 0, limits).result.Ok? <==> last <= reach
  {
    TickIsWalk(hdr, l, v, limits, height, last);
    if last <= reach {
      WalkArrives(hdr, l, v, 2, height, reach, last);
    } else {
      WalkStops(hdr, l, v, 2, height, reach, last);
    }
  }

  /** A tick whose next height is taken by another block throws and changes nothing. */
  lemma TickBlocked(hdr: string -> Header, l: Ledger, v: View, limits: Limits)
    requires Stable(hdr, v) && Headed(hdr, l) && Agrees(hdr, l, v) && limits.maxBlocks > 0
    requires l.checkpoint.value.height < v.tip.value.height && !Free(hdr, l, v, l.checkpoint.value.height + 1)
    ensures OneTick(l, v, limits) == l && Tick(l, Constant(v), 0, limits).result == Err(StoreFailed(SlotTaken))
  {
    var height := l.checkpoint.value.height;
    var last := Min(v.tip.value.height, height + limits.maxBlocks);
    TickIsWalk(hdr, l, v, limits, height, last);
    NextAcceptedIff(hdr, l, v);
    WalkRefused(hdr, l, v, 2, height, last);
  }

  // ----- Rewinding -----

  /** The chain shares a stored canonical block below the checkpoint, within reach of the search. */
  ghost predicate Recoverable(hdr: string -> Header, l: Ledger, v: View, limits: Limits)
    requires Stable(hdr, v)
  {
    && l.checkpoint.Some?
    && exists h :: Shared(hdr, l, v, h)
         && l.checkpoint.value.height - 1 - limits.maxRewind < l.blocks[h].height < l.checkpoint.value.height
  }

  /** After a rewind nothing canonical is left above the checkpoint. */
  lemma RewindOpens(hdr: string -> Header, l: Ledger, v: View, a: string)
    requires Stable(hdr, v) && Sound(hdr, l) && l.checkpoint.Some? && Shared(hdr, l, v, a)
    ensures var m := Rewound(l, a);
      PlaceOf(hdr, m, v) == Some(Place(l.blocks[a].height, v.tip.value.height))
  {
    var m := Rewound(l, a);
    assert forall h | h in m.blocks && m.blocks[h].canonical :: m.blocks[h].height <= l.blocks[a].height;
    ReachIsTip(hdr, m, v, m.checkpoint.value.height);
  }

  /** The highest shared block below the checkpoint, as the search reports it. */
  ghost predicate HighestShared(hdr: string -> Header, l: Ledger, v: View, a: string)
    requires Stable(hdr, v)
  {
    && l.checkpoint.Some? && Shared(hdr, l, v, a) && l.blocks[a].height < l.checkpoint.value.height
    && forall h | Shared(hdr, l, v, h) && l.blocks[h].height < l.checkpoint.value.height ::
         l.blocks[h].height <= l.blocks[a].height
  }

  lemma AncestorFound(hdr: string -> Header, l: Ledger, v: View, limits: Limits) returns (a: string)
    requires Stable(hdr, v) && Sound(hdr, l) && Recoverable(hdr, l, v, limits)
    requires l.checkpoint.value.height <= v.tip.value.height
    ensures HighestShared(hdr, l, v, a)
    ensures var c := l.checkpoint.value;
      SearchBack(l, Constant(v), 2, c.height - 1, c.height - 1 - limits.maxRewind).found == Ok(a)
  {
    var c := l.checkpoint.value;
    SearchExact(hdr, l, v, 2, c.height - 1, c.height - 1 - limits.maxRewind);
    a := SearchBack(l, Constant(v), 2, c.height - 1, c.height - 1 - limits.maxRewind).found.value;
  }

  /** From disagreement a tick rewinds to the highest shared block below the checkpoint. */
  lemma TickRewinds(hdr: string -> Header, l: Ledger, v: View, limits: Limits) returns (a: string)
    requires Stable(hdr, v) && Sound(hdr, l) && Recoverable(hdr, l, v, limits) && !Agrees(hdr, l, v)
    requires l.checkpoint.value.height <= v.tip.value.height
    ensures HighestShared(hdr, l, v, a)
    ensures var out := Tick(l, Constant(v), 0, limits);
      && out.ledger == Rewound(l, a)
      && out.result.Ok? && out.result.value.reorg.Some? && out.result.value.reorg.value.ancestorHash == a
    ensures PlaceOf(hdr, OneTick(l, v, limits), v) == Some(Place(l.blocks[a].height, v.tip.value.height))
  {
    a := AncestorFound(hdr, l, v, limits);
    TickTakesRewind(hdr, l, v, limits, a);
    RewindOpens(hdr, l, v, a);
  }

  lemma TickTakesRewind(hdr: string -> Header, l: Ledger, v: View, limits: Limits, a: string)
    requires Stable(hdr, v) && l.checkpoint.Some? && l.checkpoint.value.height <= v.tip.value.height
    requires !Agrees(hdr, l, v) && a in l.blocks
    requires var c := l.checkpoint.value;
      SearchBack(l, Constant(v), 2, c.height - 1, c.height - 1 - limits.maxRewind).found == Ok(a)
    ensures var out := Tick(l, Constant(v), 0, limits);
      && out.ledger == Rewound(l, a)
      && out.result.Ok? && out.result.value.reorg.Some? && out.result.value.reorg.value.ancestorHash == a
  {
    Back(hdr, l, v, limits);
  }

  /** Without a shared block within reach a tick fails and changes nothing. */
  lemma TickFindsNothing(hdr: string -> Header, l: Ledger, v: View, limits: Limits)
    requires Stable(hdr, v) && Sound(hdr, l) && l.checkpoint.Some?
    requires l.checkpoint.value.height <= v.tip.value.height
    requires !Agrees(hdr, l, v) && !Recoverable(hdr, l, v, limits)
    ensures OneTick(l, v, limits) == l && Tick(l, Constant(v), 0, limits).result == Err(NoCommonAncestor)
  {
    var c := l.checkpoint.value;
    SearchExact(hdr, l, v, 2, c.height - 1, c.height - 1 - limits.maxRewind);
    Back(hdr, l, v, limits);
  }

  // ----- Reaching the tip -----

  ghost function Iterated(next: Ledger -> Ledger, l: Ledger, n: nat): Ledger
    decreases n
  {
    if n == 0 then l else Iterated(next, next(l), n - 1)
  }

  ghost function Ticker(v: View, limits: Limits): Ledger -> Ledger {
    (l: Ledger) => OneTick(l, v, limits)
  }

  /** The tables after n ticks against the same chain. */
  ghost function Ticks(l: Ledger, v: View, limits: Limits, n: nat): Ledger {
    Iterated(Ticker(v, limits), l, n)
  }

  lemma {:induction false} TicksStay(l: Ledger, v: View, limits: Limits, n: nat)
    requires OneTick(l, v, limits) == l
    ensures Ticks(l, v, limits, n) == l
    decreases n
  {
    if n > 0 { TicksStay(l, v, limits, n - 1); }
  }

  /** Where n ticks of at most `maxBlocks` blocks bring a checkpoint. */
  function Climb(height: nat, reach: nat, tip: nat, maxBlocks: nat, n: nat): nat
    decreases n
  {
    if n == 0 then height else Climb(Min(reach, Min(tip, height + maxBlocks)), reach, tip, maxBlocks, n - 1)
  }

  lemma {:induction false} ClimbIs(height: nat, reach: nat, tip: nat, maxBlocks: nat, n: nat)
    requires height <= reach <= tip
    ensures Climb(height, reach, tip, maxBlocks, n) == Min(reach, height + n * maxBlocks)
    decreases n
  {
    if n > 0 {
      ClimbIs(Min(reach, Min(tip, height + maxBlocks)), reach, tip, maxBlocks, n - 1);
      TimesLess(n, maxBlocks);
    }
  }

  lemma TimesLess(n: nat, times: nat)
    requires n > 0
    ensures (n - 1) * times == n * times - times && (n - 1) * times >= 0
  {
  }

  lemma ClimbEnds(height: nat, tip: nat, maxBlocks: nat)
    requires height <= tip && maxBlocks > 0
    ensures Climb(height, tip, tip, maxBlocks, tip - height) == tip
  {
    ClimbIs(height, tip, tip, maxBlocks, tip - height);
    AtLeastTimes(tip - height, maxBlocks);
  }

  lemma AtLeastTimes(n: nat, times: nat)
    requires times > 0
    ensures n * times >= n
  {
  }

  /** Steps that each climb once climb n times. */
  lemma {:induction false} IteratedClimbs(next: Ledger -> Ledger, place: Ledger -> Option<Place>, tip: nat,
                                          maxBlocks: nat, l: Ledger, n: nat, height: nat, reach: nat)
    requires place(l) == Some(Place(height, reach))
    requires forall m, h: nat, r: nat | place(m) == Some(Place(h, r)) ::
               place(next(m)) == Some(Place(Min(r, Min(tip, h + maxBlocks)), r))
    ensures place(Iterated(next, l, n)) == Some(Place(Climb(height, reach, tip, maxBlocks, n), reach))
    decreases n
  {
    if n > 0 {
      IteratedClimbs(next, place, tip, maxBlocks, next(l), n - 1, Min(reach, Min(tip, height + maxBlocks)), reach);
    }
  }

  /** Where the checkpoint is after any number of ticks from agreement. */
  lemma TicksReach(hdr: string -> Header, l: Ledger, v: View, limits: Limits, n: nat, height: nat, reach: nat)
    requires Stable(hdr, v) && PlaceOf(hdr, l, v) == Some(Place(height, reach))
    ensures PlaceOf(hdr, Ticks(l, v, limits, n), v)
         == Some(Place(Climb(height, reach, v.tip.value.height, limits.maxBlocks, n), reach))
  {
    var place := (m: Ledger) => PlaceOf(hdr, m, v);
    var tip := v.tip.value.height;
    forall m, h: nat, r: nat | place(m) == Some(Place(h, r))
      ensures place(Ticker(v, limits)(m)) == Some(Place(Min(r, Min(tip, h + limits.maxBlocks)), r))
    {
      TickAdvances(hdr, m, v, limits, h, r, Min(tip, h + limits.maxBlocks));
    }
    IteratedClimbs(Ticker(v, limits), place, tip, limits.maxBlocks, l, n, height, reach);
  }

  /** The checkpoint is the remote's tip after n ticks. */
  ghost predicate Arrived(hdr: string -> Header, l: Ledger, v: View, limits: Limits, n: nat)
    requires Stable(hdr, v)
  {
    Ticks(l, v, limits, n).checkpoint == Some(Checkpoint(v.tip.value.height, v.tip.value.hash))
  }

  lemma ArrivedAt(hdr: string -> Header, l: Ledger, v: View, limits: Limits, n: nat, height: nat, reach: nat)
    requires Stable(hdr, v) && PlaceOf(hdr, l, v) == Some(Place(height, reach))
    ensures Arrived(hdr, l, v, limits, n) <==>
      Climb(height, reach, v.tip.value.height, limits.maxBlocks, n) == v.tip.value.height
  {
    TicksReach(hdr, l, v, limits, n, height, reach);
  }

  lemma PlaceArrivesIff(hdr: string -> Header, l: Ledger, v: View, limits: Limits, n: nat, height: nat, reach: nat)
    requires Stable(hdr, v) && PlaceOf(hdr, l, v) == Some(Place(height, reach))
    ensures Arrived(hdr, l, v, limits, n) <==>
      reach == v.tip.value.height && n * limits.maxBlocks >= v.tip.value.height - height
  {
    ArrivedAt(hdr, l, v, limits, n, height, reach);
    ClimbIs(height, reach, v.tip.value.height, limits.maxBlocks, n);
  }

  /**
   * From agreement n ticks reach the tip exactly when they may record enough blocks and every height up
   * to the tip is free for the remote's block.
   */
  lemma TicksArriveIff(hdr: string -> Header, l: Ledger, v: View, limits: Limits, n: nat)
    requires Stable(hdr, v) && Headed(hdr, l) && Agrees(hdr, l, v)
    ensures Arrived(hdr, l, v, limits, n) <==>
      Open(hdr, l, v) && n * limits.maxBlocks >= v.tip.value.height - l.checkpoint.value.height
  {
    var height := l.checkpoint.value.height;
    PlaceArrivesIff(hdr, l, v, limits, n, height, Reach(hdr, l, v, height));
    ReachIsTip(hdr, l, v, height);
  }

  /** A disagreement costs one tick for the rewind to the highest shared block, and the blocks from there. */
  lemma RecoversIff(hdr: string -> Header, l: Ledger, v: View, limits: Limits, a: string, n: nat)
    requires Stable(hdr, v) && Sound(hdr, l) && Recoverable(hdr, l, v, limits) && !Agrees(hdr, l, v)
    requires l.checkpoint.value.height <= v.tip.value.height && HighestShared(hdr, l, v, a)
    ensures Arrived(hdr, l, v, limits, n) <==>
      n >= 1 && (n - 1) * limits.maxBlocks >= v.tip.value.height - l.blocks[a].height
  {
    if n > 0 {
      var height := RewindHeight(hdr, l, v, limits, a);
      LaterArrivesIff(hdr, l, v, limits, n, height);
    }
  }

  lemma LaterArrivesIff(hdr: string -> Header, l: Ledger, v: View, limits: Limits, n: nat, height: nat)
    requires Stable(hdr, v) && n > 0
    requires PlaceOf(hdr, OneTick(l, v, limits), v) == Some(Place(height, v.tip.value.height))
    ensures Arrived(hdr, l, v, limits, n) <==> (n - 1) * limits.maxBlocks >= v.tip.value.height - height
  {
    PlaceArrivesIff(hdr, OneTick(l, v, limits), v, limits, n - 1, height, v.tip.value.height);
  }

  lemma RewindHeight(hdr: string -> Header, l: Ledger, v: View, limits: Limits, a: string) returns (height: nat)
    requires Stable(hdr, v) && Sound(hdr, l) && Recoverable(hdr, l, v, limits) && !Agrees(hdr, l, v)
    requires l.checkpoint.value.height <= v.tip.value.height && HighestShared(hdr, l, v, a)
    ensures height == l.blocks[a].height <= v.tip.value.height
    ensures PlaceOf(hdr, OneTick(l, v, limits), v) == Some(Place(height, v.tip.value.height))
  {
    var found := TickRewinds(hdr, l, v, limits);
    height := l.blocks[found].height;
    assert height <= l.blocks[a].height <= height;
  }

  /** The tables from which a remote that has stopped changing can be followed. */
  ghost predicate Followable(hdr: string -> Header, l: Ledger, v: View, limits: Limits)
    requires Stable(hdr, v)
  {
    if l.checkpoint.None? then Free(hdr, l, v, v.tip.value.height)
    else if l.checkpoint.value.height > v.tip.value.height then false
    else if Agrees(hdr, l, v) then Open(hdr, l, v)
    else Recoverable(hdr, l, v, limits)
  }

  /** The provider knows no block at a checkpoint above its own tip. */
  predicate EndsAtTip(l: Ledger, v: View) {
    l.checkpoint.Some? && v.tip.Some? && l.checkpoint.value.height > v.tip.value.height ==>
      v.at(l.checkpoint.value.height).None?
  }

  lemma FollowsFork(hdr: string -> Header, l: Ledger, v: View, limits: Limits) returns (n: nat)
    requires Stable(hdr, v) && Sound(hdr, l) && limits.maxBlocks > 0
    requires Recoverable(hdr, l, v, limits) && !Agrees(hdr, l, v) && l.checkpoint.value.height <= v.tip.value.height
    ensures Arrived(hdr, l, v, limits, n)
  {
    var a := AncestorFound(hdr, l, v, limits);
    var height := RewindHeight(hdr, l, v, limits, a);
    n := FollowsFrom(hdr, OneTick(l, v, limits), v, limits, height);
    n := n + 1;
  }

  lemma FirstFollows(hdr: string -> Header, l: Ledger, v: View, limits: Limits)
    requires Stable(hdr, v) && l.checkpoint.None? && Free(hdr, l, v, v.tip.value.height)
    ensures Arrived(hdr, l, v, limits, 1)
  {
    FirstTickIff(hdr, l, v, limits);
    assert Ticks(l, v, limits, 1) == Iterated(Ticker(v, limits), OneTick(l, v, limits), 0);
  }

  /** A number of ticks that reaches the tip from followable tables. */
  lemma Follows(hdr: string -> Header, l: Ledger, v: View, limits: Limits) returns (n: nat)
    requires Stable(hdr, v) && Sound(hdr, l) && limits.maxBlocks > 0
    requires Followable(hdr, l, v, limits)
    ensures Arrived(hdr, l, v, limits, n)
  {
    if l.checkpoint.None? {
      n := 1;
      FirstFollows(hdr, l, v, limits);
    } else if Agrees(hdr, l, v) {
      ReachIsTip(hdr, l, v, l.checkpoint.value.height);
      n := FollowsFrom(hdr, l, v, limits, l.checkpoint.value.height);
    } else {
      n := FollowsFork(hdr, l, v, limits);
    }
  }

  lemma FollowsFrom(hdr: string -> Header, l: Ledger, v: View, limits: Limits, height: nat) returns (n: nat)
    requires Stable(hdr, v) && limits.maxBlocks > 0
    requires PlaceOf(hdr, l, v) == Some(Place(height, v.tip.value.height))
    ensures Arrived(hdr, l, v, limits, n)
  {
    n := v.tip.value.height - height;
    ArrivedAt(hdr, l, v, limits, n, height, v.tip.value.height);
    ClimbEnds(height, v.tip.value.height, limits.maxBlocks);
  }

  lemma NeverFollows(hdr: string -> Header, l: Ledger, v: View, limits: Limits, n: nat)
    requires Stable(hdr, v) && Sound(hdr, l) && EndsAtTip(l, v)
    requires !Followable(hdr, l, v, limits)
    ensures !Arrived(hdr, l, v, limits, n)
  {
    if Agrees(hdr, l, v) {
      TicksArriveIff(hdr, l, v, limits, n);
    } else {
      NothingMoves(hdr, l, v, limits);
      TicksStay(l, v, limits, n);
    }
  }

  lemma NothingMoves(hdr: string -> Header, l: Ledger, v: View, limits: Limits)
    requires Stable(hdr, v) && Sound(hdr, l) && EndsAtTip(l, v)
    requires !Followable(hdr, l, v, limits) && !Agrees(hdr, l, v)
    ensures OneTick(l, v, limits) == l
  {
    if l.checkpoint.None? {
      FirstTickIff(hdr, l, v, limits);
    } else if l.checkpoint.value.height > v.tip.value.height {
      TickAboveTip(l, v, limits);
    } else {
      TickFindsNothing(hdr, l, v, limits);
    }
  }

  /** Some number of ticks reaches the tip exactly from followable tables. */
  lemma ArrivesIff(hdr: string -> Header, l: Ledger, v: View, limits: Limits)
    requires Stable(hdr, v) && Sound(hdr, l) && EndsAtTip(l, v) && limits.maxBlocks > 0
    ensures (exists n: nat :: Arrived(hdr, l, v, limits, n)) <==> Followable(hdr, l, v, limits)
  {
    if Followable(hdr, l, v, limits) {
      var n := Follows(hdr, l, v, limits);
    } else {
      forall n: nat ensures !Arrived(hdr, l, v, limits, n) { NeverFollows(hdr, l, v, limits, n); }
    }
  }

  /** At the tip a tick changes nothing, does not throw, and reports the tip. */
  lemma TickAtTip(hdr: string -> Header, l: Ledger, v: View, limits: Limits)
    requires Stable(hdr, v) && Arrived(hdr, l, v, limits, 0)
    ensures OneTick(l, v, limits) == l
    ensures var result := Tick(l, Constant(v), 0, limits).result;
      result.Ok? && result.value.checkpoint == Some(Checkpoint(v.tip.value.height, v.tip.value.hash))
  {
    Forward(hdr, l, v, limits);
  }

  lemma {:induction false} IteratedLast(next: Ledger -> Ledger, l: Ledger, n: nat)
    ensures Iterated(next, l, n + 1) == next(Iterated(next, l, n))
    decreases n
  {
    if n > 0 { IteratedLast(next, next(l), n - 1); }
  }

  lemma TicksLast(l: Ledger, v: View, limits: Limits, n: nat)
    ensures Ticks(l, v, limits, n + 1) == OneTick(Ticks(l, v, limits, n), v, limits)
  {
    IteratedLast(Ticker(v, limits), l, n);
  }

  /** Distance from the tip: a disagreement counts before any height. */
  ghost function Lag(hdr: string -> Header, l: Ledger, v: View): (int, int)
    requires Stable(hdr, v) && l.checkpoint.Some?
  {
    (if Agrees(hdr, l, v) then 0 else 1, v.tip.value.height - l.checkpoint.value.height)
  }

  ghost predicate Less(x: (int, int), y: (int, int)) {
    x.0 < y.0 || (x.0 == y.0 && x.1 < y.1)
  }

  /**
   * Away from the tip a tick strictly shortens the distance exactly when the next height is free, or,
   * in disagreement, a shared block is within reach. Any other tick changes nothing.
   */
  lemma TickProgressesIff(hdr: string -> Header, l: Ledger, v: View, limits: Limits)
    requires Stable(hdr, v) && Sound(hdr, l) && limits.maxBlocks > 0
    requires l.checkpoint.Some? && l.checkpoint.value.height <= v.tip.value.height
    requires !Arrived(hdr, l, v, limits, 0)
    ensures var m := OneTick(l, v, limits);
      if (if Agrees(hdr, l, v) then Free(hdr, l, v, l.checkpoint.value.height + 1) else Recoverable(hdr, l, v, limits))
      then Agrees(hdr, m, v) && Less(Lag(hdr, m, v), Lag(hdr, l, v))
      else m == l && Tick(l, Constant(v), 0, limits).result.Err?
  {
    if Agrees(hdr, l, v) {
      if Free(hdr, l, v, l.checkpoint.value.height + 1) {
        FreeProgresses(hdr, l, v, limits);
      } else {
        TickBlocked(hdr, l, v, limits);
      }
    } else if Recoverable(hdr, l, v, limits) {
      ForkProgresses(hdr, l, v, limits);
    } else {
      TickFindsNothing(hdr, l, v, limits);
    }
  }

  lemma FreeProgresses(hdr: string -> Header, l: Ledger, v: View, limits: Limits)
    requires Stable(hdr, v) && Headed(hdr, l) && limits.maxBlocks > 0
    requires Agrees(hdr, l, v) && l.checkpoint.value.height < v.tip.value.height
    requires Free(hdr, l, v, l.checkpoint.value.height + 1)
    ensures Agrees(hdr, OneTick(l, v, limits), v) && Less(Lag(hdr, OneTick(l, v, limits), v), Lag(hdr, l, v))
  {
    var height, tip := l.checkpoint.value.height, v.tip.value.height;
    var last, reach := Min(tip, height + limits.maxBlocks), Reach(hdr, l, v, height);
    assert reach > height;
    TickAdvances(hdr, l, v, limits, height, reach, last);
    LagAt(hdr, l, v, height, reach);
    LagAt(hdr, OneTick(l, v, limits), v, Min(reach, last), reach);
  }

  lemma LagAt(hdr: string -> Header, l: Ledger, v: View, height: nat, reach: nat)
    requires Stable(hdr, v) && PlaceOf(hdr, l, v) == Some(Place(height, reach))
    ensures Agrees(hdr, l, v) && Lag(hdr, l, v) == (0, v.tip.value.height - height)
  {
  }

  lemma ForkProgresses(hdr: string -> Header, l: Ledger, v: View, limits: Limits)
    requires Stable(hdr, v) && Sound(hdr, l) && l.checkpoint.Some?
    requires l.checkpoint.value.height <= v.tip.value.height
    requires !Agrees(hdr, l, v) && Recoverable(hdr, l, v, limits)
    ensures Agrees(hdr, OneTick(l, v, limits), v) && Less(Lag(hdr, OneTick(l, v, limits), v), Lag(hdr, l, v))
  {
    var a := TickRewinds(hdr, l, v, limits);
  }

  // ----- The chain that comes back -----

  const GENESIS := Block(0, "g", "")
  const A1 := Block(1, "a", "g")
  const B1 := Block(1, "b", "g")

  function ChainOf(top: Block): View {
    View(Some(top), h => if h == 0 then Some(GENESIS) else if h == 1 && top.height == 1 then Some(top) else None)
  }

  function Headers(): string -> Header {
    (hash: string) => if hash == "g" then Header(0, "") else Header(1, "g")
  }

  /** The remote shows a, then b, then a again. */
  function FlipBack(limits: Limits): seq<Step> {
    [Ticked((k: nat) => ChainOf(GENESIS), limits), Ticked((k: nat) => ChainOf(A1), limits),
     Ticked((k: nat) => ChainOf(B1), limits), Ticked((k: nat) => ChainOf(A1), limits)]
  }

  /** Evidence of the first three ticks of FlipBack: a is stored, and orphaned by b. */
  lemma AfterFlip(limits: Limits)
    requires limits.maxBlocks > 0 && limits.maxRewind > 0
    ensures var l := Run(EMPTY, FlipBack(limits)[..3]);
      && l.checkpoint == Some(Checkpoint(0, "g"))
      && l.blocks == map["g" := BlockRow(0, "", true), "a" := BlockRow(1, "g", false)]
  {
    var steps := FlipBack(limits)[..3];
    var l1 := Stepped(EMPTY, steps[0]);
    assert l1.blocks == map["g" := BlockRow(0, "", true)];
    var l2 := Stepped(l1, steps[1]);
    assert !HeightTaken(l1, 1);
    assert Walk(l1, (k: nat) => ChainOf(A1), 2, "g", 1, 1).recorded == [A1];
    assert l2.blocks == map["g" := BlockRow(0, "", true), "a" := BlockRow(1, "g", true)];
    var l3 := Stepped(l2, steps[2]);
    assert CanonicalAt(l2, "g", 0);
    assert FoundAt(l2, 0) == Some("g");
    assert l3 == Rewound(l2, "g");
    assert Orphans(l2, 0) == {"a"};
    assert Run(EMPTY, steps) == Run(l1, steps[1..]) == Run(l2, steps[1..][1..]) == Run(l3, steps[1..][1..][1..]);
  }

  /** The store does not follow: the checkpoint is a block it still holds as orphaned. */
  lemma FlipBackBreaks(limits: Limits)
    requires limits.maxBlocks > 0 && limits.maxRewind > 0
    ensures forall s | s in FlipBack(limits) :: HonestStep(Headers(), s)
    ensures var l := Run(EMPTY, FlipBack(limits));
      && l.checkpoint == Some(Checkpoint(1, "a")) && Orphaned(l, "a")
      && forall base: nat :: !Whole(Headers(), l, base)
  {
    var steps := FlipBack(limits);
    var l3 := Run(EMPTY, steps[..3]);
    AfterFlip(limits);
    assert steps == steps[..3] + [steps[3]];
    RunThen(EMPTY, steps[..3], [steps[3]]);
    var l := Stepped(l3, steps[3]);
    assert Run(l3, [steps[3]]) == l;
    assert Walk(l3, (k: nat) => ChainOf(A1), 2, "g", 1, 1).ledger.checkpoint == Some(Checkpoint(1, "a"));
    forall base: nat
      ensures !Whole(Headers(), l, base)
    {
      assert Link(Headers(), Checkpoint(1, "a"), 1) == "a";
      assert !CanonicalAt(l, "a", 1);
    }
  }

  // ----- A log that blocks the chain -----

  /** The first tick records genesis; then a log of block a is stored, ahead of the checkpoint. */
  function LogAhead(limits: Limits, eventId: string, kind: string): seq<Step> {
    [Ticked((k: nat) => ChainOf(GENESIS), limits), Logged(A1, eventId, kind)]
  }

  lemma AfterLogAhead(limits: Limits, eventId: string, kind: string)
    ensures var l := Run(EMPTY, LogAhead(limits, eventId, kind));
      && l.checkpoint == Some(Checkpoint(0, "g"))
      && l.blocks == map["g" := BlockRow(0, "", true), "a" := BlockRow(1, "g", true)]
  {
    var steps := LogAhead(limits, eventId, kind);
    var l1 := Stepped(EMPTY, steps[0]);
    assert l1.blocks == map["g" := BlockRow(0, "", true)];
    assert !HeightTaken(l1, 1);
    assert steps[1..] == [Logged(A1, eventId, kind)] && steps[1..][1..] == [];
    assert Run(EMPTY, steps) == Run(l1, steps[1..]) == Stepped(l1, steps[1]);
  }

  /** The remote then settles on b: every tick throws on the taken height, and the checkpoint never moves again. */
  lemma LogAheadBlocks(limits: Limits, eventId: string, kind: string, n: nat)
    requires limits.maxBlocks > 0
    ensures Stable(Headers(), ChainOf(B1))
    ensures forall s | s in LogAhead(limits, eventId, kind) :: HonestStep(Headers(), s)
    ensures var l := Run(EMPTY, LogAhead(limits, eventId, kind));
      && Sound(Headers(), l) && Agrees(Headers(), l, ChainOf(B1))
      && Tick(l, Constant(ChainOf(B1)), 0, limits).result == Err(StoreFailed(SlotTaken))
      && Ticks(l, ChainOf(B1), limits, n) == l
  {
    var l, v := Run(EMPTY, LogAhead(limits, eventId, kind)), ChainOf(B1);
    LogAheadHonest(limits, eventId, kind);
    AfterLogAhead(limits, eventId, kind);
    RunKeeps(Headers(), EMPTY, LogAhead(limits, eventId, kind));
    assert CanonicalAt(l, "a", 1) && !Free(Headers(), l, v, 1);
    TickBlocked(Headers(), l, v, limits);
    TicksStay(l, v, limits, n);
  }

  lemma LogAheadHonest(limits: Limits, eventId: string, kind: string)
    ensures Stable(Headers(), ChainOf(B1))
    ensures forall s | s in LogAhead(limits, eventId, kind) :: HonestStep(Headers(), s)
  {
  }
}
