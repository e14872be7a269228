/**
 * Runs of ticks and logs from any tables: what they keep, and from which height the chain is whole.
 */
module Runs {
  import opened Wrappers
  import opened Evidence
  import opened Ingest
  import opened Lineage

  /** One thing the worker does: a tick against some chains, or the storing of one log. */
  datatype Step = Ticked(view: nat -> View, limits: Limits) | Logged(b: Block, eventId: string, kind: string)

  ghost predicate HonestStep(hdr: string -> Header, s: Step) {
    match s
    case Ticked(view, _) => HonestRun(hdr, view)
    case Logged(b, _, _) => Named(hdr, b)
  }

  ghost function Stepped(l: Ledger, s: Step): Ledger {
    match s
    case Ticked(view, limits) => Tick(l, view, 0, limits).ledger
    case Logged(b, eventId, kind) => LogStored(l, b, eventId, kind).ledger
  }

  ghost function Run(l: Ledger, steps: seq<Step>): Ledger
    decreases |steps|
  {
    if steps == [] then l else Run(Stepped(l, steps[0]), steps[1..])
  }

  lemma RunPrefix(l: Ledger, steps: seq<Step>, n: nat)
    requires 0 < n <= |steps|
    ensures steps[..n][0] == steps[0] && steps[..n][1..] == steps[1..][..n - 1]
    ensures Run(l, steps[..n]) == Run(Stepped(l, steps[0]), steps[1..][..n - 1])
  {
    assert steps[..n][1..] == steps[1..][..n - 1];
  }

  lemma {:induction false} RunThen(l: Ledger, first: seq<Step>, second: seq<Step>)
    ensures Run(l, first + second) == Run(Run(l, first), second)
    decreases |first|
  {
    if first == [] {
      assert first + second == second;
    } else {
      assert (first + second)[1..] == first[1..] + second;
      RunThen(Stepped(l, first[0]), first[1..], second);
    }
  }

  /** Over any run of ticks and logs the tables stay sound and evidence is only added or flagged. */
  lemma {:induction false} RunKeeps(hdr: string -> Header, l: Ledger, steps: seq<Step>)
    requires Sound(hdr, l)
    requires forall s | s in steps :: HonestStep(hdr, s)
    ensures Sound(hdr, Run(l, steps)) && Grows(l, Run(l, steps))
    decreases |steps|
  {
    if steps != [] {
      var m := Stepped(l, steps[0]);
      assert HonestStep(hdr, steps[0]);
      match steps[0] {
        case Ticked(view, limits) => TickKeeps(hdr, l, view, 0, limits);
        case Logged(b, eventId, kind) => LogKeeps(hdr, l, b, eventId, kind);
      }
      RunKeeps(hdr, m, steps[1..]);
      GrowsThen(l, m, Run(m, steps[1..]));
    }
  }

  /** Over any run of ticks, every canonical block is the checkpoint or an ancestor of it. */
  lemma {:induction false} TicksTrack(hdr: string -> Header, l: Ledger, steps: seq<Step>)
    requires Sound(hdr, l) && Tracked(hdr, l) && EvidenceCanonical(l)
    requires forall s | s in steps :: s.Ticked? && HonestStep(hdr, s)
    ensures Tracked(hdr, Run(l, steps)) && EvidenceCanonical(Run(l, steps))
    decreases |steps|
  {
    if steps != [] {
      assert steps[0] in steps;
      TickKeeps(hdr, l, steps[0].view, 0, steps[0].limits);
      TickKeepsEvidence(hdr, l, steps[0].view, 0, steps[0].limits);
      TickTracks(hdr, l, steps[0].view, 0, steps[0].limits);
      TicksTrack(hdr, Stepped(l, steps[0]), steps[1..]);
    }
  }

  /** No tick records a block the store holds as an orphan. */
  ghost predicate NeverRevives(l: Ledger, steps: seq<Step>)
    decreases |steps|
  {
    steps != [] ==>
      && (steps[0].Ticked? ==> !Revives(l, Tick(l, steps[0].view, 0, steps[0].limits).recorded))
      && NeverRevives(Stepped(l, steps[0]), steps[1..])
  }

  /** The height the chain is whole from after a run that started with a chain whole from `base`. */
  ghost function BaseAfter(l: Ledger, steps: seq<Step>, base: nat): nat
    decreases |steps|
  {
    if steps == [] then base
    else
      var m := Stepped(l, steps[0]);
      BaseAfter(m, steps[1..], NextBase(l, m, base))
  }

  /** No checkpoint yet, or the chain under it is whole from `base` on. */
  ghost predicate WholeFrom(hdr: string -> Header, l: Ledger, base: nat) {
    l.checkpoint.Some? ==> Whole(hdr, l, base)
  }

  lemma StepKeeps(hdr: string -> Header, l: Ledger, s: Step)
    requires Sound(hdr, l) && HonestStep(hdr, s)
    ensures Sound(hdr, Stepped(l, s)) && Grows(l, Stepped(l, s))
    ensures l.checkpoint.Some? ==> Stepped(l, s).checkpoint.Some?
  {
    match s {
      case Ticked(view, limits) =>
        TickKeeps(hdr, l, view, 0, limits);
        if l.checkpoint.Some? { TickKeepsCheckpoint(hdr, l, view, 0, limits); }
      case Logged(b, eventId, kind) => LogKeeps(hdr, l, b, eventId, kind);
    }
  }

  lemma TickKeepsCheckpoint(hdr: string -> Header, l: Ledger, view: nat -> View, k: nat, limits: Limits)
    requires HonestRun(hdr, view) && l.checkpoint.Some?
    ensures Tick(l, view, k, limits).ledger.checkpoint.Some?
  {
    var inv := (m: Ledger, rec: seq<Block>) => m.checkpoint.Some?;
    TickInvariant(hdr, inv, inv, l, view, k, limits);
  }

  /** A step on a whole chain leaves it whole exactly when it is no tick that records an orphan. */
  lemma StepWholeIff(hdr: string -> Header, l: Ledger, s: Step, base: nat)
    requires Sound(hdr, l) && WholeFrom(hdr, l, base) && HonestStep(hdr, s)
    ensures WholeFrom(hdr, Stepped(l, s), NextBase(l, Stepped(l, s), base)) <==>
            (s.Ticked? ==> !Revives(l, Tick(l, s.view, 0, s.limits).recorded))
  {
    match s {
      case Ticked(view, limits) =>
        if l.checkpoint.None? {
          FirstTickWholeIff(hdr, l, view, 0, limits);
        } else {
          TickWholeIff(hdr, l, view, 0, limits, base);
          TickKeepsCheckpoint(hdr, l, view, 0, limits);
        }
      case Logged(b, eventId, kind) =>
        if l.checkpoint.Some? { LogWhole(hdr, l, b, eventId, kind, base); }
    }
  }

  lemma {:induction false} RunWholeIf(hdr: string -> Header, l: Ledger, steps: seq<Step>, base: nat)
    requires Sound(hdr, l) && WholeFrom(hdr, l, base)
    requires forall s | s in steps :: HonestStep(hdr, s)
    requires NeverRevives(l, steps)
    ensures WholeFrom(hdr, Run(l, steps), BaseAfter(l, steps, base))
    decreases |steps|
  {
    if steps != [] {
      assert HonestStep(hdr, steps[0]);
      StepKeeps(hdr, l, steps[0]);
      StepWholeIff(hdr, l, steps[0], base);
      var m := Stepped(l, steps[0]);
      RunWholeIf(hdr, m, steps[1..], NextBase(l, m, base));
    }
  }

  lemma {:induction false} RevivalShows(hdr: string -> Header, l: Ledger, steps: seq<Step>, base: nat) returns (n: nat)
    requires Sound(hdr, l) && WholeFrom(hdr, l, base)
    requires forall s | s in steps :: HonestStep(hdr, s)
    requires !NeverRevives(l, steps)
    ensures n <= |steps| && !WholeFrom(hdr, Run(l, steps[..n]), BaseAfter(l, steps[..n], base))
    decreases |steps|
  {
    var m := Stepped(l, steps[0]);
    assert HonestStep(hdr, steps[0]);
    StepKeeps(hdr, l, steps[0]);
    StepWholeIff(hdr, l, steps[0], base);
    n := 1;
    if WholeFrom(hdr, m, NextBase(l, m, base)) {
      n := RevivalShows(hdr, m, steps[1..], NextBase(l, m, base));
      n := n + 1;
    }
    RunPrefix(l, steps, n);
  }

  lemma {:induction false} NeverRevivesPrefix(l: Ledger, steps: seq<Step>, n: nat)
    requires NeverRevives(l, steps) && n <= |steps|
    ensures NeverRevives(l, steps[..n])
    decreases |steps|
  {
    if n > 0 {
      NeverRevivesPrefix(Stepped(l, steps[0]), steps[1..], n - 1);
      RunPrefix(l, steps, n);
    }
  }

  /**
   * The whole-run safety result: after every step of a run the chain from the run's own base up to the
   * checkpoint is stored, canonical and parent-linked, exactly when no tick of it records an orphan.
   */
  lemma RunWhole(hdr: string -> Header, l: Ledger, steps: seq<Step>, base: nat)
    requires Sound(hdr, l) && WholeFrom(hdr, l, base)
    requires forall s | s in steps :: HonestStep(hdr, s)
    ensures (forall n: nat | n <= |steps| :: WholeFrom(hdr, Run(l, steps[..n]), BaseAfter(l, steps[..n], base)))
            <==> NeverRevives(l, steps)
    ensures NeverRevives(l, steps) ==> WholeFrom(hdr, Run(l, steps), BaseAfter(l, steps, base))
  {
    if NeverRevives(l, steps) {
      RunWholeIf(hdr, l, steps, base);
      forall n: nat | n <= |steps|
        ensures WholeFrom(hdr, Run(l, steps[..n]), BaseAfter(l, steps[..n], base))
      {
        NeverRevivesPrefix(l, steps, n);
        RunWholeIf(hdr, l, steps[..n], base);
      }
    } else {
      var n := RevivalShows(hdr, l, steps, base);
    }
  }

  /** The base is no higher than any checkpoint of the run. */
  lemma {:induction false} BaseAtMost(hdr: string -> Header, l: Ledger, steps: seq<Step>, base: nat, n: nat)
    requires Sound(hdr, l) && (l.checkpoint.Some? ==> base <= l.checkpoint.value.height)
    requires forall s | s in steps :: HonestStep(hdr, s)
    requires n <= |steps| && (n > 0 ==> Run(l, steps[..n]).checkpoint.Some?)
    ensures n > 0 ==> BaseAfter(l, steps, base) <= Run(l, steps[..n]).checkpoint.value.height
    ensures l.checkpoint.Some? ==> BaseAfter(l, steps, base) <= base
    decreases |steps|
  {
    if steps != [] {
      assert HonestStep(hdr, steps[0]);
      StepKeeps(hdr, l, steps[0]);
      var m := Stepped(l, steps[0]);
      if n > 0 { RunPrefix(l, steps, n); }
      BaseAtMost(hdr, m, steps[1..], NextBase(l, m, base), if n > 0 then n - 1 else 0);
    }
  }

  /** The base is the height of one of the run's checkpoints, or the base before the run. */
  lemma {:induction false} BaseIsReached(l: Ledger, steps: seq<Step>, base: nat) returns (n: nat)
    ensures n <= |steps| && (n == 0 ==> BaseAfter(l, steps, base) == base)
    ensures n > 0 ==>
      && Run(l, steps[..n]).checkpoint.Some?
      && BaseAfter(l, steps, base) == Run(l, steps[..n]).checkpoint.value.height
    decreases |steps|
  {
    n := 0;
    if steps != [] {
      var m := Stepped(l, steps[0]);
      var next := NextBase(l, m, base);
      var later := BaseIsReached(m, steps[1..], next);
      if later > 0 {
        n := later + 1;
        RunPrefix(l, steps, n);
      } else if next != base {
        n := 1;
        RunPrefix(l, steps, n);
      }
    }
  }

  // ----- Evidence over a run -----

  /** No log brings a new event of a block the store holds as an orphan. */
  ghost predicate NoOrphanLogs(l: Ledger, steps: seq<Step>)
    decreases |steps|
  {
    steps != [] ==>
      && (steps[0].Logged? ==> steps[0].eventId in l.events || !Orphaned(l, steps[0].b.hash))
      && NoOrphanLogs(Stepped(l, steps[0]), steps[1..])
  }

  ghost predicate StainedEvent(l: Ledger, id: string) {
    id in l.events && l.events[id].canonical && Orphaned(l, l.events[id].blockHash)
  }

  ghost predicate StainedActivity(l: Ledger, id: string) {
    id in l.activities && l.activities[id].canonical && Orphaned(l, l.activities[id].blockHash)
  }

  lemma StainFound(hdr: string -> Header, l: Ledger)
    requires Matches(hdr, l)
    ensures EvidenceCanonical(l) <==> (forall id :: !StainedEvent(l, id)) && (forall id :: !StainedActivity(l, id))
  {
    if forall id :: !StainedEvent(l, id) {
      forall id | id in l.events && l.events[id].canonical
        ensures l.blocks[l.events[id].blockHash].canonical
      {
        assert !StainedEvent(l, id);
      }
    }
    if forall id :: !StainedActivity(l, id) {
      forall id | id in l.activities && l.activities[id].canonical
        ensures l.blocks[l.activities[id].blockHash].canonical
      {
        assert !StainedActivity(l, id);
      }
    }
  }

  /** Rows of orphaned blocks are left as they were. */
  ghost predicate LeavesOrphans(l: Ledger, m: Ledger) {
    && (forall h | Orphaned(l, h) :: Orphaned(m, h))
    && (forall id | id in l.events && Orphaned(l, l.events[id].blockHash) ::
          id in m.events && m.events[id] == l.events[id])
    && (forall id | id in l.activities && Orphaned(l, l.activities[id].blockHash) ::
          id in m.activities && m.activities[id] == l.activities[id])
  }

  lemma RewindLeavesOrphans(l: Ledger, hash: string)
    requires hash in l.blocks
    ensures LeavesOrphans(l, Rewound(l, hash))
  {
    assert forall h | Orphaned(l, h) :: h !in Orphans(l, l.blocks[hash].height);
  }

  lemma RecordLeavesOrphans(l: Ledger, b: Block)
    requires BlockRecorded(l, b).Ok?
    ensures LeavesOrphans(l, BlockRecorded(l, b).value)
  {
  }

  lemma LogLeavesOrphans(l: Ledger, b: Block, eventId: string, kind: string)
    ensures LeavesOrphans(l, LogStored(l, b, eventId, kind).ledger)
  {
  }

  lemma StaysStained(hdr: string -> Header, l: Ledger, m: Ledger)
    requires Matches(hdr, l) && Matches(hdr, m) && LeavesOrphans(l, m) && !EvidenceCanonical(l)
    ensures !EvidenceCanonical(m)
  {
    StainFound(hdr, l);
    StainFound(hdr, m);
    if id :| StainedEvent(l, id) {
      assert StainedEvent(m, id);
    } else {
      var id :| StainedActivity(l, id);
      assert StainedActivity(m, id);
    }
  }

  /** A canonical event or activity of an orphaned block is never flagged again. */
  lemma StepStaysStained(hdr: string -> Header, l: Ledger, s: Step)
    requires Sound(hdr, l) && !EvidenceCanonical(l) && HonestStep(hdr, s)
    ensures !EvidenceCanonical(Stepped(l, s))
  {
    match s {
      case Ticked(view, limits) =>
        TickStaysStained(hdr, l, view, 0, limits);
      case Logged(b, eventId, kind) =>
        LogKeeps(hdr, l, b, eventId, kind);
        LogLeavesOrphans(l, b, eventId, kind);
        StaysStained(hdr, l, LogStored(l, b, eventId, kind).ledger);
    }
  }

  lemma TickStaysStained(hdr: string -> Header, l: Ledger, view: nat -> View, k: nat, limits: Limits)
    requires HonestRun(hdr, view) && Sound(hdr, l) && !EvidenceCanonical(l)
    ensures !EvidenceCanonical(Tick(l, view, k, limits).ledger)
  {
    var inv := (m: Ledger, rec: seq<Block>) => Sound(hdr, m) && !EvidenceCanonical(m);
    forall m, b | inv(m, []) && Named(hdr, b) && BlockRecorded(m, b).Ok?
      ensures inv(BlockRecorded(m, b).value, [b])
    {
      RecordKeeps(hdr, m, b);
      RecordLeavesOrphans(m, b);
      StaysStained(hdr, m, BlockRecorded(m, b).value);
    }
    forall m, h | inv(m, []) && Below(m, h)
      ensures inv(Rewound(m, h), [])
    {
      RewindKeeps(hdr, m, h);
      RewindLeavesOrphans(m, h);
      StaysStained(hdr, m, Rewound(m, h));
    }
    TickInvariant(hdr, inv, inv, l, view, k, limits);
  }

  lemma StepEvidenceIff(hdr: string -> Header, l: Ledger, s: Step)
    requires Sound(hdr, l) && EvidenceCanonical(l) && HonestStep(hdr, s)
    ensures EvidenceCanonical(Stepped(l, s)) <==>
            (s.Logged? ==> s.eventId in l.events || !Orphaned(l, s.b.hash))
  {
    match s {
      case Ticked(view, limits) => TickKeepsEvidence(hdr, l, view, 0, limits);
      case Logged(b, eventId, kind) => LogEvidenceIff(hdr, l, b, eventId, kind);
    }
  }

  /** After a run every canonical event and activity sits in a canonical block, or a log of an orphan was stored. */
  lemma {:induction false} RunEvidenceIff(hdr: string -> Header, l: Ledger, steps: seq<Step>)
    requires Sound(hdr, l)
    requires forall s | s in steps :: HonestStep(hdr, s)
    ensures EvidenceCanonical(Run(l, steps)) <==> EvidenceCanonical(l) && NoOrphanLogs(l, steps)
    decreases |steps|
  {
    if steps != [] {
      assert HonestStep(hdr, steps[0]);
      StepKeeps(hdr, l, steps[0]);
      if EvidenceCanonical(l) {
        StepEvidenceIff(hdr, l, steps[0]);
      } else {
        StepStaysStained(hdr, l, steps[0]);
      }
      RunEvidenceIff(hdr, Stepped(l, steps[0]), steps[1..]);
    }
  }

  // ----- Runs of ticks alone -----

  ghost predicate NothingBelow(l: Ledger, base: nat) {
    if l.checkpoint.None? then l.blocks == map[]
    else forall h | h in l.blocks :: base <= l.blocks[h].height
  }

  lemma TickNothingBelow(hdr: string -> Header, l: Ledger, view: nat -> View, limits: Limits, base: nat)
    requires HonestRun(hdr, view) && Sound(hdr, l) && NothingBelow(l, base)
    ensures var m := Tick(l, view, 0, limits).ledger;
      NothingBelow(m, NextBase(l, m, base)) && (l.checkpoint.Some? ==> NextBase(l, m, base) == base)
  {
    if l.checkpoint.Some? {
      var inv := (m: Ledger, rec: seq<Block>) => Sound(hdr, m) && m.checkpoint.Some? && NothingBelow(m, base);
      forall m, rec, b | inv(m, rec) && Extends(hdr, m, b)
        ensures inv(BlockRecorded(m, b).value, rec + [b])
      {
        RecordKeeps(hdr, m, b);
      }
      forall m, h | inv(m, []) && Below(m, h)
        ensures inv(Rewound(m, h), [])
      {
        RewindKeeps(hdr, m, h);
      }
      TickInvariant(hdr, inv, inv, l, view, 0, limits);
    }
  }

  lemma {:induction false} TicksNothingBelow(hdr: string -> Header, l: Ledger, steps: seq<Step>, base: nat)
    requires Sound(hdr, l) && NothingBelow(l, base)
    requires forall s | s in steps :: s.Ticked? && HonestStep(hdr, s)
    ensures NothingBelow(Run(l, steps), BaseAfter(l, steps, base))
    ensures l.checkpoint.Some? ==> BaseAfter(l, steps, base) == base
    decreases |steps|
  {
    if steps != [] {
      assert steps[0] in steps;
      StepKeeps(hdr, l, steps[0]);
      TickNothingBelow(hdr, l, steps[0].view, steps[0].limits, base);
      var m := Stepped(l, steps[0]);
      TicksNothingBelow(hdr, m, steps[1..], NextBase(l, m, base));
    }
  }

  /**
   * After ticks alone, none of which recorded an orphan, the canonical blocks are exactly the chain from
   * the first block ever recorded up to the checkpoint.
   */
  lemma TicksExact(hdr: string -> Header, steps: seq<Step>, h: string, i: nat)
    requires forall s | s in steps :: s.Ticked? && HonestStep(hdr, s)
    requires NeverRevives(EMPTY, steps) && Run(EMPTY, steps).checkpoint.Some?
    ensures var l := Run(EMPTY, steps);
      CanonicalAt(l, h, i) <==>
        BaseAfter(EMPTY, steps, 0) <= i <= l.checkpoint.value.height && h == Link(hdr, l.checkpoint.value, i)
  {
    var l, base := Run(EMPTY, steps), BaseAfter(EMPTY, steps, 0);
    TicksTrack(hdr, EMPTY, steps);
    TicksNothingBelow(hdr, EMPTY, steps, 0);
    RunWholeIf(hdr, EMPTY, steps, 0);
    WholeAndTracked(hdr, l, base, h, i);
  }

  lemma WholeAndTracked(hdr: string -> Header, l: Ledger, base: nat, h: string, i: nat)
    requires Whole(hdr, l, base) && Tracked(hdr, l) && NothingBelow(l, base)
    ensures CanonicalAt(l, h, i) <==> base <= i <= l.checkpoint.value.height && h == Link(hdr, l.checkpoint.value, i)
  {
    if base <= i <= l.checkpoint.value.height {
      assert CanonicalAt(l, Link(hdr, l.checkpoint.value, i), i);
    }
  }
}
