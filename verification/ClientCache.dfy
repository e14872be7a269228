/**
 * The client cache, as interleaved steps.
 *
 * A load that starts a request registers it under its key. The request's answer, and later its
 * clean-up, run as separate steps between which anything may happen. Listeners and loaders do not
 * call back into the cache, so a step is never interrupted.
 */
module ClientCache {
  import opened Wrappers
  import opened ScopeKeys
  import opened Sorting

  datatype Status = Idle | Loading | Ready | Errored

  datatype Entry<+T> = Entry(status: Status, data: Option<T>, error: Option<string>, updatedAt: Option<int>)

  /** Where a request is: its loader runs, it answered but has not cleaned up, or it is over. */
  datatype Phase = Waiting | Settled | Done

  datatype Request = Request(key: string, phase: Phase)

  /** `requests` lists every request ever started; a request is named by its place in it. */
  datatype State<T> = State(
    entries: map<string, Entry<T>>,
    inFlight: map<string, nat>,
    requests: seq<Request>,
    notified: multiset<string>)

  datatype LoadOptions = LoadOptions(staleMs: int, force: bool)

  datatype LoadResult<+T> = Fresh(data: T) | Joined(id: nat) | Started(started: nat) | Threw

  function IdleEntry<T>(): Entry<T> {
    Entry(Idle, None, None, None)
  }

  function Get<T>(s: State<T>, key: string): Entry<T> {
    if key in s.entries then s.entries[key] else IdleEntry()
  }

  function Write<T>(s: State<T>, key: string, entry: Entry<T>): State<T> {
    s.(entries := s.entries[key := entry], notified := s.notified + multiset{key})
  }

  predicate IsFresh<T>(e: Entry<T>, now: int, options: LoadOptions) {
    && e.status == Ready && e.data.Some? && e.updatedAt.Some?
    && now - e.updatedAt.value < options.staleMs && !options.force
  }

  /** `loaderThrows`: the loader throws before it returns a promise. */
  function Load<T>(s: State<T>, key: string, now: int, options: LoadOptions, loaderThrows: bool)
    : (State<T>, LoadResult<T>)
  {
    var entry := Get(s, key);
    if IsFresh(entry, now, options) then (s, Fresh(entry.data.value))
    else if key in s.inFlight then (s, Joined(s.inFlight[key]))
    else
      var loading := Write(s, key, entry.(status := Loading, error := None));
      if loaderThrows then (loading, Threw)
      else
        var id := |s.requests|;
        (loading.(inFlight := s.inFlight[key := id], requests := s.requests + [Request(key, Waiting)]), Started(id))
  }

  /** The request is still the one its key waits for. */
  predicate Current<T>(s: State<T>, id: nat) {
    id < |s.requests| && s.requests[id].key in s.inFlight && s.inFlight[s.requests[id].key] == id
  }

  function Moved<T>(s: State<T>, id: nat, phase: Phase): State<T>
    requires id < |s.requests|
  {
    s.(requests := s.requests[id := s.requests[id].(phase := phase)])
  }

  function Resolve<T>(s: State<T>, id: nat, data: T, now: int): State<T>
    requires id < |s.requests|
  {
    var key := s.requests[id].key;
    Moved(if Current(s, id) then Write(s, key, Entry(Ready, Some(data), None, Some(now))) else s, id, Settled)
  }

  function Reject<T>(s: State<T>, id: nat, error: string): State<T>
    requires id < |s.requests|
  {
    var key := s.requests[id].key;
    Moved(if Current(s, id) then Write(s, key, Entry(Errored, Get(s, key).data, Some(error), None)) else s, id, Settled)
  }

  function Finally<T>(s: State<T>, id: nat): State<T>
    requires id < |s.requests|
  {
    Moved(if Current(s, id) then s.(inFlight := s.inFlight - {s.requests[id].key}) else s, id, Done)
  }

  function Set<T>(s: State<T>, key: string, data: T, now: int): State<T> {
    Write(s, key, Entry(Ready, Some(data), None, Some(now)))
  }

  function Matching<T>(s: State<T>, matching: string -> bool): set<string> {
    set key | key in s.entries && matching(key)
  }

  /** Without the given entries and the requests registered for them. */
  function Without<T>(s: State<T>, dropped: set<string>): State<T> {
    s.(entries := s.entries - dropped, inFlight := s.inFlight - dropped, notified := s.notified + multiset(dropped))
  }

  function Invalidate<T>(s: State<T>, matching: string -> bool): State<T> {
    Without(s, Matching(s, matching))
  }

  function WithoutOne<T>(s: State<T>, key: string): State<T> {
    s.(entries := s.entries - {key}, inFlight := s.inFlight - {key}, notified := s.notified + multiset{key})
  }

  lemma WithoutNone<T>(s: State<T>)
    ensures Without(s, {}) == s
  {
    assert s.entries - {} == s.entries && s.inFlight - {} == s.inFlight;
  }

  lemma WithoutMore<T>(s: State<T>, dropped: set<string>, key: string)
    requires key !in dropped
    ensures Without(s, dropped + {key}) == WithoutOne(Without(s, dropped), key)
  {
    var t := Without(s, dropped);
    assert s.entries - (dropped + {key}) == t.entries - {key};
    assert s.inFlight - (dropped + {key}) == t.inFlight - {key};
    assert multiset(dropped + {key}) == multiset(dropped) + multiset{key};
  }

  /** What the loop has dropped so far: the matching keys it has left behind. */
  lemma GoneMore<T>(start: State<T>, left: set<string>, matching: string -> bool, gone: set<string>, key: string)
    requires key !in left && key in start.entries
    requires gone == set k | k in start.entries && k !in left + {key} && matching(k)
    ensures (set k | k in start.entries && k !in left && matching(k)) == if matching(key) then gone + {key} else gone
  {
  }

  function Outside(scope: Scope): string -> bool {
    (key: string) => !(Prefix(scope) <= key)
  }

  function KeepScope<T>(s: State<T>, scope: Scope): State<T> {
    Invalidate(s, Outside(scope))
  }

  // ----- Interleavings -----

  datatype Step<T> =
    | LoadStep(key: string, now: int, options: LoadOptions, loaderThrows: bool)
    | ResolveStep(id: nat, data: T, now: int)
    | RejectStep(id: nat, error: string)
    | FinallyStep(id: nat)
    | SetStep(key: string, data: T, now: int)
    | InvalidateStep(matching: string -> bool)

  /** A request answers once, and cleans up once it has answered. */
  ghost predicate Possible<T>(s: State<T>, step: Step<T>) {
    match step
    case ResolveStep(id, _, _) => id < |s.requests| && s.requests[id].phase == Waiting
    case RejectStep(id, _) => id < |s.requests| && s.requests[id].phase == Waiting
    case FinallyStep(id) => id < |s.requests| && s.requests[id].phase == Settled
    case _ => true
  }

  ghost function After<T>(s: State<T>, step: Step<T>): State<T>
    requires Possible(s, step)
  {
    match step
    case LoadStep(key, now, options, loaderThrows) => Load(s, key, now, options, loaderThrows).0
    case ResolveStep(id, data, now) => Resolve(s, id, data, now)
    case RejectStep(id, error) => Reject(s, id, error)
    case FinallyStep(id) => Finally(s, id)
    case SetStep(key, data, now) => Set(s, key, data, now)
    case InvalidateStep(matching) => Invalidate(s, matching)
  }

  ghost predicate PossibleRun<T>(s: State<T>, steps: seq<Step<T>>)
    decreases |steps|
  {
    steps != [] ==> Possible(s, steps[0]) && PossibleRun(After(s, steps[0]), steps[1..])
  }

  ghost function AfterRun<T>(s: State<T>, steps: seq<Step<T>>): State<T>
    requires PossibleRun(s, steps)
    decreases |steps|
  {
    if steps == [] then s else AfterRun(After(s, steps[0]), steps[1..])
  }

  /** The registered request of a key is a request for that key that has not cleaned up, and the key has an entry. */
  ghost predicate Registered<T>(s: State<T>) {
    forall key | key in s.inFlight ::
      && key in s.entries
      && s.inFlight[key] < |s.requests|
      && s.requests[s.inFlight[key]].key == key
      && s.requests[s.inFlight[key]].phase != Done
  }

  /** An entry that says "loading" waits for a registered request that has not answered. */
  ghost predicate LoadingIsWaiting<T>(s: State<T>) {
    forall key | key in s.entries && s.entries[key].status == Loading ::
      key in s.inFlight && s.inFlight[key] < |s.requests| && s.requests[s.inFlight[key]].phase == Waiting
  }

  /** A ready entry holds data and the time it was stored. */
  ghost predicate ReadyHasData<T>(s: State<T>) {
    forall key | key in s.entries && s.entries[key].status == Ready ::
      s.entries[key].data.Some? && s.entries[key].updatedAt.Some?
  }

  lemma StepKeepsRegistered<T>(s: State<T>, step: Step<T>)
    requires Registered(s) && Possible(s, step)
    ensures Registered(After(s, step))
  {
    var t := After(s, step);
    forall key | key in t.inFlight
      ensures key in t.entries && t.inFlight[key] < |t.requests|
      ensures t.requests[t.inFlight[key]].key == key && t.requests[t.inFlight[key]].phase != Done
    {
      if step.FinallyStep? && key in s.inFlight && s.inFlight[key] == step.id {
        assert Current(s, step.id);
      }
    }
  }

  lemma StepKeepsData<T>(s: State<T>, step: Step<T>)
    requires ReadyHasData(s) && Possible(s, step)
    ensures ReadyHasData(After(s, step))
  {
  }

  /** The one step that leaves an entry loading with nothing under way. */
  ghost predicate ThrowsWhileStarting<T>(s: State<T>, step: Step<T>) {
    step.LoadStep? && Load(s, step.key, step.now, step.options, step.loaderThrows).1.Threw?
  }

  /** "Loading" keeps meaning a request under way exactly when no loader threw before returning its promise. */
  lemma StepKeepsLoadingIff<T>(s: State<T>, step: Step<T>)
    requires Registered(s) && LoadingIsWaiting(s) && Possible(s, step)
    ensures LoadingIsWaiting(After(s, step)) <==> !ThrowsWhileStarting(s, step)
  {
    match step {
      case LoadStep(key, now, options, loaderThrows) => LoadKeepsLoadingIff(s, key, now, options, loaderThrows);
      case ResolveStep(_, _, _) => AnswerKeepsLoading(s, step);
      case RejectStep(_, _) => AnswerKeepsLoading(s, step);
      case FinallyStep(_) => AnswerKeepsLoading(s, step);
      case SetStep(_, _, _) =>
      case InvalidateStep(_) =>
    }
  }

  lemma LoadKeepsLoadingIff<T>(s: State<T>, key: string, now: int, options: LoadOptions, loaderThrows: bool)
    requires Registered(s) && LoadingIsWaiting(s)
    ensures var (t, outcome) := Load(s, key, now, options, loaderThrows); LoadingIsWaiting(t) <==> !outcome.Threw?
  {
    var (t, outcome) := Load(s, key, now, options, loaderThrows);
    if outcome.Threw? {
      assert key in t.entries && t.entries[key].status == Loading && key !in t.inFlight;
    }
  }

  lemma AnswerKeepsLoading<T>(s: State<T>, step: Step<T>)
    requires Registered(s) && LoadingIsWaiting(s) && Possible(s, step)
    requires step.ResolveStep? || step.RejectStep? || step.FinallyStep?
    ensures LoadingIsWaiting(After(s, step))
  {
  }

  ghost predicate NeverThrows<T>(s: State<T>, steps: seq<Step<T>>)
    requires PossibleRun(s, steps)
    decreases |steps|
  {
    steps != [] ==> !ThrowsWhileStarting(s, steps[0]) && NeverThrows(After(s, steps[0]), steps[1..])
  }

  /** The invariants over every interleaving. */
  lemma {:induction false} RunKeeps<T>(s: State<T>, steps: seq<Step<T>>)
    requires Registered(s) && ReadyHasData(s) && PossibleRun(s, steps)
    ensures Registered(AfterRun(s, steps)) && ReadyHasData(AfterRun(s, steps))
    ensures LoadingIsWaiting(s) && NeverThrows(s, steps) ==> LoadingIsWaiting(AfterRun(s, steps))
    decreases |steps|
  {
    if steps != [] {
      StepKeepsRegistered(s, steps[0]);
      StepKeepsData(s, steps[0]);
      if LoadingIsWaiting(s) && NeverThrows(s, steps) { StepKeepsLoadingIff(s, steps[0]); }
      RunKeeps(After(s, steps[0]), steps[1..]);
    }
  }

  // ----- Late answers -----

  /** No longer the request its key waits for. */
  ghost predicate Dropped<T>(s: State<T>, id: nat) {
    id < |s.requests| && !Current(s, id)
  }

  lemma StepKeepsDropped<T>(s: State<T>, step: Step<T>, id: nat)
    requires Dropped(s, id) && Possible(s, step)
    ensures Dropped(After(s, step), id)
    ensures After(s, step).requests[id].key == s.requests[id].key
  {
  }

  /** What a dropped request still does changes no entry, registers nothing and notifies no one. */
  lemma DroppedIsSilent<T>(s: State<T>, step: Step<T>, id: nat)
    requires Dropped(s, id) && Possible(s, step)
    requires step.ResolveStep? || step.RejectStep? || step.FinallyStep?
    requires step.id == id
    ensures var t := After(s, step);
      t.entries == s.entries && t.inFlight == s.inFlight && t.notified == s.notified
  {
  }

  lemma {:induction false} RunKeepsDropped<T>(s: State<T>, steps: seq<Step<T>>, id: nat)
    requires Dropped(s, id) && PossibleRun(s, steps)
    ensures Dropped(AfterRun(s, steps), id)
    ensures AfterRun(s, steps).requests[id].key == s.requests[id].key
    decreases |steps|
  {
    if steps != [] {
      StepKeepsDropped(s, steps[0], id);
      RunKeepsDropped(After(s, steps[0]), steps[1..], id);
    }
  }

  /** Dropping keys drops every request made for them so far. */
  lemma InvalidateDrops<T>(s: State<T>, matching: string -> bool, id: nat)
    requires Registered(s) && id < |s.requests| && matching(s.requests[id].key)
    ensures Dropped(Invalidate(s, matching), id)
  {
  }

  /**
   * No request started before its key was invalidated ever writes afterwards: whatever happens in
   * between, its answer and its clean-up change nothing.
   */
  lemma LateAnswerIsSilent<T>(s: State<T>, matching: string -> bool, between: seq<Step<T>>, late: Step<T>, id: nat)
    requires Registered(s) && id < |s.requests| && matching(s.requests[id].key)
    requires PossibleRun(Invalidate(s, matching), between)
    requires late.ResolveStep? || late.RejectStep? || late.FinallyStep?
    requires late.id == id && Possible(AfterRun(Invalidate(s, matching), between), late)
    ensures var t := AfterRun(Invalidate(s, matching), between);
      && After(t, late).entries == t.entries && After(t, late).inFlight == t.inFlight
      && After(t, late).notified == t.notified
  {
    InvalidateDrops(s, matching, id);
    RunKeepsDropped(Invalidate(s, matching), between, id);
    DroppedIsSilent(AfterRun(Invalidate(s, matching), between), late, id);
  }

  /** Every change to an entry notifies its key. */
  lemma ChangesNotify<T>(s: State<T>, step: Step<T>, key: string)
    requires Registered(s) && Possible(s, step)
    requires (key in s.entries) != (key in After(s, step).entries) || Get(s, key) != Get(After(s, step), key)
    ensures After(s, step).notified[key] > s.notified[key]
  {
  }

  // ----- Wallet switches -----

  /** What a scope's prefix takes for its own: a key of the scope, or one it leaks into. */
  predicate Claims(scope: Scope, owner: Scope, resource: string, params: seq<Field<Option<string>>>) {
    SameKeys(scope, owner) || Leaks(scope, owner, Tail(resource, params))
  }

  /** After a switch the cache holds exactly the entries it held before that the current scope claims. */
  lemma KeepScopeExact<T>(s: State<T>, scope: Scope, owner: Scope, resource: string,
                          params: seq<Field<Option<string>>>)
    requires Plain(scope) && Plain(owner) && CacheKey(owner, resource, params) in s.entries
    ensures var key := CacheKey(owner, resource, params);
      && (key in KeepScope(s, scope).entries <==> Claims(scope, owner, resource, params))
      && (key in KeepScope(s, scope).entries ==> KeepScope(s, scope).entries[key] == s.entries[key])
  {
    PrefixOwnsKeysIff(scope, owner, resource, params);
  }

  /** No request for a key the new scope does not claim brings anything back; any other stays what it was. */
  lemma SwitchIsFinalIff<T>(s: State<T>, scope: Scope, owner: Scope, resource: string,
                            params: seq<Field<Option<string>>>, between: seq<Step<T>>, late: Step<T>, id: nat)
    requires Plain(scope) && Plain(owner)
    requires Registered(s) && id < |s.requests| && s.requests[id].key == CacheKey(owner, resource, params)
    requires PossibleRun(KeepScope(s, scope), between)
    requires late.ResolveStep? || late.RejectStep? || late.FinallyStep?
    requires late.id == id && Possible(AfterRun(KeepScope(s, scope), between), late)
    ensures if Claims(scope, owner, resource, params) then Current(KeepScope(s, scope), id) <==> Current(s, id)
            else var t := AfterRun(KeepScope(s, scope), between); After(t, late).entries == t.entries
  {
    PrefixOwnsKeysIff(scope, owner, resource, params);
    if !Claims(scope, owner, resource, params) {
      LateAnswerIsSilent(s, Outside(scope), between, late, id);
    }
  }

  // ----- The cache itself -----

  class Cache<T> {
    var entries: map<string, Entry<T>>
    var inFlight: map<string, nat>
    var requests: seq<Request>
    var notified: multiset<string>

    constructor ()
      ensures Contents() == State(map[], map[], [], multiset{})
    {
      entries, inFlight, requests, notified := map[], map[], [], multiset{};
    }

    ghost function Contents(): State<T>
      reads this
    {
      State(entries, inFlight, requests, notified)
    }

    method Notify(key: string)
      modifies this`notified
      ensures notified == old(notified) + multiset{key}
    {
      notified := notified + multiset{key};
    }

    method WriteEntry(key: string, entry: Entry<T>)
      modifies this`entries, this`notified
      ensures Contents() == Write(old(Contents()), key, entry)
    {
      entries := entries[key := entry];
      Notify(key);
    }

    method Read(key: string) returns (entry: Entry<T>)
      ensures entry == Get(Contents(), key)
    {
      entry := if key in entries then entries[key] else IdleEntry();
    }

    method StartLoad(key: string, now: int, options: LoadOptions, loaderThrows: bool) returns (r: LoadResult<T>)
      modifies this
      ensures (Contents(), r) == Load(old(Contents()), key, now, options, loaderThrows)
    {
      var entry := Read(key);
      if IsFresh(entry, now, options) { return Fresh(entry.data.value); }
      if key in inFlight { return Joined(inFlight[key]); }
      WriteEntry(key, entry.(status := Loading, error := None));
      if loaderThrows { return Threw; }
      var pending := |requests|;
      requests := requests + [Request(key, Waiting)];
      inFlight := inFlight[key := pending];
      r := Started(pending);
    }

    method OnResolve(pending: nat, data: T, now: int)
      requires pending < |requests|
      modifies this
      ensures Contents() == Resolve(old(Contents()), pending, data, now)
    {
      var key := requests[pending].key;
      if key in inFlight && inFlight[key] == pending {
        WriteEntry(key, Entry(Ready, Some(data), None, Some(now)));
      }
      requests := requests[pending := Request(key, Settled)];
    }

    method OnReject(pending: nat, error: string)
      requires pending < |requests|
      modifies this
      ensures Contents() == Reject(old(Contents()), pending, error)
    {
      var key := requests[pending].key;
      if key in inFlight && inFlight[key] == pending {
        var last := Read(key);
        WriteEntry(key, Entry(Errored, last.data, Some(error), None));
      }
      requests := requests[pending := Request(key, Settled)];
    }

    method OnFinally(pending: nat)
      requires pending < |requests|
      modifies this
      ensures Contents() == Finally(old(Contents()), pending)
    {
      var key := requests[pending].key;
      if key in inFlight && inFlight[key] == pending {
        inFlight := inFlight - {key};
      }
      requests := requests[pending := Request(key, Done)];
    }

    method Put(key: string, data: T, now: int)
      modifies this
      ensures Contents() == Set(old(Contents()), key, data, now)
    {
      WriteEntry(key, Entry(Ready, Some(data), None, Some(now)));
    }

    method DropOne(key: string)
      modifies this
      ensures Contents() == WithoutOne(old(Contents()), key)
    {
      entries := entries - {key};
      inFlight := inFlight - {key};
      Notify(key);
    }

    method DropMatching(matching: string -> bool) returns (dropped: nat)
      modifies this
      ensures Contents() == Invalidate(old(Contents()), matching)
      ensures dropped == |Matching(old(Contents()), matching)|
    {
      ghost var start := Contents();
      var left := entries.Keys;
      ghost var gone: set<string> := {};
      dropped := 0;
      WithoutNone(start);
      while left != {}
        invariant gone !! left && left <= start.entries.Keys
        invariant gone == set key | key in start.entries && key !in left && matching(key)
        invariant Contents() == Without(start, gone)
        invariant dropped == |gone|
        decreases |left|
      {
        var key :| key in left;
        left := left - {key};
        GoneMore(start, left, matching, gone, key);
        if matching(key) {
          WithoutMore(start, gone, key);
          gone := gone + {key};
          dropped := dropped + 1;
          DropOne(key);
        }
      }
      assert gone == Matching(start, matching);
    }

    method SwitchTo(scope: Scope) returns (dropped: nat)
      modifies this
      ensures Contents() == KeepScope(old(Contents()), scope)
      ensures dropped == |Matching(old(Contents()), Outside(scope))|
    {
      dropped := DropMatching(Outside(scope));
    }
  }
}
