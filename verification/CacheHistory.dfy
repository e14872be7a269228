/** What the client cache holds, told from what happened to a key. */
module CacheHistory {
  import opened Wrappers
  import opened ClientCache

  /** `Asked` starts the named request, `Refused` is a loader that threw, `Closed` is the request's clean-up. */
  datatype Event<T> =
    | Stored(data: T, at: int) | Failed(error: string) | Asked(id: nat) | Refused | Closed(id: nat) | Gone

  function Last<T>(past: seq<Event<T>>): Event<T>
    requires past != []
  {
    past[|past| - 1]
  }

  function Before<T>(past: seq<Event<T>>): seq<Event<T>>
    requires past != []
  {
    past[..|past| - 1]
  }

  /** The data last stored since the key was last dropped. */
  function LastData<T>(past: seq<Event<T>>): Option<T> {
    if past == [] then None
    else match Last(past)
    case Stored(data, _) => Some(data)
    case Gone => None
    case _ => LastData(Before(past))
  }

  /** What the entry says of itself: the last event but for a request's clean-up. */
  function LastWrite<T>(past: seq<Event<T>>): Option<Event<T>> {
    if past == [] || Last(past).Gone? then None
    else if Last(past).Closed? then LastWrite(Before(past))
    else Some(Last(past))
  }

  /** When the data was stored: forgotten by an error, kept while loading. */
  function LastTime<T>(past: seq<Event<T>>): Option<int> {
    if past == [] then None
    else match Last(past)
    case Stored(_, at) => Some(at)
    case Failed(_) => None
    case Gone => None
    case _ => LastTime(Before(past))
  }

  /** The request the key waits for: the last one asked, until it cleans up or the key is dropped. */
  function Open<T>(past: seq<Event<T>>): Option<nat> {
    if past == [] then None
    else match Last(past)
    case Asked(id) => Some(id)
    case Closed(_) => None
    case Gone => None
    case _ => Open(Before(past))
  }

  /** How often the key's listeners are told. */
  function Notices<T>(past: seq<Event<T>>): nat {
    if past == [] then 0 else Notices(Before(past)) + if Last(past).Closed? then 0 else 1
  }

  /** The last write stored these data less than `staleMs` ago, and the load is not forced. */
  predicate Serves<T>(past: seq<Event<T>>, now: int, options: LoadOptions) {
    var write := LastWrite(past);
    write.Some? && write.value.Stored? && now - write.value.at < options.staleMs && !options.force
  }

  /** What a step does to a key, judged by the key's own past. `started` requests were started before. */
  function Happening<T>(past: seq<Event<T>>, started: nat, step: Step<T>, key: string): seq<Event<T>> {
    match step
    case SetStep(k, data, now) => if k == key then [Stored(data, now)] else []
    case ResolveStep(id, data, now) => if Open(past) == Some(id) then [Stored(data, now)] else []
    case RejectStep(id, error) => if Open(past) == Some(id) then [Failed(error)] else []
    case FinallyStep(id) => if Open(past) == Some(id) then [Closed(id)] else []
    case InvalidateStep(matching) => if matching(key) && LastWrite(past).Some? then [Gone] else []
    case LoadStep(k, now, options, loaderThrows) =>
      if k != key || Serves(past, now, options) || Open(past).Some? then []
      else if loaderThrows then [Refused]
      else [Asked(started)]
  }

  ghost function History<T>(s: State<T>, past: seq<Event<T>>, steps: seq<Step<T>>, key: string): seq<Event<T>>
    requires PossibleRun(s, steps)
    decreases |steps|
  {
    if steps == [] then past
    else History(After(s, steps[0]), past + Happening(past, |s.requests|, steps[0], key), steps[1..], key)
  }

  /** The entry is what the key's past says. */
  ghost predicate Tells<T>(past: seq<Event<T>>, s: State<T>, key: string) {
    && (key in s.entries <==> LastWrite(past).Some?)
    && Get(s, key).data == LastData(past)
    && Get(s, key).updatedAt == LastTime(past)
    && match LastWrite(past)
       case None => Get(s, key).status == Idle && Get(s, key).error == None
       case Some(Stored(_, _)) => Get(s, key).status == Ready && Get(s, key).error == None
       case Some(Failed(error)) => Get(s, key).status == Errored && Get(s, key).error == Some(error)
       case Some(_) => Get(s, key).status == Loading && Get(s, key).error == None
  }

  ghost predicate Waits<T>(past: seq<Event<T>>, s: State<T>, key: string) {
    (if key in s.inFlight then Some(s.inFlight[key]) else None) == Open(past)
  }

  ghost predicate Remembers<T>(past: seq<Event<T>>, s: State<T>, key: string) {
    Tells(past, s, key) && Waits(past, s, key) && s.notified[key] == Notices(past)
  }

  lemma Appended<T>(past: seq<Event<T>>, e: Event<T>)
    ensures Last(past + [e]) == e && Before(past + [e]) == past
  {
  }

  lemma {:induction false} StoredIsTimed<T>(past: seq<Event<T>>)
    ensures LastWrite(past).Some? && LastWrite(past).value.Stored? ==>
            LastData(past) == Some(LastWrite(past).value.data) && LastTime(past) == Some(LastWrite(past).value.at)
  {
    if past != [] && Last(past).Closed? { StoredIsTimed(Before(past)); }
  }

  /** Cached data are returned exactly when they are fresh, and a request is joined exactly when one is open. */
  lemma LoadAnswers<T>(past: seq<Event<T>>, s: State<T>, key: string, now: int, options: LoadOptions,
                       loaderThrows: bool)
    requires Remembers(past, s, key)
    ensures Load(s, key, now, options, loaderThrows).1
         == if Serves(past, now, options) then Fresh(LastWrite(past).value.data)
            else if Open(past).Some? then Joined(Open(past).value)
            else if loaderThrows then Threw
            else Started(|s.requests|)
  {
    StoredIsTimed(past);
  }

  lemma AskedIsLast<T>(past: seq<Event<T>>, e: Event<T>)
    requires e.Asked? || e.Refused?
    ensures var more := past + [e];
      && LastWrite(more) == Some(e) && LastData(more) == LastData(past) && LastTime(more) == LastTime(past)
      && Open(more) == (if e.Asked? then Some(e.id) else Open(past)) && Notices(more) == Notices(past) + 1
  {
    Appended(past, e);
  }

  /** A load of another key, one served or one that joins leaves the key as it is. */
  lemma OtherLoadRemembers<T>(past: seq<Event<T>>, s: State<T>, step: Step<T>, key: string)
    requires step.LoadStep? && Remembers(past, s, key) && Happening(past, |s.requests|, step, key) == []
    ensures Remembers(past, After(s, step), key)
  {
    LoadAnswers(past, s, key, step.now, step.options, step.loaderThrows);
  }

  lemma AskingRemembers<T>(past: seq<Event<T>>, s: State<T>, step: Step<T>, key: string, e: Event<T>)
    requires step.LoadStep? && Remembers(past, s, key) && Happening(past, |s.requests|, step, key) == [e]
    ensures Remembers(past + [e], After(s, step), key)
  {
    LoadAnswers(past, s, key, step.now, step.options, step.loaderThrows);
    AskedIsLast(past, e);
  }

  lemma LoadRemembers<T>(past: seq<Event<T>>, s: State<T>, step: Step<T>, key: string)
    requires step.LoadStep? && Remembers(past, s, key)
    ensures Remembers(past + Happening(past, |s.requests|, step, key), After(s, step), key)
  {
    var events := Happening(past, |s.requests|, step, key);
    if events == [] {
      OtherLoadRemembers(past, s, step, key);
      assert past + events == past;
    } else {
      AskingRemembers(past, s, step, key, events[0]);
      assert events == [events[0]];
    }
  }

  lemma AnswerRemembers<T>(past: seq<Event<T>>, s: State<T>, step: Step<T>, key: string)
    requires step.ResolveStep? || step.RejectStep? || step.FinallyStep?
    requires Remembers(past, s, key) && Registered(s) && Possible(s, step)
    ensures Remembers(past + Happening(past, |s.requests|, step, key), After(s, step), key)
  {
    assert past + [] == past;
    assert Open(past) == Some(step.id) <==> Current(s, step.id) && s.requests[step.id].key == key;
    if Happening(past, |s.requests|, step, key) != [] {
      Appended(past, Happening(past, |s.requests|, step, key)[0]);
    }
  }

  lemma WriteRemembers<T>(past: seq<Event<T>>, s: State<T>, step: Step<T>, key: string)
    requires step.SetStep? || step.InvalidateStep?
    requires Remembers(past, s, key) && Registered(s)
    ensures Remembers(past + Happening(past, |s.requests|, step, key), After(s, step), key)
  {
    assert past + [] == past;
    if Happening(past, |s.requests|, step, key) != [] {
      Appended(past, Happening(past, |s.requests|, step, key)[0]);
    }
  }

  /** Whatever happens, a key's entry stays what its past says. */
  lemma {:induction false} RunRemembers<T>(s: State<T>, past: seq<Event<T>>, steps: seq<Step<T>>, key: string)
    requires Registered(s) && Remembers(past, s, key) && PossibleRun(s, steps)
    ensures Remembers(History(s, past, steps, key), AfterRun(s, steps), key)
    decreases |steps|
  {
    if steps != [] {
      StepKeepsRegistered(s, steps[0]);
      match steps[0] {
        case LoadStep(_, _, _, _) => LoadRemembers(past, s, steps[0], key);
        case SetStep(_, _, _) => WriteRemembers(past, s, steps[0], key);
        case InvalidateStep(_) => WriteRemembers(past, s, steps[0], key);
        case _ => AnswerRemembers(past, s, steps[0], key);
      }
      RunRemembers(After(s, steps[0]), past + Happening(past, |s.requests|, steps[0], key), steps[1..], key);
    }
  }

  /** A cache as it is created. */
  function Empty<T>(): State<T> {
    State(map[], map[], [], multiset{})
  }

  /**
   * Over every run of a cache that starts empty, each key's entry, its open request and its notifications are what
   * the key's own past says: ready with the data and time last stored, in error with the last error and the data from
   * before, loading since a request was asked for, and nothing once dropped.
   */
  lemma {:induction false} CacheRemembers<T>(steps: seq<Step<T>>, key: string)
    requires PossibleRun(Empty<T>(), steps)
    ensures Remembers(History(Empty<T>(), [], steps, key), AfterRun(Empty<T>(), steps), key)
  {
    RunRemembers(Empty<T>(), [], steps, key);
  }

  /** And a load after any run answers from the key's past: fresh data, the open request, or a new one. */
  lemma {:induction false} CacheAnswers<T>(steps: seq<Step<T>>, key: string, now: int, options: LoadOptions,
                                           loaderThrows: bool)
    requires PossibleRun(Empty<T>(), steps)
    ensures var past := History(Empty<T>(), [], steps, key);
      var s := AfterRun(Empty<T>(), steps);
      Load(s, key, now, options, loaderThrows).1
        == if Serves(past, now, options) then Fresh(LastWrite(past).value.data)
           else if Open(past).Some? then Joined(Open(past).value)
           else if loaderThrows then Threw
           else Started(|s.requests|)
  {
    CacheRemembers(steps, key);
    LoadAnswers(History(Empty<T>(), [], steps, key), AfterRun(Empty<T>(), steps), key, now, options, loaderThrows);
  }
}
