/** The mesh-local prefix shared by all handles: fetches of many handles
    interleave with invalidations, and a generation number decides whether a
    fetched prefix may be cached. */
module PrefixCache {
  import opened Wire

  type Prefix = s: bytes | |s| == 8 witness [0xfd, 0, 0, 0, 0, 0, 0, 0]

  /** A fetch that found the cache empty: the generation it saw, and how many
      invalidations had happened by then. */
  datatype Fetch = Fetch(generation: u64, began: nat)

  /** The cache, the fetches under way, and the history: how many invalidations
      there were and which fetch the cached prefix came from. */
  datatype State = State(
    prefix: Option<Prefix>, generation: u64, running: map<nat, Fetch>, invalidations: nat, origin: Option<Fetch>)

  datatype Event =
    | Begin(id: nat)
    | Finish(id: nat, read: Option<Prefix>)
    | Invalidate

  const START := State(None, 0, map[], 0, None)

  /** A prefix is usable when it lies within fd00::/8. */
  predicate Usable(read: Option<Prefix>) {
    read.Some? && read.value[0] == 0xfd
  }

  function Step(s: State, e: Event): State {
    match e
    case Begin(id) =>
      if s.prefix.Some? then s
      else s.(running := s.running[id := Fetch(s.generation, s.invalidations)])
    case Finish(id, read) =>
      if id !in s.running then s else
      var fetch := s.running[id];
      var t := s.(running := s.running - {id});
      if Usable(read) && s.generation == fetch.generation then t.(prefix := read, origin := Some(fetch)) else t
    case Invalidate =>
      s.(prefix := None, generation := WrappingIncrement(s.generation), invalidations := s.invalidations + 1,
         origin := None)
  }

  function Run(s: State, events: seq<Event>): State {
    if events == [] then s else Step(Run(s, events[..|events| - 1]), events[|events| - 1])
  }

  /** Invalidations that happened since a fetch began. */
  ghost function Since(s: State, f: Fetch): int {
    s.invalidations - f.began
  }

  ghost predicate MultipleOfWrap(n: int) {
    n % U64_LIMIT == 0
  }

  ghost predicate FetchOk(s: State, f: Fetch) {
    f.began <= s.invalidations && f.generation == f.began % U64_LIMIT
  }

  ghost predicate Valid(s: State) {
    && s.generation == s.invalidations % U64_LIMIT
    && (forall id :: id in s.running ==> FetchOk(s, s.running[id]))
    && (s.prefix.Some? <==> s.origin.Some?)
    && (s.origin.Some? ==> FetchOk(s, s.origin.value) && MultipleOfWrap(Since(s, s.origin.value)))
  }

  lemma WrapStep(n: nat)
    ensures (n % U64_LIMIT + 1) % U64_LIMIT == (n + 1) % U64_LIMIT
  {
  }

  /** A generation repeats exactly after a multiple of 2^64 invalidations. */
  lemma GenerationRepeats(s: State, f: Fetch)
    requires s.generation == s.invalidations % U64_LIMIT && FetchOk(s, f)
    ensures s.generation == f.generation <==> MultipleOfWrap(Since(s, f))
  {
  }

  lemma StepKeeps(s: State, e: Event)
    requires Valid(s)
    ensures Valid(Step(s, e))
  {
    match e
    case Begin(_) =>
    case Finish(id, read) =>
      if id in s.running {
        GenerationRepeats(s, s.running[id]);
      }
    case Invalidate =>
      WrapStep(s.invalidations);
  }

  lemma {:induction false} RunKeeps(events: seq<Event>)
    ensures Valid(Run(START, events))
    decreases |events|
  {
    if events != [] {
      RunKeeps(events[..|events| - 1]);
      StepKeeps(Run(START, events[..|events| - 1]), events[|events| - 1]);
    }
  }

  /** With fewer than 2^64 invalidations a cached prefix always comes from a
      fetch that began after the last one. */
  lemma CachedIsFresh(events: seq<Event>)
    requires Run(START, events).prefix.Some? && Run(START, events).invalidations < U64_LIMIT
    ensures Run(START, events).origin.Some?
    ensures Run(START, events).origin.value.began == Run(START, events).invalidations
  {
    RunKeeps(events);
    var s := Run(START, events);
    var d := Since(s, s.origin.value);
    assert 0 <= d < U64_LIMIT && d % U64_LIMIT == 0;
  }

  /** Under any interleaving, a fetch that ends with a usable prefix stores it
      exactly when the invalidations since it began are a multiple of 2^64, so
      it stores a stale one exactly when they are a positive multiple. */
  lemma StoresExactly(events: seq<Event>, id: nat, read: Option<Prefix>)
    requires id in Run(START, events).running && Usable(read)
    ensures var s := Run(START, events);
            var f, t := s.running[id], Step(s, Finish(id, read));
            && (t.origin == Some(f) && t.prefix == read <==> MultipleOfWrap(Since(s, f)))
            && (t.origin == Some(f) && t.prefix == read && f.began < t.invalidations <==>
                Since(s, f) > 0 && MultipleOfWrap(Since(s, f)))
  {
    RunKeeps(events);
    GenerationRepeats(Run(START, events), Run(START, events).running[id]);
  }

  lemma {:induction false} ManyInvalidations(s: State, n: nat)
    requires s.generation == s.invalidations % U64_LIMIT
    ensures var t := Run(s, seq(n, _ => Invalidate));
            && t.generation == t.invalidations % U64_LIMIT && t.invalidations == s.invalidations + n
            && t.running == s.running && (n > 0 ==> t.prefix == None)
    decreases n
  {
    if n > 0 {
      var events := seq(n, _ => Invalidate);
      assert events[..n - 1] == seq(n - 1, _ => Invalidate);
      ManyInvalidations(s, n - 1);
      WrapStep(Run(s, events[..n - 1]).invalidations);
    }
  }

  lemma {:induction false} RunSplits(s: State, a: seq<Event>, b: seq<Event>)
    ensures Run(s, a + b) == Run(Run(s, a), b)
    decreases |b|
  {
    if b == [] {
      assert a + b == a;
    } else {
      assert (a + b)[..|a + b| - 1] == a + b[..|b| - 1];
      RunSplits(s, a, b[..|b| - 1]);
    }
  }

  /** Freshness does fail for a run of 2^64 invalidations during one fetch. */
  lemma WrapCachesStalePrefix() returns (events: seq<Event>)
    ensures var s := Run(START, events);
            s.prefix.Some? && s.origin.Some? && s.origin.value.began < s.invalidations
  {
    hide Run;
    var good: Prefix := [0xfd, 0, 0, 0, 0, 0, 0, 0];
    var many := seq(U64_LIMIT, _ => Invalidate);
    var s1, s2 := Step(START, Begin(0)), Run(Step(START, Begin(0)), many);
    events := [Begin(0)] + many + [Finish(0, Some(good))];
    RunOne(START, Begin(0));
    RunOne(s2, Finish(0, Some(good)));
    RunSplits(START, [Begin(0)], many);
    RunSplits(START, [Begin(0)] + many, [Finish(0, Some(good))]);
    ManyInvalidations(s1, U64_LIMIT);
    assert s2.generation == U64_LIMIT % U64_LIMIT == 0;
  }

  lemma RunOne(s: State, e: Event)
    ensures Run(s, [e]) == Step(s, e)
  {
    assert [e][..0] == [];
  }

  // ---- The cache itself ----

  /** The atomic parts, each under the cache's lock. The history of the cache is
      kept beside it: every call is one step of `Run`. */
  class Cache {
    var prefix: Option<Prefix>
    var generation: u64
    ghost var running: map<nat, Fetch>
    ghost var invalidations: nat
    ghost var origin: Option<Fetch>
    ghost var events: seq<Event>

    ghost function Value(): State
      reads this
    {
      State(prefix, generation, running, invalidations, origin)
    }

    ghost predicate Reached()
      reads this
    {
      Value() == Run(START, events)
    }

    constructor ()
      ensures Reached() && events == []
    {
      prefix, generation := None, 0;
      running, invalidations, origin, events := map[], 0, None, [];
    }

    /** Fetch `id` asks for the prefix. A hit is fresh, unless the invalidations
        since its fetch began are a positive multiple of 2^64; without one the
        fetch is to be made under the generation `seen`. */
    method Lookup(ghost id: nat) returns (hit: Option<Prefix>, seen: u64)
      requires Reached()
      modifies this
      ensures Reached() && events == old(events) + [Begin(id)] && hit == prefix == old(prefix)
      ensures hit.Some? ==> origin.Some? && MultipleOfWrap(Since(Value(), origin.value))
      ensures hit.Some? && invalidations < U64_LIMIT ==> origin.value.began == invalidations
      ensures hit.None? ==> id in running && running[id] == Fetch(seen, invalidations)
    {
      hit, seen := prefix, generation;
      Extended(events, Begin(id));
      if prefix.None? {
        running := running[id := Fetch(generation, invalidations)];
      }
      events := events + [Begin(id)];
      RunKeeps(events);
      if hit.Some? && invalidations < U64_LIMIT {
        CachedIsFresh(events);
      }
    }

    /** Fetch `id`, made under the generation `seen`, ends. The caller gets what
        was read if it is usable; it is cached exactly when in addition the
        invalidations since the fetch began are a multiple of 2^64. */
    method Store(read: Option<Prefix>, seen: u64, ghost id: nat) returns (r: Result<Prefix>)
      requires Reached() && id in running && running[id].generation == seen
      modifies this
      ensures Reached() && events == old(events) + [Finish(id, read)]
      ensures r.Ok? <==> Usable(read)
      ensures r.Ok? ==> Some(r.value) == read
      ensures var f := old(running[id]);
              && (Usable(read) && MultipleOfWrap(old(invalidations) - f.began)
                  ==> prefix == read && origin == Some(f))
              && (!Usable(read) || !MultipleOfWrap(old(invalidations) - f.began)
                  ==> prefix == old(prefix) && origin == old(origin))
    {
      Extended(events, Finish(id, read));
      RunKeeps(events);
      GenerationRepeats(Value(), running[id]);
      if !Usable(read) {
        r := Err;
      } else {
        if generation == seen {
          prefix := read;
          origin := Some(running[id]);
        }
        r := Ok(read.value);
      }
      running := running - {id};
      events := events + [Finish(id, read)];
    }

    /** Nothing is cached any more, and no fetch under way will be cached until
        2^64 invalidations have passed. */
    method Drop()
      requires Reached()
      modifies this
      ensures Reached() && events == old(events) + [Invalidate] && prefix == None
      ensures running == old(running) && invalidations == old(invalidations) + 1
      ensures forall id :: id in running && Since(Value(), running[id]) < U64_LIMIT ==>
                running[id].generation != generation
    {
      hide Run, MultipleOfWrap;
      Extended(events, Invalidate);
      RunKeeps(events);
      Outdates(Value());
      prefix := None;
      generation := WrappingIncrement(generation);
      origin := None;
      invalidations := invalidations + 1;
      events := events + [Invalidate];
    }
  }

  lemma Outdates(s: State)
    requires Valid(s)
    ensures var t := Step(s, Invalidate);
            forall id :: id in t.running && Since(t, t.running[id]) < U64_LIMIT ==>
              t.running[id].generation != t.generation
  {
    var t := Step(s, Invalidate);
    StepKeeps(s, Invalidate);
    forall id | id in t.running && Since(t, t.running[id]) < U64_LIMIT
      ensures t.running[id].generation != t.generation
    {
      assert FetchOk(s, s.running[id]);
      GenerationRepeats(t, t.running[id]);
    }
  }

  lemma Extended(events: seq<Event>, e: Event)
    ensures Run(START, events + [e]) == Step(Run(START, events), e)
  {
    assert (events + [e])[..|events|] == events;
  }
}
