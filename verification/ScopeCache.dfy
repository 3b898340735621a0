/**
 The scope catalog client's cache (internal/ewwsauth/client.go): answers and "not
 found" are reused for a while, other failures are not. The clock never goes back;
 `cached` and `store` each run under the mutex, the fetch between them does not.
 */
module ScopeCache {
  import opened Wrappers

  type Time = int

  /** What can be cached: a scope, or that the catalog does not know it. */
  datatype Outcome<S> = Found(scope: S) | NotFound

  /** What the catalog answers; any other failure is `Failed`. */
  datatype Reply<S> = Answer(outcome: Outcome<S>) | Failed

  datatype Entry<S> = Entry(outcome: Outcome<S>, expires: Time)

  type Cache<S> = map<string, Entry<S>>

  const DEFAULT_TTL: Time := 300_000_000_000

  /** A time to live that is set counts; otherwise it is five minutes, in nanoseconds. */
  function EffectiveTtl(ttl: Time): (r: Time)
    ensures ttl > 0 ==> r == ttl
    ensures ttl <= 0 ==> r == 5 * 60 * 1_000_000_000
  {
    if ttl <= 0 then DEFAULT_TTL else ttl
  }

  /** `cached` at time `now`. */
  function Lookup<S>(cache: Cache<S>, name: string, now: Time): Option<Outcome<S>> {
    if name in cache && now < cache[name].expires then Some(cache[name].outcome) else None
  }

  /** `store` at time `now`. */
  function Put<S>(cache: Cache<S>, name: string, o: Outcome<S>, now: Time, ttl: Time): Cache<S> {
    cache[name := Entry(o, now + ttl)]
  }

  datatype Answered<S> = Disabled | Cached(o: Outcome<S>) | Fetched(reply: Reply<S>)

  class Client<S(0)> {
    const baseUrl: string
    const clientId: string
    const secret: string
    const cacheTtl: Time
    var cache: Cache<S>

    constructor (baseUrl: string, clientId: string, secret: string, cacheTtl: Time)
      ensures cache == map[]
      ensures this.baseUrl == baseUrl && this.clientId == clientId && this.secret == secret && this.cacheTtl == cacheTtl
    {
      this.baseUrl, this.clientId, this.secret, this.cacheTtl := baseUrl, clientId, secret, cacheTtl;
      this.cache := map[];
    }

    predicate Enabled() { baseUrl != "" && clientId != "" && secret != "" }

    method Read(name: string, now: Time) returns (hit: Option<Outcome<S>>)
      ensures hit == Lookup(cache, name, now)
    {
      if name !in cache || !(now < cache[name].expires) {
        return None;
      }
      return Some(cache[name].outcome);
    }

    method Write(name: string, o: Outcome<S>, now: Time)
      modifies this
      ensures cache == Put(old(cache), name, o, now, EffectiveTtl(cacheTtl))
    {
      var ttl := cacheTtl;
      if ttl <= 0 {
        ttl := DEFAULT_TTL;
      }
      cache := cache[name := Entry(o, now + ttl)];
    }

    /** `Scope`: the clock reads `asked` at the lookup and `done` at the store; `reply` is what a fetch would get. */
    method Scope(name: string, asked: Time, reply: Reply<S>, done: Time) returns (r: Answered<S>)
      modifies this
      ensures r == Disabled <==> baseUrl == "" || clientId == "" || secret == ""
      ensures r == Disabled ==> cache == old(cache)
      ensures r != Disabled ==>
                match Lookup(old(cache), name, asked)
                case Some(o) => r == Cached(o) && cache == old(cache)
                case None =>
                  r == Fetched(reply) && cache == match reply
                    case Answer(o) => Put(old(cache), name, o, done, EffectiveTtl(cacheTtl))
                    case Failed => old(cache)
    {
      if !Enabled() {
        return Disabled;
      }
      var hit := Read(name, asked);
      if hit.Some? {
        return Cached(hit.value);
      }
      if reply.Answer? {
        Write(name, reply.outcome, done);
      }
      return Fetched(reply);
    }
  }

  // ------------------------------------------------------------ callers at the same time

  /** A caller between two requests, or waiting for the catalog since its lookup. */
  datatype Caller = Idle | Fetching(name: string, since: Time)

  datatype Event<S> =
    | Hit(name: string, o: Outcome<S>, at: Time)
    | Miss(name: string, at: Time)
    | Stored(name: string, o: Outcome<S>, at: Time, since: Time)
    | Dropped(name: string, at: Time)

  datatype State<S> = State(cache: Cache<S>, now: Time, callers: seq<Caller>, log: seq<Event<S>>)

  /** A caller takes the mutex for its lookup. */
  predicate LookupStep<S(==)>(s: State<S>, t: State<S>, i: nat, name: string, now: Time) {
    && i < |s.callers| && s.callers[i].Idle? && s.now <= now
    && match Lookup(s.cache, name, now)
       case Some(o) => t == State(s.cache, now, s.callers, s.log + [Hit(name, o, now)])
       case None => t == State(s.cache, now, s.callers[i := Fetching(name, now)], s.log + [Miss(name, now)])
  }

  /** A caller's fetch has ended: it takes the mutex to store an answer, and stores nothing else. */
  predicate ReplyStep<S(==)>(s: State<S>, t: State<S>, i: nat, reply: Reply<S>, now: Time, ttl: Time) {
    && i < |s.callers| && s.callers[i].Fetching? && s.now <= now
    && var c := s.callers[i];
       match reply
       case Answer(o) =>
         t == State(Put(s.cache, c.name, o, now, ttl), now, s.callers[i := Idle],
           s.log + [Stored(c.name, o, now, c.since)])
       case Failed => t == State(s.cache, now, s.callers[i := Idle], s.log + [Dropped(c.name, now)])
  }

  ghost predicate Next<S(!new)>(s: State<S>, t: State<S>, ttl: Time) {
    || (exists i: nat, name: string, now: Time :: LookupStep(s, t, i, name, now))
    || (exists i: nat, reply: Reply<S>, now: Time :: ReplyStep(s, t, i, reply, now, ttl))
  }

  /** Event `j` stored the answer `o` under the name. */
  ghost predicate StoredAt<S>(log: seq<Event<S>>, j: nat, name: string, o: Outcome<S>) {
    j < |log| && log[j].Stored? && log[j].name == name && log[j].o == o
  }

  /** No event from `j` up to `k` stores under the name. */
  predicate NoStore<S>(log: seq<Event<S>>, j: nat, k: nat, name: string) {
    forall m :: j <= m < k && m < |log| ==> !(log[m].Stored? && log[m].name == name)
  }

  /** Event `j` is the last store of the name before `k`, and at `at` it is not older than the ttl. */
  ghost predicate Fresh<S>(log: seq<Event<S>>, j: nat, k: nat, name: string, o: Outcome<S>, at: Time, ttl: Time) {
    j < k && StoredAt(log, j, name, o) && NoStore(log, j + 1, k, name) && log[j].at <= at < log[j].at + ttl
  }

  /** What each event owes to the events before it. */
  ghost predicate Justified<S>(log: seq<Event<S>>, k: nat, ttl: Time)
    requires k < |log|
  {
    match log[k]
    case Hit(name, o, at) => exists j: nat :: Fresh(log, j, k, name, o, at, ttl)
    case Miss(name, at) => forall j: nat :: j < k && log[j].Stored? && log[j].name == name ==> log[j].at + ttl <= at
    case Stored(name, o, at, since) => since <= at && exists j: nat :: j < k && log[j] == Miss(name, since)
    case Dropped(_, _) => true
  }

  /** An entry of the cache is the last thing stored under its name. */
  ghost predicate Backed<S>(s: State<S>, name: string, ttl: Time)
    requires name in s.cache
  {
    exists j: nat :: StoredAt(s.log, j, name, s.cache[name].outcome) && NoStore(s.log, j + 1, |s.log|, name)
                     && s.cache[name].expires == s.log[j].at + ttl
  }

  predicate StoreKept<S>(s: State<S>, j: nat, ttl: Time)
    requires j < |s.log|
  {
    s.log[j].Stored? ==> s.log[j].name in s.cache && s.log[j].at + ttl <= s.cache[s.log[j].name].expires
  }

  /** A caller that waits has missed, and not in the future. */
  ghost predicate Waits<S>(s: State<S>, c: Caller) {
    c.Fetching? ==> c.since <= s.now && exists j: nat :: j < |s.log| && s.log[j] == Miss(c.name, c.since)
  }

  ghost predicate Inv<S>(s: State<S>, ttl: Time) {
    && (forall name :: name in s.cache ==> Backed(s, name, ttl))
    && (forall j :: 0 <= j < |s.log| ==> StoreKept(s, j, ttl) && s.log[j].at <= s.now)
    && (forall k :: 0 <= k < |s.log| ==> Justified(s.log, k, ttl))
    && (forall i :: 0 <= i < |s.callers| ==> Waits(s, s.callers[i]))
  }

  lemma JustifiedStays<S>(log: seq<Event<S>>, e: Event<S>, k: nat, ttl: Time)
    requires k < |log| && Justified(log, k, ttl)
    ensures Justified(log + [e], k, ttl)
  {
    var more := log + [e];
    match log[k]
    case Hit(name, o, at) =>
      var j: nat :| Fresh(log, j, k, name, o, at, ttl);
      assert Fresh(more, j, k, name, o, at, ttl);
    case Miss(_, _) =>
    case Stored(name, _, _, since) =>
      var j: nat :| j < k && log[j] == Miss(name, since);
      assert more[j] == Miss(name, since);
    case Dropped(_, _) =>
  }

  lemma HitJustified<S>(s: State<S>, name: string, o: Outcome<S>, now: Time, ttl: Time)
    requires Inv(s, ttl) && s.now <= now && Lookup(s.cache, name, now) == Some(o)
    ensures Justified(s.log + [Hit(name, o, now)], |s.log|, ttl)
  {
    assert Backed(s, name, ttl);
    var j: nat :| StoredAt(s.log, j, name, o) && NoStore(s.log, j + 1, |s.log|, name)
                  && s.cache[name].expires == s.log[j].at + ttl;
    assert StoreKept(s, j, ttl) && s.log[j].at <= s.now;
    assert Fresh(s.log + [Hit(name, o, now)], j, |s.log|, name, o, now, ttl);
  }

  lemma MissJustified<S>(s: State<S>, name: string, now: Time, ttl: Time)
    requires Inv(s, ttl) && Lookup(s.cache, name, now) == None
    ensures Justified(s.log + [Miss(name, now)], |s.log|, ttl)
  {
    var more := s.log + [Miss(name, now)];
    forall j: nat | j < |s.log| && more[j].Stored? && more[j].name == name ensures more[j].at + ttl <= now {
      assert more[j] == s.log[j] && StoreKept(s, j, ttl);
    }
  }

  /** One more event that stores nothing, with the cache unchanged. */
  lemma QuietStep<S>(s: State<S>, t: State<S>, e: Event<S>, ttl: Time)
    requires Inv(s, ttl) && t.cache == s.cache && t.log == s.log + [e] && !e.Stored? && e.at == t.now >= s.now
    requires Justified(t.log, |s.log|, ttl)
    requires forall i :: 0 <= i < |t.callers| ==> Waits(t, t.callers[i])
    ensures Inv(t, ttl)
  {
    forall name | name in t.cache ensures Backed(t, name, ttl) {
      assert Backed(s, name, ttl);
      var j: nat :| StoredAt(s.log, j, name, s.cache[name].outcome) && NoStore(s.log, j + 1, |s.log|, name)
                    && s.cache[name].expires == s.log[j].at + ttl;
      assert StoredAt(t.log, j, name, t.cache[name].outcome) && NoStore(t.log, j + 1, |t.log|, name);
    }
    forall k | 0 <= k < |t.log| ensures Justified(t.log, k, ttl) {
      if k < |s.log| {
        JustifiedStays(s.log, e, k, ttl);
      }
    }
    forall j | 0 <= j < |t.log| ensures StoreKept(t, j, ttl) && t.log[j].at <= t.now {
      assert j < |s.log| ==> StoreKept(s, j, ttl) && t.log[j] == s.log[j];
    }
  }

  lemma WaitsStays<S>(s: State<S>, t: State<S>, e: Event<S>, c: Caller)
    requires Waits(s, c) && t.log == s.log + [e] && s.now <= t.now
    ensures Waits(t, c)
  {
    if c.Fetching? {
      var j: nat :| j < |s.log| && s.log[j] == Miss(c.name, c.since);
      assert t.log[j] == Miss(c.name, c.since);
    }
  }

  lemma LookupKeepsInv<S>(s: State<S>, t: State<S>, i: nat, name: string, now: Time, ttl: Time)
    requires Inv(s, ttl) && LookupStep(s, t, i, name, now)
    ensures Inv(t, ttl)
  {
    var e := t.log[|s.log|];
    forall k | 0 <= k < |t.callers| ensures Waits(t, t.callers[k]) {
      if t.callers[k] == s.callers[k] {
        assert Waits(s, s.callers[k]);
        WaitsStays(s, t, e, s.callers[k]);
      } else {
        assert t.log[|s.log|] == Miss(name, now);
      }
    }
    if Lookup(s.cache, name, now).Some? {
      HitJustified(s, name, e.o, now, ttl);
    } else {
      MissJustified(s, name, now, ttl);
    }
    QuietStep(s, t, e, ttl);
  }

  lemma WaitersStay<S>(s: State<S>, t: State<S>, i: nat, e: Event<S>, ttl: Time)
    requires Inv(s, ttl) && i < |s.callers| && t.callers == s.callers[i := Idle]
    requires t.log == s.log + [e] && s.now <= t.now
    ensures forall k :: 0 <= k < |t.callers| ==> Waits(t, t.callers[k])
  {
    forall k | 0 <= k < |t.callers| ensures Waits(t, t.callers[k]) {
      if k != i {
        assert Waits(s, s.callers[k]);
        WaitsStays(s, t, e, s.callers[k]);
      }
    }
  }

  lemma StoreJustified<S>(s: State<S>, c: Caller, o: Outcome<S>, now: Time, ttl: Time)
    requires c.Fetching? && Waits(s, c) && s.now <= now
    ensures Justified(s.log + [Stored(c.name, o, now, c.since)], |s.log|, ttl)
  {
    var more := s.log + [Stored(c.name, o, now, c.since)];
    var j: nat :| j < |s.log| && s.log[j] == Miss(c.name, c.since);
    assert more[j] == Miss(c.name, c.since);
  }

  lemma StoreBacks<S>(s: State<S>, t: State<S>, c: Caller, o: Outcome<S>, now: Time, ttl: Time, name: string)
    requires Inv(s, ttl) && c.Fetching? && t.cache == Put(s.cache, c.name, o, now, ttl) && name in t.cache
    requires t.log == s.log + [Stored(c.name, o, now, c.since)]
    ensures Backed(t, name, ttl)
  {
    var n := |s.log|;
    if name == c.name {
      assert StoredAt(t.log, n, name, o) && NoStore(t.log, n + 1, |t.log|, name) && t.log[n].at == now;
    } else {
      assert Backed(s, name, ttl);
      var j: nat :| StoredAt(s.log, j, name, s.cache[name].outcome) && NoStore(s.log, j + 1, |s.log|, name)
                    && s.cache[name].expires == s.log[j].at + ttl;
      assert StoredAt(t.log, j, name, t.cache[name].outcome) && NoStore(t.log, j + 1, |t.log|, name);
    }
  }

  lemma StoreStepKeepsInv<S>(s: State<S>, t: State<S>, i: nat, o: Outcome<S>, now: Time, ttl: Time)
    requires Inv(s, ttl) && ReplyStep(s, t, i, Answer(o), now, ttl)
    ensures Inv(t, ttl)
  {
    var c := s.callers[i];
    var e := Stored(c.name, o, now, c.since);
    assert Waits(s, c);
    StoreJustified(s, c, o, now, ttl);
    WaitersStay(s, t, i, e, ttl);
    forall name | name in t.cache ensures Backed(t, name, ttl) {
      StoreBacks(s, t, c, o, now, ttl, name);
    }
    forall k | 0 <= k < |t.log| ensures Justified(t.log, k, ttl) {
      if k < |s.log| {
        JustifiedStays(s.log, e, k, ttl);
      }
    }
    forall j | 0 <= j < |t.log| ensures StoreKept(t, j, ttl) && t.log[j].at <= t.now {
      assert j < |s.log| ==> StoreKept(s, j, ttl) && t.log[j] == s.log[j] && s.log[j].at <= s.now;
    }
  }

  lemma NextKeepsInv<S(!new)>(s: State<S>, t: State<S>, ttl: Time)
    requires Inv(s, ttl) && Next(s, t, ttl)
    ensures Inv(t, ttl)
  {
    if i: nat, name: string, now: Time :| LookupStep(s, t, i, name, now) {
      LookupKeepsInv(s, t, i, name, now, ttl);
    } else {
      var i: nat, reply: Reply<S>, now: Time :| ReplyStep(s, t, i, reply, now, ttl);
      match reply
      case Answer(o) => StoreStepKeepsInv(s, t, i, o, now, ttl);
      case Failed =>
        WaitersStay(s, t, i, Dropped(s.callers[i].name, now), ttl);
        QuietStep(s, t, Dropped(s.callers[i].name, now), ttl);
    }
  }

  // --------------------------------------------------------------------------- all runs

  /** An empty cache, idle callers, and any number of steps. */
  ghost predicate Run<S(!new)>(run: seq<State<S>>, ttl: Time) {
    && run != [] && run[0].cache == map[] && run[0].log == []
    && (forall i :: 0 <= i < |run[0].callers| ==> run[0].callers[i] == Idle)
    && (forall k :: 0 <= k < |run| - 1 ==> Next(run[k], run[k + 1], ttl))
  }

  lemma {:induction false} RunKeepsInv<S(!new)>(run: seq<State<S>>, k: nat, ttl: Time)
    requires Run(run, ttl) && k < |run|
    ensures Inv(run[k], ttl)
  {
    if k > 0 {
      RunKeepsInv(run, k - 1, ttl);
      assert Next(run[k - 1], run[k - 1 + 1], ttl);
      NextKeepsInv(run[k - 1], run[k], ttl);
    }
  }

  /** Every hit hands out the last thing stored under its name, stored less than the ttl ago. */
  lemma HitsAreFresh<S(!new)>(run: seq<State<S>>, k: nat, e: nat, ttl: Time)
    requires Run(run, ttl) && k < |run| && e < |run[k].log| && run[k].log[e].Hit?
    ensures var h := run[k].log[e];
            exists j: nat :: Fresh(run[k].log, j, e, h.name, h.o, h.at, ttl)
  {
    RunKeepsInv(run, k, ttl);
    assert Justified(run[k].log, e, ttl);
  }

  /** A fetch starts only when everything stored under its name is at least the ttl old. */
  lemma FetchesAreNeeded<S(!new)>(run: seq<State<S>>, k: nat, j: nat, e: nat, ttl: Time)
    requires Run(run, ttl) && k < |run| && j < e < |run[k].log|
    requires run[k].log[j].Stored? && run[k].log[e].Miss? && run[k].log[j].name == run[k].log[e].name
    ensures run[k].log[j].at + ttl <= run[k].log[e].at
  {
    RunKeepsInv(run, k, ttl);
    assert Justified(run[k].log, e, ttl);
  }

  /**
   One request after the other: a fetch that could be cached and the next fetch of the
   same name start at least the ttl apart.
   */
  lemma FetchesAreApart<S(!new)>(run: seq<State<S>>, k: nat, j: nat, e: nat, ttl: Time)
    requires Run(run, ttl) && k < |run| && j < e < |run[k].log|
    requires run[k].log[j].Stored? && run[k].log[e].Miss? && run[k].log[j].name == run[k].log[e].name
    ensures run[k].log[j].since + ttl <= run[k].log[e].at
  {
    FetchesAreNeeded(run, k, j, e, ttl);
    RunKeepsInv(run, k, ttl);
    assert Justified(run[k].log, j, ttl);
  }

  /** What the cache holds was stored by a caller that had missed, and only answers are stored. */
  lemma CacheHoldsAnswers<S(!new)>(run: seq<State<S>>, k: nat, name: string, ttl: Time)
    requires Run(run, ttl) && k < |run| && name in run[k].cache
    ensures exists j: nat :: StoredAt(run[k].log, j, name, run[k].cache[name].outcome)
              && run[k].cache[name].expires == run[k].log[j].at + ttl
  {
    RunKeepsInv(run, k, ttl);
    assert Backed(run[k], name, ttl);
  }
}
