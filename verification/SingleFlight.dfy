/**
 * Single-flight compiler-info lookup in the goma include processor
 * (`GetCompilerInfo` and `GetCompilerInfoInternal` in internal/pkg/scandeps/goma_include_processor.cc).
 *
 * Any number of requests run concurrently. A request that misses the cache either becomes the leader for its
 * key or joins the waiter list of the present leader; the leader looks again, builds and stores on a second
 * miss, takes the waiter list away under the lock, and answers itself and then its waiters.
 */
module SingleFlight {
  import opened Lists
  import opened Traces
  import opened Wrappers

  type Key = string
  type Info = string

  /** `pending` is the waiter list a leader has taken out of the table and not worked off yet. */
  datatype Phase =
    | Arrived | Missed | Waiting
    | Leading | Building | Storing(built: Info) | Holding(info: Info)
    | Erased(info: Info, pending: seq<nat>) | Answering(info: Info, pending: seq<nat>)
    | Done

  /** `calls` counts runs of the callback; `follows` records whose list the request joined. */
  datatype Request = Request(key: Key, phase: Phase, calls: nat, answer: Option<Info>, follows: Option<nat>)

  /** A list in compiler_info_waiters_; `leader` is the request whose call created it. */
  datatype Entry = Entry(leader: nat, list: seq<nat>)

  /** `builds` has one element per build of a key; `evicted` and `checkFailed` record that such an event happened. */
  datatype State = State(
    requests: seq<Request>, cache: map<Key, Info>, waiters: map<Key, Entry>,
    builds: multiset<Key>, evicted: bool, checkFailed: bool)

  const INIT := State([], map[], map[], multiset{}, false, false)

  datatype Step =
    | Arrive(key: Key)
    | FirstLookup(r: nat) | Register(r: nat) | SecondLookup(r: nat) | Build(r: nat, info: Info) | Store(r: nat)
    | Erase(r: nat) | AnswerSelf(r: nat) | AnswerNext(r: nat)
    | Evict(key: Key)

  function PhaseOf(s: State, r: nat): Phase
    requires r < |s.requests|
  {
    s.requests[r].phase
  }

  predicate Enabled(s: State, step: Step) {
    match step
    case Arrive(_) => true
    case FirstLookup(r) => r < |s.requests| && PhaseOf(s, r).Arrived?
    case Register(r) => r < |s.requests| && PhaseOf(s, r).Missed?
    case SecondLookup(r) => r < |s.requests| && PhaseOf(s, r).Leading?
    case Build(r, _) => r < |s.requests| && PhaseOf(s, r).Building?
    case Store(r) => r < |s.requests| && PhaseOf(s, r).Storing?
    case Erase(r) => r < |s.requests| && PhaseOf(s, r).Holding?
    case AnswerSelf(r) => r < |s.requests| && PhaseOf(s, r).Erased?
    case AnswerNext(r) =>
      && r < |s.requests| && PhaseOf(s, r).Answering?
      && PhaseOf(s, r).pending != [] && PhaseOf(s, r).pending[0] < |s.requests|
    case Evict(key) => key in s.cache
  }

  /** The critical section of GetCompilerInfo: create the list for the key, or join it. */
  function Registered(waiters: map<Key, Entry>, key: Key, r: nat): map<Key, Entry> {
    if key in waiters then waiters[key := waiters[key].(list := waiters[key].list + [r])]
    else waiters[key := Entry(r, [])]
  }

  function At(s: State, r: nat, phase: Phase): seq<Request>
    requires r < |s.requests|
  {
    s.requests[r := s.requests[r].(phase := phase)]
  }

  /** The callback of `r` runs with `info` in its parameter. */
  function Answered(q: Request, info: Info, phase: Phase): Request {
    q.(phase := phase, calls := q.calls + 1, answer := Some(info))
  }

  /** After an answer the leader goes on with its list, or is done. */
  function Rest(info: Info, pending: seq<nat>): Phase {
    if pending == [] then Done else Answering(info, pending)
  }

  function Apply(s: State, step: Step): State
    requires Enabled(s, step)
  {
    match step
    case Arrive(key) => s.(requests := s.requests + [Request(key, Arrived, 0, None, None)])
    case FirstLookup(r) =>
      var q := s.requests[r];
      if q.key in s.cache then s.(requests := s.requests[r := Answered(q, s.cache[q.key], Done)])
      else s.(requests := At(s, r, Missed))
    case Register(r) =>
      var q := s.requests[r];
      var q' := if q.key in s.waiters then q.(phase := Waiting, follows := Some(s.waiters[q.key].leader))
                else q.(phase := Leading);
      s.(requests := s.requests[r := q'], waiters := Registered(s.waiters, q.key, r))
    case SecondLookup(r) =>
      var key := s.requests[r].key;
      s.(requests := At(s, r, if key in s.cache then Holding(s.cache[key]) else Building))
    case Build(r, info) =>
      s.(requests := At(s, r, Storing(info)), builds := s.builds + multiset{s.requests[r].key})
    case Store(r) =>
      var info := PhaseOf(s, r).built;
      s.(requests := At(s, r, Holding(info)), cache := s.cache[s.requests[r].key := info])
    case Erase(r) =>
      var key := s.requests[r].key;
      if key !in s.waiters then s.(checkFailed := true, requests := At(s, r, Done))
      else s.(requests := At(s, r, Erased(PhaseOf(s, r).info, s.waiters[key].list)), waiters := s.waiters - {key})
    case AnswerSelf(r) =>
      var p := PhaseOf(s, r);
      s.(requests := s.requests[r := Answered(s.requests[r], p.info, Rest(p.info, p.pending))])
    case AnswerNext(r) =>
      var p := PhaseOf(s, r);
      var w := p.pending[0];
      var requests := s.requests[w := Answered(s.requests[w], p.info, Done)];
      s.(requests := requests[r := requests[r].(phase := Rest(p.info, p.pending[1..]))])
    case Evict(key) => s.(cache := s.cache - {key}, evicted := true)
  }

  function Run(run: Trace<Step>): Option<State> {
    match run
    case Start => Some(INIT)
    case Then(before, step) =>
      var s := Run(before);
      if s.Some? && Enabled(s.value, step) then Some(Apply(s.value, step)) else None
  }

  // ---------------------------------------------------------------------------------------------
  // The inductive invariant
  // ---------------------------------------------------------------------------------------------

  /** Between creating the list for a key and taking it away again. */
  predicate InFlight(p: Phase) {
    p.Leading? || p.Building? || p.Storing? || p.Holding?
  }

  /** The waiters a request still has to answer, wherever the list is. */
  function Followers(s: State, r: nat): seq<nat>
    requires r < |s.requests|
  {
    var q := s.requests[r];
    if InFlight(q.phase) then (if q.key in s.waiters then s.waiters[q.key].list else [])
    else if q.phase.Erased? || q.phase.Answering? then q.phase.pending
    else []
  }

  ghost predicate Answers(q: Request) {
    q.phase.Done? || q.phase.Answering?
  }

  /** A callback has run exactly when the phase says so. */
  ghost predicate CallInv(q: Request) {
    && q.calls == (if Answers(q) then 1 else 0)
    && (q.answer.Some? <==> Answers(q))
    && (q.phase.Answering? ==> q.answer == Some(q.phase.info) && q.phase.pending != [])
    && (q.phase.Arrived? || q.phase.Missed? || InFlight(q.phase) || q.phase.Erased? || q.phase.Answering? ==> q.follows.None?)
    && (q.phase.Waiting? ==> q.follows.Some?)
  }

  /** The table holds an entry for a key exactly while a request for it is in flight, and names that request. */
  ghost predicate TableInv(s: State) {
    && (forall k :: k in s.waiters ==>
          && s.waiters[k].leader < |s.requests|
          && s.requests[s.waiters[k].leader].key == k
          && InFlight(PhaseOf(s, s.waiters[k].leader)))
    && (forall r :: 0 <= r < |s.requests| && InFlight(s.requests[r].phase) ==>
          s.requests[r].key in s.waiters && s.waiters[s.requests[r].key].leader == r)
  }

  /** Every waiting request is in the list of the leader it follows, exactly once. */
  ghost predicate ListInv(s: State) {
    && (forall w :: 0 <= w < |s.requests| && s.requests[w].phase.Waiting? ==>
          && s.requests[w].follows.Some?
          && s.requests[w].follows.value < |s.requests|
          && w in Followers(s, s.requests[w].follows.value))
    && (forall r :: 0 <= r < |s.requests| ==> ListOk(s, r))
  }

  /** The list of `r` holds distinct requests that wait for `r`. */
  ghost predicate ListOk(s: State, r: nat)
    requires r < |s.requests|
  {
    && (forall w :: w in Followers(s, r) ==>
          w < |s.requests| && s.requests[w].phase.Waiting? && s.requests[w].follows == Some(r))
    && Unique(Followers(s, r))
  }

  /** A request follows one with the same key, and is answered after it, with the same state. */
  ghost predicate LeaderInv(s: State) {
    forall w :: 0 <= w < |s.requests| && s.requests[w].follows.Some? ==>
      var l := s.requests[w].follows.value;
      && l < |s.requests|
      && s.requests[l].key == s.requests[w].key
      && (Answers(s.requests[w]) ==> Answers(s.requests[l]) && s.requests[w].answer == s.requests[l].answer)
  }

  /** As long as nothing was evicted, a key is built at most once and everyone holds the cached state. */
  ghost predicate CacheInv(s: State) {
    !s.evicted ==>
      && (forall k :: s.builds[k] <= 1)
      && (forall r :: 0 <= r < |s.requests| ==> RequestCacheInv(s, s.requests[r]))
      && (forall k :: k in s.builds ==> k in s.cache || BeingStored(s, k))
  }

  ghost predicate BeingStored(s: State, k: Key) {
    k in s.waiters && s.waiters[k].leader < |s.requests| && PhaseOf(s, s.waiters[k].leader).Storing?
  }

  ghost predicate RequestCacheInv(s: State, q: Request) {
    && (q.phase.Building? ==> q.key !in s.cache && s.builds[q.key] == 0)
    && (q.phase.Storing? ==> q.key !in s.cache)
    && (q.phase.Holding? || q.phase.Erased? || q.phase.Answering? ==>
          q.key in s.cache && s.cache[q.key] == q.phase.info)
    && (q.answer.Some? ==> q.key in s.cache && s.cache[q.key] == q.answer.value)
  }

  ghost predicate CallsInv(s: State) {
    !s.checkFailed && forall r :: 0 <= r < |s.requests| ==> CallInv(s.requests[r])
  }

  ghost predicate Inv(s: State) {
    CallsInv(s) && TableInv(s) && ListInv(s) && LeaderInv(s) && CacheInv(s)
  }

  /** A step that changes no list of followers and nobody's waiting. */
  lemma SameLists(s: State, t: State)
    requires ListInv(s) && |t.requests| == |s.requests|
    requires forall x :: 0 <= x < |s.requests| ==> SameFollowing(s, t, x)
    ensures ListInv(t)
  {
    forall x | 0 <= x < |t.requests|
      ensures ListOk(t, x)
    {
      assert SameFollowing(s, t, x) && ListOk(s, x);
      assert forall w :: w in Followers(s, x) ==> SameFollowing(s, t, w);
    }
    forall w | 0 <= w < |t.requests| && t.requests[w].phase.Waiting?
      ensures t.requests[w].follows.Some? && t.requests[w].follows.value < |t.requests|
      ensures w in Followers(t, t.requests[w].follows.value)
    {
      assert SameFollowing(s, t, w) && SameFollowing(s, t, s.requests[w].follows.value);
    }
  }

  ghost predicate SameFollowing(s: State, t: State, x: nat)
    requires x < |s.requests| == |t.requests|
  {
    && Followers(t, x) == Followers(s, x)
    && (t.requests[x].phase.Waiting? <==> s.requests[x].phase.Waiting?)
    && t.requests[x].follows == s.requests[x].follows
  }

  lemma FirstLookupKeepsTable(s: State, r: nat)
    requires CallsInv(s) && TableInv(s) && Enabled(s, FirstLookup(r))
    ensures CallsInv(Apply(s, FirstLookup(r))) && TableInv(Apply(s, FirstLookup(r)))
  {
  }

  lemma FirstLookupKeepsLists(s: State, r: nat)
    requires CallsInv(s) && TableInv(s) && ListInv(s) && Enabled(s, FirstLookup(r))
    ensures ListInv(Apply(s, FirstLookup(r)))
  {
    SameLists(s, Apply(s, FirstLookup(r)));
  }

  lemma FirstLookupKeepsLeaders(s: State, r: nat)
    requires CallsInv(s) && TableInv(s) && LeaderInv(s) && Enabled(s, FirstLookup(r))
    ensures LeaderInv(Apply(s, FirstLookup(r)))
  {
  }

  lemma FirstLookupKeepsCache(s: State, r: nat)
    requires CallsInv(s) && TableInv(s) && CacheInv(s) && Enabled(s, FirstLookup(r))
    ensures CacheInv(Apply(s, FirstLookup(r)))
  {
  }

  lemma RegisterKeepsCalls(s: State, r: nat)
    requires CallsInv(s) && Enabled(s, Register(r))
    ensures CallsInv(Apply(s, Register(r)))
  {
  }

  lemma RegisterKeepsTable(s: State, r: nat)
    requires TableInv(s) && Enabled(s, Register(r))
    ensures TableInv(Apply(s, Register(r)))
  {
  }

  lemma JoiningKeepsLists(s: State, r: nat)
    requires TableInv(s) && ListInv(s) && Enabled(s, Register(r)) && s.requests[r].key in s.waiters
    ensures ListInv(Apply(s, Register(r)))
  {
    var t := Apply(s, Register(r));
    var l := s.waiters[s.requests[r].key].leader;
    assert ListOk(s, l);
    assert Followers(t, l) == Followers(s, l) + [r];
    assert ListOk(t, l);
    forall x | 0 <= x < |s.requests| && x != l ensures Followers(t, x) == Followers(s, x) && ListOk(t, x) {
      assert ListOk(s, x);
    }
  }

  lemma LeadingKeepsLists(s: State, r: nat)
    requires TableInv(s) && ListInv(s) && Enabled(s, Register(r)) && s.requests[r].key !in s.waiters
    ensures ListInv(Apply(s, Register(r)))
  {
    SameLists(s, Apply(s, Register(r)));
  }

  lemma RegisterKeepsLists(s: State, r: nat)
    requires TableInv(s) && ListInv(s) && Enabled(s, Register(r))
    ensures ListInv(Apply(s, Register(r)))
  {
    if s.requests[r].key in s.waiters {
      JoiningKeepsLists(s, r);
    } else {
      LeadingKeepsLists(s, r);
    }
  }

  lemma RegisterKeepsLeaders(s: State, r: nat)
    requires CallsInv(s) && TableInv(s) && LeaderInv(s) && Enabled(s, Register(r))
    ensures LeaderInv(Apply(s, Register(r)))
  {
  }

  lemma RegisterKeepsCache(s: State, r: nat)
    requires CallsInv(s) && TableInv(s) && CacheInv(s) && Enabled(s, Register(r))
    ensures CacheInv(Apply(s, Register(r)))
  {
  }

  /** A leader moving on within its flight changes neither the table nor any list. */
  lemma FlightKeepsLists(s: State, r: nat, phase: Phase, t: State)
    requires CallsInv(s) && TableInv(s) && ListInv(s) && LeaderInv(s)
    requires r < |s.requests| && InFlight(PhaseOf(s, r)) && InFlight(phase)
    requires t.requests == At(s, r, phase) && t.waiters == s.waiters && t.checkFailed == s.checkFailed
    ensures CallsInv(t) && TableInv(t) && ListInv(t) && LeaderInv(t)
  {
    FlightKeepsTable(s, r, phase, t);
    SameLists(s, t);
    FlightKeepsLeaders(s, r, phase, t);
  }

  lemma FlightKeepsTable(s: State, r: nat, phase: Phase, t: State)
    requires CallsInv(s) && TableInv(s)
    requires r < |s.requests| && InFlight(PhaseOf(s, r)) && InFlight(phase)
    requires t.requests == At(s, r, phase) && t.waiters == s.waiters && t.checkFailed == s.checkFailed
    ensures CallsInv(t) && TableInv(t)
  {
  }

  lemma FlightKeepsLeaders(s: State, r: nat, phase: Phase, t: State)
    requires CallsInv(s) && LeaderInv(s)
    requires r < |s.requests| && InFlight(PhaseOf(s, r)) && InFlight(phase)
    requires t.requests == At(s, r, phase)
    ensures LeaderInv(t)
  {
  }

  lemma SecondLookupKeepsInv(s: State, r: nat)
    requires Inv(s) && Enabled(s, SecondLookup(r))
    ensures Inv(Apply(s, SecondLookup(r)))
  {
    var t := Apply(s, SecondLookup(r));
    FlightKeepsLists(s, r, PhaseOf(t, r), t);
  }

  lemma BuildKeepsInv(s: State, r: nat, info: Info)
    requires Inv(s) && Enabled(s, Build(r, info))
    ensures Inv(Apply(s, Build(r, info)))
  {
    var t := Apply(s, Build(r, info));
    FlightKeepsLists(s, r, PhaseOf(t, r), t);
    BuildKeepsCache(s, r, info);
  }

  lemma BuildKeepsCache(s: State, r: nat, info: Info)
    requires CallsInv(s) && TableInv(s) && CacheInv(s) && Enabled(s, Build(r, info))
    ensures CacheInv(Apply(s, Build(r, info)))
  {
  }

  lemma StoreKeepsInv(s: State, r: nat)
    requires Inv(s) && Enabled(s, Store(r))
    ensures Inv(Apply(s, Store(r)))
  {
    var t := Apply(s, Store(r));
    FlightKeepsLists(s, r, PhaseOf(t, r), t);
  }

  lemma EraseKeepsTable(s: State, r: nat)
    requires CallsInv(s) && TableInv(s) && Enabled(s, Erase(r))
    ensures CallsInv(Apply(s, Erase(r))) && TableInv(Apply(s, Erase(r)))
  {
  }

  lemma EraseKeepsLists(s: State, r: nat)
    requires CallsInv(s) && TableInv(s) && ListInv(s) && Enabled(s, Erase(r))
    ensures ListInv(Apply(s, Erase(r)))
  {
    SameLists(s, Apply(s, Erase(r)));
  }

  lemma EraseKeepsLeaders(s: State, r: nat)
    requires CallsInv(s) && TableInv(s) && LeaderInv(s) && Enabled(s, Erase(r))
    ensures LeaderInv(Apply(s, Erase(r)))
  {
  }

  lemma EraseKeepsCache(s: State, r: nat)
    requires CallsInv(s) && TableInv(s) && CacheInv(s) && Enabled(s, Erase(r))
    ensures CacheInv(Apply(s, Erase(r)))
  {
  }

  lemma AnswerSelfKeepsTable(s: State, r: nat)
    requires CallsInv(s) && TableInv(s) && Enabled(s, AnswerSelf(r))
    ensures CallsInv(Apply(s, AnswerSelf(r))) && TableInv(Apply(s, AnswerSelf(r)))
  {
  }

  lemma AnswerSelfKeepsLists(s: State, r: nat)
    requires CallsInv(s) && TableInv(s) && ListInv(s) && Enabled(s, AnswerSelf(r))
    ensures ListInv(Apply(s, AnswerSelf(r)))
  {
    SameLists(s, Apply(s, AnswerSelf(r)));
  }

  lemma AnswerSelfKeepsLeaders(s: State, r: nat)
    requires CallsInv(s) && TableInv(s) && LeaderInv(s) && Enabled(s, AnswerSelf(r))
    ensures LeaderInv(Apply(s, AnswerSelf(r)))
  {
  }

  lemma AnswerSelfKeepsCache(s: State, r: nat)
    requires CallsInv(s) && TableInv(s) && CacheInv(s) && Enabled(s, AnswerSelf(r))
    ensures CacheInv(Apply(s, AnswerSelf(r)))
  {
  }

  lemma AnswerNextKeepsCalls(s: State, r: nat)
    requires CallsInv(s) && ListInv(s) && Enabled(s, AnswerNext(r))
    ensures CallsInv(Apply(s, AnswerNext(r)))
  {
    assert ListOk(s, r);
    assert Followers(s, r)[0] in Followers(s, r);
  }

  lemma AnswerNextKeepsTable(s: State, r: nat)
    requires TableInv(s) && ListInv(s) && Enabled(s, AnswerNext(r))
    ensures TableInv(Apply(s, AnswerNext(r)))
  {
    assert ListOk(s, r);
    assert Followers(s, r)[0] in Followers(s, r);
  }

  lemma AnswerNextKeepsListOk(s: State, r: nat, x: nat)
    requires ListInv(s) && Enabled(s, AnswerNext(r)) && x < |s.requests|
    ensures ListOk(Apply(s, AnswerNext(r)), x)
    ensures Followers(Apply(s, AnswerNext(r)), x) == if x == r then Followers(s, r)[1..] else Followers(s, x)
  {
    var t := Apply(s, AnswerNext(r));
    var w := Followers(s, r)[0];
    assert ListOk(s, r) && ListOk(s, x);
    assert w !in Followers(t, x);
    assert forall y: nat | y < |s.requests| && y != w && y != r :: t.requests[y] == s.requests[y];
  }

  lemma AnswerNextKeepsLists(s: State, r: nat)
    requires CallsInv(s) && TableInv(s) && ListInv(s) && Enabled(s, AnswerNext(r))
    ensures ListInv(Apply(s, AnswerNext(r)))
  {
    var t := Apply(s, AnswerNext(r));
    assert ListOk(s, r);
    forall x: nat | x < |s.requests| {
      AnswerNextKeepsListOk(s, r, x);
    }
  }

  lemma AnswerNextKeepsAnswers(s: State, r: nat)
    requires Inv(s) && Enabled(s, AnswerNext(r))
    ensures LeaderInv(Apply(s, AnswerNext(r))) && CacheInv(Apply(s, AnswerNext(r)))
  {
    assert ListOk(s, r);
    var w := Followers(s, r)[0];
    assert w in Followers(s, r) && w != r && s.requests[w].follows == Some(r);
    AnswerNextKeepsCache(s, r);
  }

  lemma AnswerNextKeepsCache(s: State, r: nat)
    requires Inv(s) && Enabled(s, AnswerNext(r))
    ensures CacheInv(Apply(s, AnswerNext(r)))
  {
    var t := Apply(s, AnswerNext(r));
    var w := Followers(s, r)[0];
    assert ListOk(s, r) && w in Followers(s, r);
    if !s.evicted {
      assert RequestCacheInv(s, s.requests[r]);
      forall x | 0 <= x < |t.requests| ensures RequestCacheInv(t, t.requests[x]) {
        assert RequestCacheInv(s, s.requests[x]);
      }
    }
  }

  lemma ArriveKeepsLists(s: State, key: Key)
    requires CallsInv(s) && TableInv(s) && ListInv(s)
    ensures ListInv(Apply(s, Arrive(key)))
  {
    var t := Apply(s, Arrive(key));
    forall x | 0 <= x < |s.requests| ensures Followers(t, x) == Followers(s, x) && ListOk(t, x) {
      assert ListOk(s, x);
    }
    assert Followers(t, |s.requests|) == [];
  }

  lemma ArriveKeepsInv(s: State, key: Key)
    requires Inv(s)
    ensures Inv(Apply(s, Arrive(key)))
  {
    ArriveKeepsLists(s, key);
  }

  lemma EvictKeepsInv(s: State, key: Key)
    requires Inv(s) && Enabled(s, Evict(key))
    ensures Inv(Apply(s, Evict(key)))
  {
    SameLists(s, Apply(s, Evict(key)));
  }

  lemma StepKeepsInv(s: State, step: Step)
    requires Inv(s) && Enabled(s, step)
    ensures Inv(Apply(s, step))
  {
    match step
    case Arrive(key) => ArriveKeepsInv(s, key);
    case FirstLookup(r) =>
      FirstLookupKeepsTable(s, r);
      FirstLookupKeepsLists(s, r);
      FirstLookupKeepsLeaders(s, r);
      FirstLookupKeepsCache(s, r);
    case Register(r) =>
      RegisterKeepsCalls(s, r);
      RegisterKeepsTable(s, r);
      RegisterKeepsLists(s, r);
      RegisterKeepsLeaders(s, r);
      RegisterKeepsCache(s, r);
    case SecondLookup(r) => SecondLookupKeepsInv(s, r);
    case Build(r, info) => BuildKeepsInv(s, r, info);
    case Store(r) => StoreKeepsInv(s, r);
    case Erase(r) =>
      EraseKeepsTable(s, r);
      EraseKeepsLists(s, r);
      EraseKeepsLeaders(s, r);
      EraseKeepsCache(s, r);
    case AnswerSelf(r) =>
      AnswerSelfKeepsTable(s, r);
      AnswerSelfKeepsLists(s, r);
      AnswerSelfKeepsLeaders(s, r);
      AnswerSelfKeepsCache(s, r);
    case AnswerNext(r) =>
      AnswerNextKeepsCalls(s, r);
      AnswerNextKeepsTable(s, r);
      AnswerNextKeepsLists(s, r);
      AnswerNextKeepsAnswers(s, r);
    case Evict(key) => EvictKeepsInv(s, key);
  }

  lemma {:induction false} RunKeepsInv(run: Trace<Step>)
    requires Run(run).Some?
    ensures Inv(Run(run).value)
  {
    match run
    case Start =>
    case Then(before, step) =>
      RunKeepsInv(before);
      StepKeepsInv(Run(before).value, step);
  }

  // ---------------------------------------------------------------------------------------------
  // Guarantees over all runs
  // ---------------------------------------------------------------------------------------------

  /** No callback ever runs twice, and none runs without a compiler-info state. */
  lemma CallbackAtMostOnce(run: Trace<Step>, r: nat)
    requires Run(run).Some? && r < |Run(run).value.requests|
    ensures var q := Run(run).value.requests[r];
      q.calls <= 1 && (q.calls == 1 <==> q.answer.Some?)
  {
    RunKeepsInv(run);
    assert CallInv(Run(run).value.requests[r]);
  }

  /** At most one request per key is between creating and taking away the waiter list, so both CHECKs hold. */
  lemma OneLookupInFlight(run: Trace<Step>, r: nat, r': nat)
    requires Run(run).Some? && r < |Run(run).value.requests| && r' < |Run(run).value.requests|
    requires InFlight(PhaseOf(Run(run).value, r)) && InFlight(PhaseOf(Run(run).value, r'))
    requires Run(run).value.requests[r].key == Run(run).value.requests[r'].key
    ensures r == r'
    ensures !Run(run).value.checkFailed && Run(run).value.requests[r].key in Run(run).value.waiters
  {
    RunKeepsInv(run);
  }

  /** A request that waited for another one gets that one's state, and only after it was answered itself. */
  lemma FollowerGetsLeadersState(run: Trace<Step>, w: nat)
    requires Run(run).Some? && w < |Run(run).value.requests|
    requires Run(run).value.requests[w].follows.Some? && Run(run).value.requests[w].calls > 0
    ensures var s := Run(run).value;
      var l := s.requests[w].follows.value;
      && l < |s.requests| && s.requests[l].key == s.requests[w].key
      && s.requests[l].calls == 1 && s.requests[w].answer == s.requests[l].answer
  {
    RunKeepsInv(run);
    var s := Run(run).value;
    assert CallInv(s.requests[w]) && CallInv(s.requests[s.requests[w].follows.value]);
  }

  /** With a cache that evicts nothing, each key is built at most once and all its requests get one state. */
  lemma BuiltOnceAndShared(run: Trace<Step>, r: nat, r': nat)
    requires Run(run).Some? && !Run(run).value.evicted
    requires r < |Run(run).value.requests| && r' < |Run(run).value.requests|
    ensures var s := Run(run).value;
      && s.builds[s.requests[r].key] <= 1
      && (s.requests[r].key == s.requests[r'].key && s.requests[r].answer.Some? && s.requests[r'].answer.Some? ==>
            s.requests[r].answer == s.requests[r'].answer)
  {
    RunKeepsInv(run);
    var s := Run(run).value;
    assert RequestCacheInv(s, s.requests[r]) && RequestCacheInv(s, s.requests[r']);
  }

  // ---------------------------------------------------------------------------------------------
  // Where the states come from
  // ---------------------------------------------------------------------------------------------

  /** What a step builds, for which key. */
  function BuiltBy(s: State, step: Step): set<(Key, Info)> {
    if step.Build? && step.r < |s.requests| then {(s.requests[step.r].key, step.info)} else {}
  }

  /** Everything that the steps of a run have built. */
  function Built(run: Trace<Step>): set<(Key, Info)>
    requires Run(run).Some?
  {
    match run
    case Start => {}
    case Then(before, step) => Built(before) + BuiltBy(Run(before).value, step)
  }

  /** Whatever a request holds, on its way or as its answer, was built for its key. */
  predicate Sourced(q: Request, built: set<(Key, Info)>) {
    && (q.answer.Some? ==> (q.key, q.answer.value) in built)
    && (q.phase.Storing? ==> (q.key, q.phase.built) in built)
    && (q.phase.Holding? || q.phase.Erased? || q.phase.Answering? ==> (q.key, q.phase.info) in built)
  }

  ghost predicate AllSourced(s: State, built: set<(Key, Info)>) {
    && (forall r :: 0 <= r < |s.requests| ==> Sourced(s.requests[r], built))
    && (forall k :: k in s.cache ==> (k, s.cache[k]) in built)
  }

  lemma StillSourced(s: State, built: set<(Key, Info)>, more: set<(Key, Info)>)
    requires AllSourced(s, built) && built <= more
    ensures AllSourced(s, more)
  {
    forall r | 0 <= r < |s.requests| ensures Sourced(s.requests[r], more) {
      assert Sourced(s.requests[r], built);
    }
  }

  lemma OwnStepSourced(s: State, built: set<(Key, Info)>, step: Step)
    requires AllSourced(s, built) && Enabled(s, step)
    requires step.FirstLookup? || step.Register? || step.SecondLookup? || step.Erase? || step.AnswerSelf?
    ensures AllSourced(Apply(s, step), built)
  {
    var t := Apply(s, step);
    forall x | 0 <= x < |t.requests| ensures Sourced(t.requests[x], built) {
      assert Sourced(s.requests[x], built);
    }
  }

  lemma CacheStepSourced(s: State, built: set<(Key, Info)>, step: Step)
    requires AllSourced(s, built) && Enabled(s, step) && (step.Arrive? || step.Store? || step.Evict?)
    ensures AllSourced(Apply(s, step), built)
  {
    var t := Apply(s, step);
    forall x | 0 <= x < |t.requests| ensures Sourced(t.requests[x], built) {
      assert x < |s.requests| ==> Sourced(s.requests[x], built);
    }
  }

  lemma BuildSourced(s: State, built: set<(Key, Info)>, step: Step)
    requires AllSourced(s, built) && Enabled(s, step) && step.Build?
    ensures AllSourced(Apply(s, step), built + BuiltBy(s, step))
  {
    var t := Apply(s, step);
    forall x | 0 <= x < |t.requests| ensures Sourced(t.requests[x], built + BuiltBy(s, step)) {
      assert Sourced(s.requests[x], built);
    }
  }

  /** A waiter in the list of `r` asks for the same key. */
  lemma WaiterHasKey(s: State, r: nat)
    requires Inv(s) && Enabled(s, AnswerNext(r))
    ensures var w := PhaseOf(s, r).pending[0];
      w != r && s.requests[w].key == s.requests[r].key
  {
    assert ListOk(s, r);
    assert Followers(s, r)[0] in Followers(s, r);
  }

  lemma AnswerSourced(s: State, built: set<(Key, Info)>, r: nat)
    requires Inv(s) && AllSourced(s, built) && Enabled(s, AnswerNext(r))
    ensures AllSourced(Apply(s, AnswerNext(r)), built)
  {
    WaiterHasKey(s, r);
    var t := Apply(s, AnswerNext(r));
    assert Sourced(s.requests[r], built);
    forall x | 0 <= x < |t.requests| ensures Sourced(t.requests[x], built) {
      assert Sourced(s.requests[x], built);
    }
  }

  /** Every cached state and every state on its way to a request, evictions or not, was built for that key. */
  lemma {:induction false} StatesAreBuilt(run: Trace<Step>)
    requires Run(run).Some?
    ensures AllSourced(Run(run).value, Built(run))
  {
    match run
    case Start =>
    case Then(before, step) =>
      StatesAreBuilt(before);
      RunKeepsInv(before);
      var s, built := Run(before).value, Built(before);
      match step {
        case Build(_, _) => BuildSourced(s, built, step);
        case AnswerNext(r) => AnswerSourced(s, built, r);
        case Arrive(_) => CacheStepSourced(s, built, step);
        case Store(_) => CacheStepSourced(s, built, step);
        case Evict(_) => CacheStepSourced(s, built, step);
        case _ => OwnStepSourced(s, built, step);
      }
  }

  /** So each answer is a state that some step of the run has built for the request's key. */
  lemma AnswersAreBuilt(run: Trace<Step>, r: nat)
    requires Run(run).Some? && r < |Run(run).value.requests|
    ensures var q := Run(run).value.requests[r];
      q.answer.Some? ==> (q.key, q.answer.value) in Built(run)
  {
    StatesAreBuilt(run);
    assert Sourced(Run(run).value.requests[r], Built(run));
  }

  /** How often the run builds for a key. */
  function BuildCount(run: Trace<Step>, key: Key): nat
    requires Run(run).Some?
  {
    match run
    case Start => 0
    case Then(before, step) =>
      BuildCount(before, key) +
      if step.Build? && Run(before).value.requests[step.r].key == key then 1 else 0
  }

  lemma BuildsStep(s: State, step: Step, key: Key)
    requires Enabled(s, step)
    ensures Apply(s, step).builds[key] ==
      s.builds[key] + if step.Build? && s.requests[step.r].key == key then 1 else 0
  {
  }

  /** As long as nothing is evicted, a run has at most one build for each key. */
  lemma {:induction false} BuildsAreCounted(run: Trace<Step>, key: Key)
    requires Run(run).Some?
    ensures BuildCount(run, key) == Run(run).value.builds[key]
    ensures !Run(run).value.evicted ==> BuildCount(run, key) <= 1
  {
    RunKeepsInv(run);
    match run
    case Start =>
    case Then(before, step) =>
      BuildsAreCounted(before, key);
      BuildsStep(Run(before).value, step, key);
  }

  predicate Making(p: Phase) {
    p.Building? || p.Storing?
  }

  lemma UncachedStep(s: State, step: Step, r: nat)
    requires TableInv(s) && Enabled(s, step) && r < |s.requests| && Making(PhaseOf(s, r)) && s.requests[r].key !in s.cache
    requires Making(PhaseOf(Apply(s, step), r))
    ensures Apply(s, step).requests[r].key !in Apply(s, step).cache
  {
    if step.Store? {
      assert step.r != r;
      assert s.waiters[s.requests[r].key].leader == r && s.waiters[s.requests[step.r].key].leader == step.r;
    }
  }

  lemma StartsUncached(s: State, step: Step, r: nat)
    requires Enabled(s, step) && r < |Apply(s, step).requests| && (r < |s.requests| ==> !Making(PhaseOf(s, r)))
    requires Making(PhaseOf(Apply(s, step), r))
    ensures Apply(s, step).requests[r].key !in Apply(s, step).cache
  {
  }

  /** A key is not in the cache while it is being built, evictions or not: nothing is built that is there. */
  lemma {:induction false} UncachedWhileBuilding(run: Trace<Step>, r: nat)
    requires Run(run).Some? && r < |Run(run).value.requests| && Making(PhaseOf(Run(run).value, r))
    ensures Run(run).value.requests[r].key !in Run(run).value.cache
  {
    var s := Run(run.before).value;
    RunKeepsInv(run.before);
    if r < |s.requests| && Making(PhaseOf(s, r)) {
      UncachedWhileBuilding(run.before, r);
      UncachedStep(s, run.step, r);
    } else {
      StartsUncached(s, run.step, r);
    }
  }

  /** A request whose key is cached when it first looks is answered at once, with the cached state. */
  lemma HitIsServedAtOnce(run: Trace<Step>, r: nat)
    requires Run(run).Some? && Enabled(Run(run).value, FirstLookup(r))
    requires Run(run).value.requests[r].key in Run(run).value.cache
    ensures var s, t := Run(run).value, Apply(Run(run).value, FirstLookup(r));
      && t.requests[r].calls == 1 && t.requests[r].answer == Some(s.cache[s.requests[r].key])
      && t.waiters == s.waiters
  {
    RunKeepsInv(run);
    assert CallInv(Run(run).value.requests[r]);
  }

  // ---------------------------------------------------------------------------------------------
  // Progress: nobody is forgotten
  // ---------------------------------------------------------------------------------------------

  /** The next step of a request that is neither waiting nor done; the built state is whatever the build yields. */
  function OwnStep(p: Phase, r: nat): Step
    requires !p.Waiting? && !p.Done?
  {
    match p
    case Arrived => FirstLookup(r)
    case Missed => Register(r)
    case Leading => SecondLookup(r)
    case Building => Build(r, "")
    case Storing(_) => Store(r)
    case Holding(_) => Erase(r)
    case Erased(_, _) => AnswerSelf(r)
    case Answering(_, _) => AnswerNext(r)
  }

  /**
   * While a request is unanswered, it or the leader it waits for can take a step; so when no request can go
   * on, every callback has run.
   */
  lemma UnansweredMeansProgress(run: Trace<Step>, r: nat) returns (next: nat)
    requires Run(run).Some? && r < |Run(run).value.requests| && Run(run).value.requests[r].calls == 0
    ensures var s := Run(run).value;
      && next < |s.requests| && !PhaseOf(s, next).Waiting? && !PhaseOf(s, next).Done?
      && Enabled(s, OwnStep(PhaseOf(s, next), next))
      && (next == r || s.requests[r].follows == Some(next))
  {
    RunKeepsInv(run);
    var s := Run(run).value;
    assert CallInv(s.requests[r]);
    next := if PhaseOf(s, r).Waiting? then s.requests[r].follows.value else r;
    if PhaseOf(s, r).Waiting? {
      assert r in Followers(s, next);
    }
    if PhaseOf(s, next).Answering? {
      assert CallInv(s.requests[next]) && ListOk(s, next);
      assert Followers(s, next)[0] in Followers(s, next);
    }
  }

  /** So every callback runs exactly once: when all requests wait or are done, all have been answered. */
  lemma SettledMeansAnswered(run: Trace<Step>, r: nat)
    requires Run(run).Some? && r < |Run(run).value.requests|
    requires var s := Run(run).value;
      forall x :: 0 <= x < |s.requests| ==> PhaseOf(s, x).Waiting? || PhaseOf(s, x).Done?
    ensures Run(run).value.requests[r].calls == 1 && Run(run).value.requests[r].answer.Some?
  {
    CallbackAtMostOnce(run, r);
    if Run(run).value.requests[r].calls == 0 {
      var next := UnansweredMeansProgress(run, r);
    }
  }

  function PhaseRank(p: Phase): nat {
    match p
    case Arrived => 9 case Missed => 8 case Waiting => 1
    case Leading => 7 case Building => 6 case Storing(_) => 5 case Holding(_) => 3
    case Erased(_, _) => 2 case Answering(_, _) => 1 case Done => 0
  }

  function Ranks(requests: seq<Request>): nat {
    if requests == [] then 0 else Ranks(requests[..|requests| - 1]) + PhaseRank(requests[|requests| - 1].phase)
  }

  lemma {:induction false} RanksUpdate(requests: seq<Request>, r: nat, q: Request)
    requires r < |requests|
    ensures Ranks(requests[r := q]) == Ranks(requests) - PhaseRank(requests[r].phase) + PhaseRank(q.phase)
  {
    var last := |requests| - 1;
    if r < last {
      RanksUpdate(requests[..last], r, q);
      assert requests[r := q][..last] == requests[..last][r := q];
    } else {
      assert requests[r := q][..last] == requests[..last];
    }
  }

  /** The work left: what the requests still have to do, plus entries that could still be evicted. */
  function Rank(s: State): nat {
    Ranks(s.requests) + |s.cache|
  }

  lemma OneRequestDescends(s: State, t: State, r: nat)
    requires r < |s.requests| == |t.requests| && t.requests == s.requests[r := t.requests[r]]
    requires PhaseRank(PhaseOf(t, r)) + |t.cache| < PhaseRank(PhaseOf(s, r)) + |s.cache|
    ensures Rank(t) < Rank(s)
  {
    RanksUpdate(s.requests, r, t.requests[r]);
  }

  lemma AnswerNextDescends(s: State, r: nat)
    requires Enabled(s, AnswerNext(r)) && PhaseOf(s, PhaseOf(s, r).pending[0]).Waiting?
    ensures Ranks(Apply(s, AnswerNext(r)).requests) < Ranks(s.requests)
  {
    var p := PhaseOf(s, r);
    var w := p.pending[0];
    var q := Answered(s.requests[w], p.info, Done);
    var q' := s.requests[r].(phase := Rest(p.info, p.pending[1..]));
    RanksUpdate(s.requests, w, q);
    RanksUpdate(s.requests[w := q], r, q');
    assert w != r;
  }

  lemma CacheStepDescends(s: State, step: Step)
    requires Enabled(s, step) && (step.Evict? || step.Store?)
    ensures Rank(Apply(s, step)) < Rank(s)
  {
    if step.Evict? {
      RemoveKey(s.cache, step.key);
    } else {
      PutKey(s.cache, s.requests[step.r].key, PhaseOf(s, step.r).built);
      OneRequestDescends(s, Apply(s, step), step.r);
    }
  }

  lemma RemoveKey(cache: map<Key, Info>, key: Key)
    requires key in cache
    ensures |(cache - {key}).Keys| == |cache.Keys| - 1
  {
    assert (cache - {key}).Keys == cache.Keys - {key};
  }

  lemma PutKey(cache: map<Key, Info>, key: Key, info: Info)
    ensures |cache[key := info].Keys| <= |cache.Keys| + 1
  {
    assert cache[key := info].Keys == cache.Keys + {key};
  }

  lemma OwnStepDescends(s: State, step: Step, r: nat)
    requires Enabled(s, step)
    requires step in {FirstLookup(r), Register(r), SecondLookup(r), Erase(r), AnswerSelf(r)} || (step.Build? && step.r == r)
    ensures Rank(Apply(s, step)) < Rank(s)
  {
    OneRequestDescends(s, Apply(s, step), r);
  }

  lemma StepDescends(s: State, step: Step)
    requires Inv(s) && Enabled(s, step) && !step.Arrive?
    ensures Rank(Apply(s, step)) < Rank(s)
  {
    match step
    case Evict(_) => CacheStepDescends(s, step);
    case Store(_) => CacheStepDescends(s, step);
    case AnswerNext(r) =>
      assert ListOk(s, r);
      AnswerNextDescends(s, r);
    case FirstLookup(r) => OwnStepDescends(s, step, r);
    case Register(r) => OwnStepDescends(s, step, r);
    case SecondLookup(r) => OwnStepDescends(s, step, r);
    case Build(r, _) => OwnStepDescends(s, step, r);
    case Erase(r) => OwnStepDescends(s, step, r);
    case AnswerSelf(r) => OwnStepDescends(s, step, r);
  }

  /** A run in which n requests arrive has at most 10 n steps, so every request is answered in the end. */
  lemma {:induction false} RunsAreBounded(run: Trace<Step>)
    requires Run(run).Some?
    ensures Length(run) + Rank(Run(run).value) <= 10 * |Run(run).value.requests|
  {
    match run
    case Start =>
    case Then(before, step) =>
      RunsAreBounded(before);
      RunKeepsInv(before);
      var s := Run(before).value;
      if step.Arrive? {
        assert Run(run).value.requests[..|s.requests|] == s.requests;
      } else {
        StepDescends(s, step);
      }
  }

  // ---------------------------------------------------------------------------------------------
  // The table itself
  // ---------------------------------------------------------------------------------------------

  /** compiler_info_waiters_, changed only under compiler_info_mu_. */
  class WaiterTable {
    var waiters: map<Key, Entry>

    constructor ()
      ensures waiters == map[]
    {
      waiters := map[];
    }

    /** The locked part of GetCompilerInfo; `first` tells the caller to run the internal lookup. */
    method Register(key: Key, r: nat) returns (first: bool)
      modifies this
      ensures waiters == Registered(old(waiters), key, r)
      ensures first <==> key !in old(waiters)
    {
      first := key !in waiters;
      if first {
        waiters := waiters[key := Entry(r, [])];
      } else {
        waiters := waiters[key := waiters[key].(list := waiters[key].list + [r])];
      }
    }

    /** The locked part of GetCompilerInfoInternal; None is the failed CHECK. */
    method Take(key: Key) returns (list: Option<seq<nat>>)
      modifies this
      ensures list == if key in old(waiters) then Some(old(waiters)[key].list) else None
      ensures waiters == old(waiters) - {key}
    {
      if key !in waiters {
        return None;
      }
      list := Some(waiters[key].list);
      waiters := waiters - {key};
    }
  }
}
