/** The runner inventory cache that the providers of one GitHub target share.

    `Cache` is the state under `cache.mu`; its functions are the lock regions, class
    `RunnerInventoryCache` is their imperative form, and the protocol below interleaves any number of
    `listRunners` calls with suspensions, resumptions and deletions. An inventory is a type parameter:
    the protocol instantiates it with the API read it came from. */
module RunnerCache {
  import opened Wrappers

  datatype Stored<R> = Stored(runners: R, fetchedAt: int)

  /** `stored.None?` is the zero `fetchedAt`. */
  datatype Cache<R> = Cache(stored: Option<Stored<R>>, suspended: bool, generation: nat)

  datatype Ttls = Ttls(normal: nat, metrics: nat)

  function Age(fetchedAt: int, now: int): nat {
    if now < fetchedAt then 0 else now - fetchedAt
  }

  function CachedRunners<R>(c: Cache<R>, ttls: Ttls, allowStale: bool, now: int): Option<R> {
    if c.stored.None? then None
    else
      var age := Age(c.stored.value.fetchedAt, now);
      if !allowStale && c.suspended then None
      else if ttls.normal > 0 && age <= ttls.normal then Some(c.stored.value.runners)
      else if allowStale && ttls.metrics > 0 && age <= ttls.metrics then Some(c.stored.value.runners)
      else None
  }

  function Store<R>(c: Cache<R>, runners: R, generation: nat, fetchedAt: int): Cache<R> {
    if c.generation != generation then c else c.(stored := Some(Stored(runners, fetchedAt)))
  }

  datatype Invalidation = Deleted | Suspended | Resumed

  function Invalidate<R>(c: Cache<R>, how: Invalidation): Cache<R> {
    Cache(None,
          match how { case Deleted => c.suspended case Suspended => true case Resumed => false },
          c.generation + 1)
  }

  class RunnerInventoryCache<R> {
    var stored: Option<Stored<R>>
    var suspended: bool
    var generation: nat

    ghost function View(): Cache<R>
      reads this
    {
      Cache(stored, suspended, generation)
    }

    constructor ()
      ensures View() == Cache(None, false, 0)
    {
      stored, suspended, generation := None, false, 0;
    }

    /** A hit exactly when there is an inventory within a lifetime that applies, and never for reconcile
        while suspended. */
    method GetCached(ttls: Ttls, allowStale: bool, now: int) returns (hit: Option<R>)
      ensures hit.Some? <==>
                && stored.Some? && (allowStale || !suspended)
                && ((0 < ttls.normal && now - stored.value.fetchedAt <= ttls.normal)
                    || (allowStale && 0 < ttls.metrics && now - stored.value.fetchedAt <= ttls.metrics))
      ensures hit.Some? ==> hit.value == stored.value.runners
      ensures hit == CachedRunners(View(), ttls, allowStale, now)
    {
      if stored.None? {
        return None;
      }
      var age := now - stored.value.fetchedAt;
      if age < 0 {
        age := 0;
      }
      if !allowStale && suspended {
        return None;
      }
      if ttls.normal > 0 && age <= ttls.normal {
        return Some(stored.value.runners);
      }
      if allowStale && ttls.metrics > 0 && age <= ttls.metrics {
        return Some(stored.value.runners);
      }
      return None;
    }

    method StoreFetched(runners: R, fetchGeneration: nat, fetchedAt: int)
      modifies this
      ensures stored == if old(generation) == fetchGeneration then Some(Stored(runners, fetchedAt)) else old(stored)
      ensures View() == Store(old(View()), runners, fetchGeneration, fetchedAt)
    {
      if generation != fetchGeneration {
        return;
      }
      stored := Some(Stored(runners, fetchedAt));
    }

    method InvalidateRunnerCache()
      modifies this
      ensures stored.None? && generation == old(generation) + 1 && suspended == old(suspended)
      ensures View() == Invalidate(old(View()), Deleted)
    {
      stored, generation := None, generation + 1;
    }

    method Suspend()
      modifies this
      ensures stored.None? && generation == old(generation) + 1 && suspended
      ensures View() == Invalidate(old(View()), Suspended)
    {
      stored, suspended, generation := None, true, generation + 1;
    }

    method Resume()
      modifies this
      ensures stored.None? && generation == old(generation) + 1 && !suspended
      ensures View() == Invalidate(old(View()), Resumed)
    {
      stored, suspended, generation := None, false, generation + 1;
    }
  }

  // ---------- the interleaved protocol ----------

  /** One paged read of the API: when it began, and whether a mutation section was open then. */
  datatype Read = Read(beganAt: nat, whileSuspended: bool)

  /** How a call got the inventory it returned. */
  datatype Source = Hit | OwnFetch | StaleFallback

  datatype Event =
    | Called
    | Invalidated(how: Invalidation)
    | FetchBegan
    | Returned(calledAt: nat, read: Read, source: Source)
    | Failed

  datatype Pc =
    | Checking                            // before the first cache check
    | Locking                             // waiting for fetchMu
    | Rechecking                          // holds fetchMu, before the second check
    | ReadingGeneration
    | Fetching(generation: nat)           // about to call the API
    | InFlight(generation: nat, read: Read)
    | Storing(generation: nat, read: Read, fetchedAt: int)
    | Falling                             // the API failed

  datatype Call = Call(allowStale: bool, ttls: Ttls, calledAt: nat, pc: Pc) {
    predicate HoldsLock() {
      !pc.Checking? && !pc.Locking?
    }
  }

  datatype State = State(cache: Cache<Read>, calls: map<nat, Call>, history: seq<Event>)

  ghost predicate Init(s: State) {
    s == State(Cache(None, false, 0), map[], [])
  }

  /** `now` is whatever clock reading a step needs; `fetchOk` says whether an API read succeeds. */
  datatype Step =
    | Begin(id: nat, allowStale: bool, ttls: Ttls)
    | Mutate(how: Invalidation)
    | Run(id: nat, now: int, fetchOk: bool)

  datatype Outcome =
    | Blocked
    | Goes(pc: Pc, cache: Cache<Read>, events: seq<Event>)
    | Ends(cache: Cache<Read>, event: Event)

  /** One atomic step of a call. `lockFree`: nobody holds fetchMu. */
  function Move(call: Call, cache: Cache<Read>, lockFree: bool, time: nat, now: int, fetchOk: bool): Outcome {
    match call.pc
    case Checking =>
      var hit := CachedRunners(cache, call.ttls, false, now);
      if hit.Some? then Ends(cache, Returned(call.calledAt, hit.value, Hit)) else Goes(Locking, cache, [])
    case Locking =>
      if lockFree then Goes(Rechecking, cache, []) else Blocked
    case Rechecking =>
      var hit := CachedRunners(cache, call.ttls, false, now);
      if hit.Some? then Ends(cache, Returned(call.calledAt, hit.value, Hit))
      else Goes(ReadingGeneration, cache, [])
    case ReadingGeneration =>
      Goes(Fetching(cache.generation), cache, [])
    case Fetching(generation) =>
      Goes(InFlight(generation, Read(time, cache.suspended)), cache, [FetchBegan])
    case InFlight(generation, read) =>
      Goes(if fetchOk then Storing(generation, read, now) else Falling, cache, [])
    case Storing(generation, read, fetchedAt) =>
      Ends(Store(cache, read, generation, fetchedAt), Returned(call.calledAt, read, OwnFetch))
    case Falling =>
      var hit := if call.allowStale then CachedRunners(cache, call.ttls, true, now) else None;
      Ends(cache, if hit.Some? then Returned(call.calledAt, hit.value, StaleFallback) else Failed)
  }

  ghost predicate LockFree(s: State) {
    forall id :: id in s.calls ==> !s.calls[id].HoldsLock()
  }

  ghost predicate NextStep(s: State, s': State, step: Step) {
    match step
    case Begin(id, allowStale, ttls) =>
      && id !in s.calls
      && s' == s.(calls := s.calls[id := Call(allowStale, ttls, |s.history|, Checking)],
                  history := s.history + [Called])
    case Mutate(how) =>
      s' == s.(cache := Invalidate(s.cache, how), history := s.history + [Invalidated(how)])
    case Run(id, now, fetchOk) =>
      && id in s.calls
      && match Move(s.calls[id], s.cache, LockFree(s), |s.history|, now, fetchOk)
         case Blocked => false
         case Goes(pc, cache, events) =>
           s' == State(cache, s.calls[id := s.calls[id].(pc := pc)], s.history + events)
         case Ends(cache, event) =>
           s' == State(cache, s.calls - {id}, s.history + [event])
  }

  ghost predicate Next(s: State, s': State) {
    exists step :: NextStep(s, s', step)
  }

  ghost predicate IsRun(run: seq<State>) {
    && run != []
    && Init(run[0])
    && forall i :: 0 < i < |run| ==> Next(run[i - 1], run[i])
  }

  /** Every invalidation among the first `limit` events completed before `read` began. */
  ghost predicate After(history: seq<Event>, limit: nat, read: Read) {
    forall i :: 0 <= i < limit && i < |history| && history[i].Invalidated? ==> i < read.beganAt
  }

  /** `read` is stamped with the position at which its API read began. */
  ghost predicate Stamped(history: seq<Event>, limit: nat, read: Read) {
    read.beganAt < limit && read.beganAt < |history| && history[read.beganAt].FetchBegan?
  }

  ghost predicate Fresh(history: seq<Event>, r: nat)
    requires r < |history|
  {
    history[r].Returned? ==>
      && history[r].calledAt < r
      && Stamped(history, r, history[r].read)
      && After(history, history[r].calledAt, history[r].read)
      && (history[r].source != OwnFetch ==> After(history, r, history[r].read))
      && (history[r].source == Hit ==> !history[r].read.whileSuspended)
      && (history[r].source == OwnFetch ==> history[r].calledAt < history[r].read.beganAt)
  }

  /** A read that can still be stored saw every invalidation so far and the current suspension. */
  ghost predicate Current(s: State, read: Read) {
    && Stamped(s.history, |s.history|, read)
    && After(s.history, |s.history|, read)
    && read.whileSuspended == s.cache.suspended
  }

  ghost predicate CallInv(s: State, call: Call) {
    && call.calledAt < |s.history|
    && match call.pc
       case Fetching(generation) => generation <= s.cache.generation
       case InFlight(generation, read) =>
         generation <= s.cache.generation && call.calledAt < read.beganAt && Stamped(s.history, |s.history|, read)
         && (generation == s.cache.generation ==> Current(s, read))
       case Storing(generation, read, _) =>
         generation <= s.cache.generation && call.calledAt < read.beganAt && Stamped(s.history, |s.history|, read)
         && (generation == s.cache.generation ==> Current(s, read))
       case _ => true
  }

  ghost predicate Inv(s: State) {
    && (s.cache.stored.Some? ==> Current(s, s.cache.stored.value.runners))
    && (forall id :: id in s.calls ==> CallInv(s, s.calls[id]))
    && (forall r :: 0 <= r < |s.history| ==> Fresh(s.history, r))
  }

  lemma AfterLog(history: seq<Event>, e: Event, limit: nat, read: Read)
    requires After(history, limit, read)
    requires e.Invalidated? ==> limit <= |history|
    ensures After(history + [e], limit, read)
  {
    forall i | 0 <= i < limit && i < |history| + 1 && (history + [e])[i].Invalidated?
      ensures i < read.beganAt
    {
      if i < |history| {
        assert history[i].Invalidated?;
      }
    }
  }

  lemma FreshLog(history: seq<Event>, e: Event)
    requires forall r :: 0 <= r < |history| ==> Fresh(history, r)
    requires e.Returned? ==>
               && e.calledAt < |history|
               && Stamped(history, |history|, e.read)
               && (e.source == OwnFetch ==> e.calledAt < e.read.beganAt)
               && (e.source != OwnFetch ==> After(history, |history|, e.read))
               && (e.source == Hit ==> !e.read.whileSuspended)
    ensures forall r :: 0 <= r < |history| + 1 ==> Fresh(history + [e], r)
  {
    var h := history + [e];
    forall r | 0 <= r < |h|
      ensures Fresh(h, r)
    {
      if r < |history| {
        assert Fresh(history, r);
        assert forall i :: 0 <= i < |history| ==> h[i] == history[i];
      } else if e.Returned? && e.source != OwnFetch {
        AfterLog(history, e, |history|, e.read);
      }
    }
  }

  lemma CallLog(s: State, e: Event, call: Call)
    requires CallInv(s, call) && !e.Invalidated?
    ensures CallInv(s.(history := s.history + [e]), call)
  {
  }

  lemma MutateKeeps(s: State, s': State, how: Invalidation)
    requires Inv(s) && NextStep(s, s', Mutate(how))
    ensures Inv(s')
  {
    FreshLog(s.history, Invalidated(how));
  }

  lemma BeginKeeps(s: State, s': State, step: Step)
    requires step.Begin? && Inv(s) && NextStep(s, s', step)
    ensures Inv(s')
  {
    FreshLog(s.history, Called);
    forall id | id in s.calls
      ensures CallInv(s', s.calls[id])
    {
      CallLog(s, Called, s.calls[id]);
    }
  }

  /** What one step of a call may do to the cache and the history. */
  lemma MoveKeeps(s: State, call: Call, now: int, fetchOk: bool)
    requires Inv(s) && CallInv(s, call)
    ensures match Move(call, s.cache, LockFree(s), |s.history|, now, fetchOk)
            case Blocked => true
            case Goes(pc, cache, events) =>
              && cache == s.cache
              && (events == [] || events == [FetchBegan])
              && CallInv(State(cache, s.calls, s.history + events), call.(pc := pc))
            case Ends(cache, event) =>
              && cache.generation == s.cache.generation && cache.suspended == s.cache.suspended
              && (cache.stored.Some? ==> Current(s, cache.stored.value.runners))
              && !event.Invalidated?
              && (event.Returned? ==>
                    && event.calledAt < |s.history|
                    && Stamped(s.history, |s.history|, event.read)
                    && (event.source == OwnFetch ==> event.calledAt < event.read.beganAt)
                    && (event.source != OwnFetch ==> After(s.history, |s.history|, event.read))
                    && (event.source == Hit ==> !event.read.whileSuspended))
  {
    if call.pc.Fetching? {
      assert |s.history + [FetchBegan]| == |s.history| + 1;
    }
  }

  lemma GoesKeeps(s: State, s': State, id: nat, pc: Pc, events: seq<Event>)
    requires Inv(s) && id in s.calls
    requires events == [] || events == [FetchBegan]
    requires s' == State(s.cache, s.calls[id := s.calls[id].(pc := pc)], s.history + events)
    requires CallInv(State(s.cache, s.calls, s.history + events), s.calls[id].(pc := pc))
    ensures Inv(s')
  {
    if events == [] {
      assert s'.history == s.history;
    } else {
      FreshLog(s.history, FetchBegan);
    }
    forall other | other in s'.calls
      ensures CallInv(s', s'.calls[other])
    {
      if other != id && events != [] {
        CallLog(s, FetchBegan, s.calls[other]);
      }
    }
  }

  lemma EndsKeeps(s: State, s': State, id: nat, event: Event)
    requires Inv(s) && !event.Invalidated?
    requires s'.calls == s.calls - {id} && s'.history == s.history + [event]
    requires s'.cache.generation == s.cache.generation && s'.cache.suspended == s.cache.suspended
    requires s'.cache.stored.Some? ==> Current(s, s'.cache.stored.value.runners)
    requires forall r :: 0 <= r < |s.history| + 1 ==> Fresh(s.history + [event], r)
    ensures Inv(s')
  {
    forall other | other in s'.calls
      ensures CallInv(s', s'.calls[other])
    {
      CallLog(s, event, s.calls[other]);
    }
  }

  lemma RunKeeps(s: State, s': State, id: nat, now: int, fetchOk: bool)
    requires Inv(s) && NextStep(s, s', Run(id, now, fetchOk))
    ensures Inv(s')
  {
    MoveKeeps(s, s.calls[id], now, fetchOk);
    match Move(s.calls[id], s.cache, LockFree(s), |s.history|, now, fetchOk)
    case Goes(pc, cache, events) =>
      GoesKeeps(s, s', id, pc, events);
    case Ends(cache, event) =>
      FreshLog(s.history, event);
      EndsKeeps(s, s', id, event);
  }

  lemma {:induction false} InvHolds(run: seq<State>, k: nat)
    requires IsRun(run) && k < |run|
    ensures Inv(run[k])
  {
    if k > 0 {
      InvHolds(run, k - 1);
      assert Next(run[k - 1], run[k]);
      var step :| NextStep(run[k - 1], run[k], step);
      match step
      case Begin(_, _, _) => BeginKeeps(run[k - 1], run[k], step);
      case Mutate(how) => MutateKeeps(run[k - 1], run[k], how);
      case Run(id, now, fetchOk) => RunKeeps(run[k - 1], run[k], id, now, fetchOk);
    }
  }

  /** Inventory freshness. In every interleaving, every inventory that `listRunners` returns (cache
      hit, double-checked hit, own fetch or the stale fallback for metrics) comes from an API read
      that began after every suspension, resumption and deletion that completed before the call
      began. One that comes out of the cache even reflects every mutation completed before it was
      handed out. */
  lemma InventoryIsFresh(run: seq<State>, k: nat, r: nat, i: nat)
    requires IsRun(run) && k < |run|
    requires r < |run[k].history| && run[k].history[r].Returned?
    requires i < |run[k].history| && run[k].history[i].Invalidated?
    ensures Stamped(run[k].history, r, run[k].history[r].read)
    ensures i < run[k].history[r].calledAt ==> i < run[k].history[r].read.beganAt
    ensures i < r && run[k].history[r].source != OwnFetch ==> i < run[k].history[r].read.beganAt
  {
    InvHolds(run, k);
    assert Fresh(run[k].history, r);
  }

  /** Reconcile never gets a cached inventory that was read inside a mutation section. */
  lemma HitWasReadOutsideMutations(run: seq<State>, k: nat, r: nat)
    requires IsRun(run) && k < |run|
    requires r < |run[k].history| && run[k].history[r].Returned? && run[k].history[r].source == Hit
    ensures !run[k].history[r].read.whileSuspended
  {
    InvHolds(run, k);
    assert Fresh(run[k].history, r);
  }

  // ---------- the cache is used ----------

  /** Either check, in any state: the call ends with the cached inventory exactly when there is one, no
      mutation section is open, and it is within a positive lifetime; otherwise it goes on. */
  lemma CheckHitsIff(s: State, s': State, id: nat, now: int, fetchOk: bool)
    requires NextStep(s, s', Run(id, now, fetchOk)) && (s.calls[id].pc.Checking? || s.calls[id].pc.Rechecking?)
    ensures var call, c := s.calls[id], s.cache;
            if && c.stored.Some? && !c.suspended
               && 0 < call.ttls.normal && now - c.stored.value.fetchedAt <= call.ttls.normal
            then id !in s'.calls && s'.history == s.history + [Returned(call.calledAt, c.stored.value.runners, Hit)]
            else id in s'.calls && s'.history == s.history
  {
  }

  /** After a failed fetch, in any state: metrics get the cached inventory, mutation section or not,
      exactly when it is within either positive lifetime; everybody else gets the error. */
  lemma FallbackHitsIff(s: State, s': State, id: nat, now: int, fetchOk: bool)
    requires NextStep(s, s', Run(id, now, fetchOk)) && s.calls[id].pc.Falling?
    ensures id !in s'.calls
    ensures var call, c := s.calls[id], s.cache;
            s'.history == s.history +
              if && call.allowStale && c.stored.Some?
                 && ((0 < call.ttls.normal && now - c.stored.value.fetchedAt <= call.ttls.normal)
                     || (0 < call.ttls.metrics && now - c.stored.value.fetchedAt <= call.ttls.metrics))
              then [Returned(call.calledAt, c.stored.value.runners, StaleFallback)]
              else [Failed]
  {
  }

  ghost predicate Undisturbed(history: seq<Event>, since: nat) {
    forall i :: since <= i < |history| ==> !history[i].Invalidated?
  }

  /** A call that nothing has invalidated since it began holds the current generation. */
  ghost predicate HoldsGeneration(s: State) {
    forall id :: id in s.calls && Undisturbed(s.history, s.calls[id].calledAt) ==>
      match s.calls[id].pc
      case Fetching(generation) => generation == s.cache.generation
      case InFlight(generation, _) => generation == s.cache.generation
      case Storing(generation, _, _) => generation == s.cache.generation
      case _ => true
  }

  lemma HoldsLater(s: State, s': State, step: Step)
    requires Inv(s) && HoldsGeneration(s) && NextStep(s, s', step) && !step.Mutate?
    ensures HoldsGeneration(s')
  {
    hide Inv;
    assert s.history <= s'.history && s'.cache.generation == s.cache.generation;
    forall id | id in s'.calls && id in s.calls && Undisturbed(s'.history, s'.calls[id].calledAt)
      ensures Undisturbed(s.history, s.calls[id].calledAt)
    {
    }
  }

  /** An invalidation disturbs every call. */
  lemma MutateDisturbs(s: State, s': State, how: Invalidation)
    requires Inv(s) && NextStep(s, s', Mutate(how))
    ensures HoldsGeneration(s')
  {
    assert s'.history[|s.history|].Invalidated?;
    forall id | id in s'.calls
      ensures !Undisturbed(s'.history, s'.calls[id].calledAt)
    {
      assert CallInv(s, s.calls[id]);
    }
  }

  lemma {:induction false} GenerationHeld(run: seq<State>, k: nat)
    requires IsRun(run) && k < |run|
    ensures HoldsGeneration(run[k])
  {
    if k > 0 {
      hide HoldsGeneration, Inv;
      GenerationHeld(run, k - 1);
      InvHolds(run, k - 1);
      assert Next(run[k - 1], run[k]);
      var step :| NextStep(run[k - 1], run[k], step);
      if step.Mutate? {
        MutateDisturbs(run[k - 1], run[k], step.how);
      } else {
        HoldsLater(run[k - 1], run[k], step);
      }
    }
  }

  /** A fetch pays off: when a call returns what it fetched itself and nothing was invalidated since the
      call began, the inventory is in the cache with the time of the fetch, for `CheckHitsIff` to find. */
  lemma FetchIsStored(run: seq<State>, k: nat, id: nat, now: int, fetchOk: bool)
    requires IsRun(run) && k < |run| - 1 && NextStep(run[k], run[k + 1], Run(id, now, fetchOk))
    requires run[k].calls[id].pc.Storing? && Undisturbed(run[k].history, run[k].calls[id].calledAt)
    ensures var pc := run[k].calls[id].pc;
            && run[k + 1].cache.stored == Some(Stored(pc.read, pc.fetchedAt))
            && run[k + 1].history == run[k].history + [Returned(run[k].calls[id].calledAt, pc.read, OwnFetch)]
  {
    GenerationHeld(run, k);
  }

  ghost predicate Exclusive(s: State) {
    forall a, b :: a in s.calls && b in s.calls && s.calls[a].HoldsLock() && s.calls[b].HoldsLock() ==> a == b
  }

  lemma MoveTakesFreeLock(call: Call, cache: Cache<Read>, lockFree: bool, time: nat, now: int, fetchOk: bool)
    ensures var out := Move(call, cache, lockFree, time, now, fetchOk);
            out.Goes? && !call.HoldsLock() && call.(pc := out.pc).HoldsLock() ==> lockFree
  {
  }

  /** fetchMu: in every run at most one call is between its double check and its return. */
  lemma {:induction false} OneFetchAtATime(run: seq<State>, k: nat)
    requires IsRun(run) && k < |run|
    ensures Exclusive(run[k])
  {
    if k > 0 {
      OneFetchAtATime(run, k - 1);
      var s := run[k - 1];
      var step :| NextStep(s, run[k], step);
      if step.Run? {
        MoveTakesFreeLock(s.calls[step.id], s.cache, LockFree(s), |s.history|, step.now, step.fetchOk);
      }
    }
  }
}
