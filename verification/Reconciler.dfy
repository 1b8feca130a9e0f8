/** One reconcile pass of a runner class: baseline upkeep, scale-down, capacity arithmetic, scale-up.

    The runtime, the CI provider and the state store may fail at any call. The contracts bound the
    number of managed containers, count what a pass creates, say exactly what it tears down and why, and
    keep the inventory cache's mutation sections balanced. `Pass` holds the decisions as functions of
    what a pass sees. */
module Reconciler {
  import opened Wrappers
  import opened Clock
  import opened Names
  import opened Providers
  import opened Pass

  datatype BaselineFate = Left | Removed | Stuck

  class ReconcilePass {
    var removeToken: Option<string>

    constructor ()
      ensures removeToken == None
    {
      removeToken := None;
    }
  }

  class Reconciler {
    const cfg: Config
    const runtime: Runtime
    const ci: Provider
    const state: StateStore
    const clock: Clock

    /** When each container was last seen running and busy, and what the scale-down loop tore down. */
    ghost var lastBusy: map<string, int>
    ghost var teardowns: seq<Sight>

    /** The stored time of a container is never older than the second in which it was last seen busy. */
    ghost predicate StoreCovers()
      reads this`lastBusy, state, clock
    {
      forall n :: n in lastBusy ==>
        lastBusy[n] <= clock.time && (n in state.seconds ==> lastBusy[n] / SECOND <= state.seconds[n])
    }

    ghost predicate AllDue()
      reads this`teardowns
    {
      forall d :: d in teardowns ==> Due(cfg, d)
    }

    ghost predicate AllRespectLastJob()
      reads this`teardowns
    {
      forall d :: d in teardowns ==> RespectsLastJob(cfg, d)
    }

    /** What holds between passes. The bounds on teardown times need a store that works; baseline
        containers are told apart from overflow as the configuration check demands. */
    ghost predicate Valid()
      reads this, ci, ci.cache, state, clock
    {
      && ci.Resumed()
      && AllDue()
      && (forall n :: n in lastBusy ==> lastBusy[n] <= clock.time)
      && (state.working ==> StoreCovers() && AllRespectLastJob())
      && (cfg.baseline ==> !HasPrefix(cfg.baselineName, cfg.prefix))
    }

    ghost function Books(): Ledger
      reads this, runtime, ci
    {
      Ledger(teardowns, runtime.calls, ci.deleted, lastBusy)
    }

    constructor (cfg: Config, runtime: Runtime, ci: Provider, state: StateStore, clock: Clock)
      requires ci.Resumed() && (cfg.baseline ==> !HasPrefix(cfg.baselineName, cfg.prefix))
      ensures Valid() && this.cfg == cfg && this.runtime == runtime && this.ci == ci
      ensures this.state == state && this.clock == clock && teardowns == [] && lastBusy == map[]
    {
      this.cfg, this.runtime, this.ci, this.state, this.clock := cfg, runtime, ci, state, clock;
      lastBusy, teardowns := map[], [];
    }

    // ---------- scale-up ----------

    /** At most two attempts when nothing but a name conflict can go wrong: the listing after a conflict
        shows the name that `existing` hid. */
    method CloneWithFreshName(existing: seq<string>)
      returns (name: Option<string>, ghost attempted: string, ghost attempts: nat)
      modifies runtime`containers, runtime`listedAs, runtime`calls
      ensures runtime.containers.Keys <= old(runtime.containers.Keys) + {attempted}
      ensures HasPrefix(attempted, cfg.prefix)
      ensures name.Some? ==> name.value == attempted
      ensures runtime.calls == old(runtime.calls) + if name.Some? then [Clone(attempted)] else []
      ensures old(runtime.listedAs) <= runtime.listedAs
      ensures runtime.reliable && |Managed(old(runtime.containers), cfg.prefix)| < cfg.maxAutoRunners ==>
                && name.Some? && attempts <= 2
                && attempted !in old(runtime.containers)
                && runtime.containers.Keys == old(runtime.containers.Keys) + {attempted}
                && ((forall n :: n in existing ==> n in old(runtime.containers)) ==>
                      LeastFree(cfg.prefix, attempted, old(runtime.containers.Keys)))
    {
      var snapshot := existing;
      attempted, attempts := NameAt(cfg.prefix, 0), 0;
      NameAtHasPrefix(cfg.prefix, 0);
      for attempt := 0 to 3
        invariant attempts == attempt
        invariant HasPrefix(attempted, cfg.prefix)
        invariant runtime.containers.Keys <= old(runtime.containers.Keys)
        invariant runtime.calls == old(runtime.calls) && old(runtime.listedAs) <= runtime.listedAs
        invariant runtime.reliable && |Managed(old(runtime.containers), cfg.prefix)| < cfg.maxAutoRunners ==>
                    && attempt <= 1
                    && runtime.containers.Keys == old(runtime.containers.Keys)
                    && (attempt == 0 ==> snapshot == existing)
                    && (attempt == 1 ==> forall n :: n in Managed(runtime.containers, cfg.prefix) <==> n in snapshot)
      {
        var candidate, index := NextName(cfg.prefix, snapshot);
        NameAtHasPrefix(cfg.prefix, index);
        attempted, attempts := candidate, attempts + 1;
        var result := runtime.CloneFromTemplate(candidate);
        if result.Cloned? {
          return Some(candidate), attempted, attempts;
        }
        if result.Failed? {
          return None, attempted, attempts;
        }
        var ok, latest := runtime.ListContainers(cfg.prefix);
        if !ok {
          return None, attempted, attempts;
        }
        ManagedOf(runtime.containers, old(runtime.containers), cfg.prefix);
        if |latest| >= cfg.maxAutoRunners {
          return None, attempted, attempts;
        }
        snapshot := ContainerNames(latest);
      }
      name := None;
    }

    /** Removes what a failed scale-up left; its own failures are only reported. */
    method CleanupFailedScaleUp(name: string, attemptStop: bool) returns (ok: bool)
      modifies runtime`containers, runtime`calls
      ensures runtime.containers.Keys <= old(runtime.containers.Keys) - if ok then {name} else {}
      ensures runtime.calls == old(runtime.calls) + if attemptStop then [Stop(name), Delete(name)] else [Delete(name)]
      ensures runtime.reliable ==> ok
    {
      ok := true;
      if attemptStop {
        ok := runtime.StopContainer(name);
      }
      var deleted := runtime.DeleteContainer(name);
      ok := ok && deleted;
    }

    /** The store holds the second of `t` for the container. */
    ghost predicate StoredAt(name: string, t: int)
      reads state
    {
      name in state.seconds && state.seconds[name] == t / SECOND
    }

    /** Starts and registers a cloned runner; its idle time counts from here. A failure on the way
        cleans the container up, which `stopped` says more of. */
    method ConfigureClonedRunner(name: string) returns (ok: bool, ghost stopped: bool)
      requires state.working ==> StoreCovers()
      modifies runtime`containers, runtime`calls, state, clock
      ensures runtime.containers.Keys <= old(runtime.containers.Keys)
      ensures (ok ==> !stopped) && runtime.calls == AfterConfigure(old(runtime.calls), name, ok, stopped)
      ensures runtime.calls != [] && runtime.calls[|runtime.calls| - 1] == if ok then Command(name) else Delete(name)
      ensures runtime.reliable ==> ok && runtime.containers.Keys == old(runtime.containers.Keys)
      ensures runtime.reliable && name in old(runtime.containers) ==>
                name in runtime.containers && runtime.containers[name] == Running
      ensures clock.time >= old(clock.time)
      ensures state.working ==> StoreCovers() && (ok ==> StoredAt(name, clock.time))
      ensures OthersKept(old(state.seconds), state.seconds, name, false, true)
    {
      stopped := false;
      ok := runtime.StartContainer(name);
      if !ok {
        var _ := CleanupFailedScaleUp(name, false);
        return;
      }
      // Ready check, registration, service start.
      for stage := 0 to 3
        invariant !stopped && runtime.containers.Keys <= old(runtime.containers.Keys)
        invariant runtime.calls == AfterConfigure(old(runtime.calls), name, true, false)
        invariant runtime.reliable ==> runtime.containers.Keys == old(runtime.containers.Keys)
        invariant runtime.reliable && name in old(runtime.containers) ==> runtime.containers[name] == Running
        modifies runtime`containers, runtime`calls
      {
        ok := runtime.Exec(name);
        if !ok {
          var _ := CleanupFailedScaleUp(name, true);
          stopped := true;
          return;
        }
      }
      var now := clock.Now();
      var _ := state.SetLastActive(name, now);
      ok := true;
    }

    /** Clones and configures one runner inside a mutation section, which every way out closes. */
    method ScaleUp(existing: seq<string>) returns (name: Option<string>, ghost try: Try)
      requires ci.Resumed() && (state.working ==> StoreCovers())
      modifies runtime`containers, runtime`listedAs, runtime`calls, ci.cache, ci`depth, ci`granted, state, clock
      ensures ci.Resumed() && ci.cache.stored.None?
      ensures clock.time >= old(clock.time)
      ensures state.working ==> StoreCovers() && (name.Some? ==> StoredAt(name.value, clock.time))
      ensures runtime.containers.Keys <= old(runtime.containers.Keys) + {try.name}
      ensures TryTrue(try) && HasPrefix(try.name, cfg.prefix)
      ensures (name.Some? <==> Succeeded(try)) && (name.Some? ==> name.value == try.name)
      ensures runtime.calls == AfterTry(old(runtime.calls), try)
      ensures try.cloned ==> ci.granted > old(ci.granted)
      ensures try.cloned ==>
                runtime.calls != [] &&
                runtime.calls[|runtime.calls| - 1] == if name.Some? then Command(try.name) else Delete(try.name)
      ensures old(runtime.listedAs) <= runtime.listedAs
      ensures Reliable() && |Managed(old(runtime.containers), cfg.prefix)| < cfg.maxAutoRunners ==>
                && name.Some? && try.attempts <= 2
                && try.name !in old(runtime.containers)
                && runtime.containers.Keys == old(runtime.containers.Keys) + {try.name}
                && runtime.containers[try.name] == Running
                && ((forall n :: n in existing ==> n in old(runtime.containers)) ==>
                      LeastFree(cfg.prefix, try.name, old(runtime.containers.Keys)))
    {
      hide Managed, HasPrefix, LeastFree;
      name := None;
      try := Try(NameAt(cfg.prefix, 0), false, false, false, 0);
      NameAtHasPrefix(cfg.prefix, 0);
      ci.Suspend();
      var token := ci.GetToken();
      if token.None? {
        ci.Resume();
        return;
      }
      ghost var attempted, attempts;
      name, attempted, attempts := CloneWithFreshName(existing);
      try := Try(attempted, false, false, false, attempts);
      if name.Some? {
        var ok, stopped := ConfigureClonedRunner(name.value);
        try := Try(attempted, true, ok, stopped, attempts);
        ConfiguredTry(old(runtime.calls), try);
        if !ok {
          name := None;
        }
      }
      ci.Resume();
    }

    ghost predicate Reliable() {
      runtime.reliable && ci.reliable
    }

    // ---------- scale-down ----------

    method GetRemoveToken(pass: ReconcilePass) returns (token: Option<string>)
      requires ci.Consistent() && ci.depth == 1
      modifies pass, ci.cache, ci`granted
      ensures ci.Consistent()
      ensures token.Some? ==> pass.removeToken == token
      ensures ci.granted == old(ci.granted) + if old(pass.removeToken).None? && token.Some? then 1 else 0
      ensures old(pass.removeToken).Some? ==> token == old(pass.removeToken) && pass.removeToken == token
    {
      if pass.removeToken.Some? {
        return pass.removeToken;
      }
      token := ci.GetToken();
      if token.Some? {
        pass.removeToken := token;
      }
    }

    /** Stops the service and removes the registration, as far as the container and the API let it. The
        API is asked to delete the container's own runner, and never a busy one. */
    method Deregister(name: string, runners: seq<Runner>, pass: ReconcilePass) returns (clean: bool)
      requires ci.Consistent() && ci.depth == 1
      modifies runtime`containers, runtime`calls, ci.cache, ci`granted, ci`deleted, pass
      ensures ci.Consistent() && ci.depth == 1
      ensures runtime.containers.Keys <= old(runtime.containers.Keys)
      ensures runtime.reliable ==> runtime.containers.Keys == old(runtime.containers.Keys)
      ensures ci.deleted == old(ci.deleted) + Removable(FirstNamed(runners, name))
      ensures forall id :: id in ci.deleted && id !in old(ci.deleted) ==>
                exists r :: r in runners && r.name == name && !r.busy && r.id == id
      ensures runtime.calls == Commanded(old(runtime.calls), name)
    {
      clean := runtime.Exec(name);
      if clean {
        clean := runtime.Exec(name);
      }
      var token := GetRemoveToken(pass);
      if token.None? {
        clean := false;
      } else if token.value != "" {
        var removed := runtime.Exec(name);
        clean := clean && removed;
      }
      var runner := FindRunner(name, runners);
      if runner.Some? && !runner.value.busy {
        var _ := ci.DeleteRunner(runner.value.id);
      }
    }

    /** Tears one container down inside a mutation section. It counts as deleted exactly when the
        runtime deleted it. */
    method ScaleDown(name: string, runners: seq<Runner>, pass: ReconcilePass) returns (deleted: bool, clean: bool)
      requires ci.Resumed() && (state.working ==> StoreCovers())
      modifies runtime`containers, runtime`calls, ci.cache, ci`depth, ci`granted, ci`deleted, state, pass
      ensures ci.Resumed() && ci.cache.stored.None?
      ensures state.working ==> StoreCovers() && name !in state.seconds
      ensures OthersKept(old(state.seconds), state.seconds, name, true, state.working)
      ensures forall n :: n in Forgotten(old(state.seconds), name) ==> n in state.seconds
      ensures name in state.seconds ==> name in old(state.seconds) && state.seconds[name] == old(state.seconds)[name]
      ensures runtime.containers.Keys <= old(runtime.containers.Keys) - if deleted then {name} else {}
      ensures runtime.reliable ==> deleted && runtime.containers.Keys == old(runtime.containers.Keys) - {name}
      ensures runtime.calls == AfterTeardown(old(runtime.calls), name)
      ensures old(runtime.calls) <= runtime.calls && |runtime.calls| >= 3
              && runtime.calls[|runtime.calls| - 3..] == [Command(name), Stop(name), Delete(name)]
      ensures ci.deleted == old(ci.deleted) + Removable(FirstNamed(runners, name))
    {
      hide FirstNamed;
      ci.Suspend();
      clean := Deregister(name, runners, pass);
      var stopped := runtime.StopContainer(name);
      deleted := runtime.DeleteContainer(name);
      var forgotten := state.Delete(name);
      clean := clean && stopped && deleted && forgotten;
      ci.Resume();
    }

    /** The stored time, or a first record of `now` when there is none. */
    method LastActiveOr(name: string, now: int) returns (lastActive: int)
      requires now <= clock.time && forall n :: n in lastBusy ==> lastBusy[n] <= now
      requires state.working ==> StoreCovers()
      modifies state
      ensures state.working ==> StoreCovers()
      ensures state.working && name in lastBusy ==> lastActive > lastBusy[name] - SECOND
      ensures state.working ==>
                lastActive == if name in old(state.seconds) then old(state.seconds)[name] * 1_000_000_000 else now
      ensures lastActive == Recorded(old(state.seconds), name, now) || (!state.working && lastActive == now)
      ensures OthersKept(old(state.seconds), state.seconds, name, false, true)
    {
      var stored := state.GetLastActive(name);
      if stored.None? {
        var _ := state.SetLastActive(name, now);
        return now;
      }
      if state.working && name in lastBusy {
        assert lastBusy[name] / SECOND <= state.seconds[name];
        WholeSeconds(lastBusy[name], state.seconds[name]);
      }
      lastActive := stored.value;
    }

    /** Records a justified teardown and carries it out. */
    method TearDown(runners: seq<Runner>, pass: ReconcilePass, name: string, ghost d: Sight) returns (deleted: bool)
      requires Valid()
      requires d.name == name && d.runner == FirstNamed(runners, name)
      requires Due(cfg, d) && !Working(d) && (state.working ==> RespectsLastJob(cfg, d))
      modifies runtime`containers, runtime`calls
      modifies ci.cache, ci`depth, ci`granted, ci`deleted, state, pass, this`teardowns
      ensures Valid() && Books() == Entered(cfg, old(Books()), d)
      ensures OthersKept(old(state.seconds), state.seconds, name, true, state.working)
      ensures runtime.containers.Keys <= old(runtime.containers.Keys) - if deleted then {name} else {}
      ensures runtime.reliable ==> deleted && runtime.containers.Keys == old(runtime.containers.Keys) - {name}
    {
      hide FirstNamed, RespectsLastJob, OthersKept;
      teardowns := teardowns + [d];
      var clean;
      deleted, clean := ScaleDown(name, runners, pass);
    }

    /** The decision for a container that is not stopped. */
    method ConsiderLive(c: Container, status: Status, runners: seq<Runner>, now: int, pass: ReconcilePass)
      returns (deleted: bool, countsAsPending: bool, ghost sight: Sight)
      requires Valid() && status != Stopped
      requires now <= clock.time && forall n :: n in lastBusy ==> lastBusy[n] <= now
      modifies runtime`containers, runtime`calls, ci.cache, ci`depth, ci`granted, ci`deleted, state, pass
      modifies this`lastBusy, this`teardowns
      ensures Valid()
      ensures Looked(sight, c, Some(status), runners, now, BusyIn(old(lastBusy), c.name), old(state.seconds),
                     state.working)
      ensures Books() == Entered(cfg, old(Books()), sight)
      ensures countsAsPending == Provisioning(cfg, sight)
      ensures deleted ==> Due(cfg, sight)
      ensures OthersKept(old(state.seconds), state.seconds, c.name, Due(cfg, sight), state.working)
      ensures runtime.containers.Keys <= old(runtime.containers.Keys) - if deleted then {c.name} else {}
      ensures runtime.reliable ==>
                && (deleted <==> Due(cfg, sight))
                && runtime.containers.Keys == old(runtime.containers.Keys) - if deleted then {c.name} else {}
    {
      deleted, countsAsPending := false, false;
      var runner := FindRunner(c.name, runners);
      sight := Sight(c.name, now, Some(status), runner, None, BusyIn(lastBusy, c.name));
      if runner.Some? && runner.value.busy {
        KeepBusy(c.name, now);
        return;
      }
      var lastActive := LastActiveOr(c.name, now);
      sight := sight.(lastActive := Some(lastActive));
      if runner.None? {
        if now - lastActive < cfg.Grace() {
          return;
        }
        deleted := TearDown(runners, pass, c.name, sight);
      } else {
        countsAsPending := PendingCapacity(status, runner.value, cfg.labels, now - lastActive, cfg.Grace());
        if now - lastActive >= cfg.idleTimeout {
          deleted := TearDown(runners, pass, c.name, sight);
        }
      }
    }

    /** A running, busy container is active now. */
    method KeepBusy(name: string, now: int)
      requires Valid()
      requires now <= clock.time && forall n :: n in lastBusy ==> lastBusy[n] <= now
      modifies state, this`lastBusy
      ensures Valid() && lastBusy == old(lastBusy)[name := now]
      ensures OthersKept(old(state.seconds), state.seconds, name, false, true)
    {
      var _ := state.SetLastActive(name, now);
      lastBusy := lastBusy[name := now];
    }

    /** One turn of the scale-down loop. A container whose status cannot be read is left alone. */
    method ConsiderContainer(c: Container, runners: seq<Runner>, available: nat, now: int, pass: ReconcilePass)
      returns (deleted: bool, countsAsPending: bool, ghost sight: Sight)
      requires Valid()
      requires now <= clock.time && forall n :: n in lastBusy ==> lastBusy[n] <= now
      modifies runtime`containers, runtime`statusReads, runtime`calls
      modifies ci.cache, ci`depth, ci`granted, ci`deleted, state, pass
      modifies this`lastBusy, this`teardowns
      ensures Valid()
      ensures Looked(sight, c, sight.status, runners, now, BusyIn(old(lastBusy), c.name), old(state.seconds),
                     state.working)
      ensures if NeedsRead(c, available) then
                runtime.statusReads == old(runtime.statusReads) + {StatusRead(c.name, sight.status)}
              else runtime.statusReads == old(runtime.statusReads) && sight.status == Some(c.status)
      ensures Books() == Entered(cfg, old(Books()), sight)
      ensures countsAsPending == Provisioning(cfg, sight)
      ensures deleted ==> Due(cfg, sight)
      ensures OthersKept(old(state.seconds), state.seconds, c.name, Due(cfg, sight), state.working)
      ensures runtime.containers.Keys <= old(runtime.containers.Keys) - if deleted then {c.name} else {}
      ensures runtime.reliable ==>
                && (deleted <==> Due(cfg, sight))
                && runtime.containers.Keys == old(runtime.containers.Keys) - if deleted then {c.name} else {}
    {
      var status := c.status;
      if status == Unknown || (available > 0 && status == Stopped) {
        var read := runtime.GetContainerStatus(c.name);
        if read.None? {
          sight := Sight(c.name, now, None, FirstNamed(runners, c.name), None, BusyIn(lastBusy, c.name));
          return false, false, sight;
        }
        status := read.value;
      }
      if status == Stopped {
        sight := Sight(c.name, now, Some(Stopped), FirstNamed(runners, c.name), None, BusyIn(lastBusy, c.name));
        deleted := TearDown(runners, pass, c.name, sight);
        countsAsPending := false;
      } else {
        deleted, countsAsPending, sight := ConsiderLive(c, status, runners, now, pass);
      }
    }

    /** Reads every status live; one that cannot be read becomes unknown. */
    method RefreshContainerStatuses(listed: seq<Container>) returns (refreshed: seq<Container>)
      modifies runtime`containers, runtime`statusReads
      ensures ContainerNames(refreshed) == ContainerNames(listed)
      ensures forall c :: c in refreshed && c.status != Unknown ==>
                StatusRead(c.name, Some(c.status)) in runtime.statusReads
      ensures runtime.containers.Keys <= old(runtime.containers.Keys)
      ensures runtime.reliable ==> runtime.containers.Keys == old(runtime.containers.Keys)
    {
      refreshed := [];
      for i := 0 to |listed|
        invariant |refreshed| == i && forall j :: 0 <= j < i ==> refreshed[j].name == listed[j].name
        invariant forall c :: c in refreshed && c.status != Unknown ==>
                    StatusRead(c.name, Some(c.status)) in runtime.statusReads
        invariant runtime.containers.Keys <= old(runtime.containers.Keys)
        invariant runtime.reliable ==> runtime.containers.Keys == old(runtime.containers.Keys)
      {
        var read := runtime.GetContainerStatus(listed[i].name);
        refreshed := refreshed + [Container(listed[i].name, if read.None? then Unknown else read.value)];
      }
    }

    /** One turn of the scale-down loop keeps its books. */
    method ScaleDownTurn(listed: seq<Container>, i: nat, runners: seq<Runner>, available: nat, now: int,
                         pass: ReconcilePass, ghost v: View, ghost opening: Ledger, ghost l: Loop)
      returns (deleted: bool, countsAsPending: bool, ghost sight: Sight)
      requires Valid() && i < |listed| && |l.sights| == i
      requires v.runners == runners && v.available == available && v.now == now && v.working == state.working
      requires now <= clock.time && l.tally.exact == runtime.reliable
      requires InStep(cfg, listed, v, l, opening, Books(), runtime.statusReads, state.seconds,
                      Managed(runtime.containers, cfg.prefix))
      modifies runtime`containers, runtime`statusReads, runtime`calls
      modifies ci.cache, ci`depth, ci`granted, ci`deleted, state, pass
      modifies this`lastBusy, this`teardowns
      ensures Valid() && old(runtime.statusReads) <= runtime.statusReads
      ensures InStep(cfg, listed, v, Turned(l, sight, deleted, countsAsPending), opening, Books(), runtime.statusReads,
                     state.seconds, Managed(runtime.containers, cfg.prefix))
      ensures sight.name == listed[i].name
    {
      hide Valid, Managed, InStep, OthersKept, Due, Provisioning;
      ghost var containers, seen, seconds, books := runtime.containers, runtime.statusReads, state.seconds, Books();
      InStepMeans(cfg, listed, v, l, opening, books, seen, seconds, Managed(containers, cfg.prefix));
      var c := listed[i];
      deleted, countsAsPending, sight := ConsiderContainer(c, runners, available, now, pass);
      ManagedStep(containers, runtime.containers, cfg.prefix, c.name);
      InStepTurn(cfg, listed, v, l, opening, books, seen, runtime.statusReads, seconds, state.seconds,
                 Managed(containers, cfg.prefix), Managed(runtime.containers, cfg.prefix), sight, deleted);
    }

    /** The scale-down loop. What it tears down, what it counts as pending and what it enters in the books
        are exactly the decisions on its sights. `autoCount` is what it believes is left of the listed
        containers; nothing else is managed, and with a reliable runtime exactly that is. */
    method ScaleDownPhase(listed: seq<Container>, runners: seq<Runner>, available: nat, now: int)
      returns (autoCount: int, removed: set<string>, pending: nat, ghost sights: seq<Sight>)
      requires Valid()
      requires now <= clock.time && forall n :: n in lastBusy ==> lastBusy[n] <= now
      requires Distinct(ContainerNames(listed))
      requires Managed(runtime.containers, cfg.prefix) <= NameSet(listed)
      modifies runtime`containers, runtime`statusReads, runtime`calls, ci.cache, ci`depth, ci`granted, ci`deleted, state
      modifies this`lastBusy, this`teardowns
      ensures Valid()
      ensures var v := View(runners, available, now, old(lastBusy), old(state.seconds), state.working);
              |sights| == |listed| && SightsTrue(cfg, sights, listed, v, runtime.statusReads)
      ensures old(runtime.statusReads) <= runtime.statusReads
      ensures Books() == Closed(cfg, old(Books()), sights)
      ensures pending == CountProvisioning(cfg, sights)
      ensures removed <= DueNames(cfg, sights) && (runtime.reliable ==> removed == DueNames(cfg, sights))
      ensures removed <= NameSet(listed) && autoCount == |NameSet(listed) - removed|
      ensures Managed(runtime.containers, cfg.prefix) <= NameSet(listed) - removed
      ensures runtime.reliable ==>
                Managed(runtime.containers, cfg.prefix) == Managed(old(runtime.containers), cfg.prefix) - removed
    {
      hide Valid, Managed, NameSet, InStep, SightsTrue, DueNames, CountProvisioning, Closed, Distinct;
      var pass := new ReconcilePass();
      autoCount, removed, pending := |listed|, {}, 0;
      ghost var v := View(runners, available, now, lastBusy, state.seconds, state.working);
      ghost var opening, managed := Books(), Managed(runtime.containers, cfg.prefix);
      ghost var l := Loop([], 0, Tally(NameSet(listed), {}, |listed|, managed, runtime.reliable));
      InStepStart(cfg, listed, v, l, opening, runtime.statusReads, managed);
      for i := 0 to |listed|
        invariant Valid() && old(runtime.statusReads) <= runtime.statusReads
        invariant InStep(cfg, listed, v, l, opening, Books(), runtime.statusReads, state.seconds,
                         Managed(runtime.containers, cfg.prefix))
        invariant |l.sights| == i && pending == l.pending
        invariant autoCount == l.tally.count && removed == l.tally.removed
        invariant l.tally.names == NameSet(listed) && l.tally.exact == runtime.reliable && l.tally.start == managed
      {
        var deleted, countsAsPending, sight :=
          ScaleDownTurn(listed, i, runners, available, now, pass, v, opening, l);
        l := Turned(l, sight, deleted, countsAsPending);
        if deleted {
          autoCount, removed := autoCount - 1, removed + {listed[i].name};
        }
        if countsAsPending {
          pending := pending + 1;
        }
      }
      sights := l.sights;
      InStepMeans(cfg, listed, v, l, opening, Books(), runtime.statusReads, state.seconds,
                  Managed(runtime.containers, cfg.prefix));
    }

    /** The scale-up loop. `autoCount` bounds what is managed (`tracked`); names removed earlier in the
        pass are hidden from the name search even when this loop has reused them. Nothing grows past the
        limit, and no more scale-ups are tried than needed, even when a clone or a cleanup fails half way:
        only the names tried can be new. With nothing but name conflicts going wrong exactly the missing
        containers are created, with distinct names not in use, in at most two attempts each. */
    method ScaleUpPhase(listed: seq<Container>, removed: set<string>, autoCount: int, needed: int,
                        ghost tracked: set<string>)
      returns (ghost tries: seq<Try>)
      requires Valid()
      requires Managed(runtime.containers, cfg.prefix) <= tracked && |tracked| == autoCount
      requires tracked == NameSet(listed) - removed
      modifies runtime`containers, runtime`listedAs, runtime`calls, ci.cache, ci`depth, ci`granted, state, clock
      ensures Valid() && clock.time >= old(clock.time)
      ensures |Managed(runtime.containers, cfg.prefix)| <= Max(autoCount, cfg.maxAutoRunners)
      ensures |tries| <= Max(0, needed) && |tries| <= Max(0, cfg.maxAutoRunners - autoCount)
      ensures Managed(runtime.containers, cfg.prefix) <= tracked + Tried(tries)
      ensures TriesTrue(tries, cfg.prefix) && runtime.calls == AfterTries(old(runtime.calls), tries)
      ensures old(runtime.listedAs) <= runtime.listedAs
      ensures Reliable() && tracked == Managed(old(runtime.containers), cfg.prefix) ==>
                && |tries| == Min(Max(0, needed), Max(0, cfg.maxAutoRunners - autoCount))
                && AllNew(cfg.prefix, tries, tracked)
                && Managed(runtime.containers, cfg.prefix) == tracked + Tried(tries)
    {
      hide Valid, Managed, TriesTrue, AllNew, Tried, AfterTries, AfterTry, TryTrue, HasPrefix;
      tries := [];
      var containers, count, missing := listed, autoCount, needed;
      ghost var start := Managed(runtime.containers, cfg.prefix);
      ghost var exact := Reliable() && tracked == start;
      SubsetSize(start, tracked);
      NoTries(cfg.prefix, tracked, runtime.calls);
      while missing > 0 && count < cfg.maxAutoRunners
        invariant Valid() && clock.time >= old(clock.time) && old(runtime.listedAs) <= runtime.listedAs
        invariant Managed(runtime.containers, cfg.prefix) <= tracked + Tried(tries)
        invariant |tracked + Tried(tries)| <= count && |Managed(runtime.containers, cfg.prefix)| <= count
        invariant count == autoCount + |tries| && missing == needed - |tries|
        invariant tries == [] || (missing >= 0 && count <= cfg.maxAutoRunners)
        invariant TriesTrue(tries, cfg.prefix) && forall t :: t in tries ==> Succeeded(t)
        invariant runtime.calls == AfterTries(old(runtime.calls), tries)
        invariant exact ==> tracked + Tried(tries) == Managed(runtime.containers, cfg.prefix) &&
                            |tracked + Tried(tries)| == count && AllNew(cfg.prefix, tries, tracked)
        invariant forall n :: n in ContainerNames(containers) && n !in removed ==> n in tracked + Tried(tries)
        decreases missing
      {
        var existing := FilterRemovedContainers(containers, removed);
        ghost var before, used := runtime.containers, Managed(runtime.containers, cfg.prefix);
        ghost var counted := tracked + Tried(tries);
        ManagedExist(before, cfg.prefix);
        var name, try := ScaleUpKeepingValid(existing);
        ManagedGrows(before, runtime.containers, cfg.prefix, try.name);
        GrowsByOne(counted, try.name);
        OneMoreTried(cfg.prefix, tries, try, tracked);
        OneMoreTry(old(runtime.calls), tries, try);
        SubsetSize(Managed(runtime.containers, cfg.prefix), counted + {try.name});
        tries := tries + [try];
        if name.None? {
          return;
        }
        ListOneMore(containers, name.value, Running);
        containers := containers + [Container(name.value, Running)];
        count, missing := count + 1, missing - 1;
      }
    }

    method ScaleUpKeepingValid(existing: seq<string>) returns (name: Option<string>, ghost try: Try)
      requires Valid()
      modifies runtime`containers, runtime`listedAs, runtime`calls, ci.cache, ci`depth, ci`granted, state, clock
      ensures Valid() && clock.time >= old(clock.time)
      ensures runtime.containers.Keys <= old(runtime.containers.Keys) + {try.name}
      ensures TryTrue(try) && HasPrefix(try.name, cfg.prefix)
      ensures (name.Some? <==> Succeeded(try)) && (name.Some? ==> name.value == try.name)
      ensures runtime.calls == AfterTry(old(runtime.calls), try)
      ensures old(runtime.listedAs) <= runtime.listedAs
      ensures Reliable() && |Managed(old(runtime.containers), cfg.prefix)| < cfg.maxAutoRunners ==>
                && name.Some? && try.attempts <= 2
                && try.name !in Managed(old(runtime.containers), cfg.prefix)
                && runtime.containers.Keys == old(runtime.containers.Keys) + {try.name}
                && ((forall n :: n in existing ==> n in old(runtime.containers)) ==>
                      LeastFree(cfg.prefix, try.name, Managed(old(runtime.containers), cfg.prefix)))
    {
      hide AfterTry, LeastFree;
      ghost var before := runtime.containers;
      name, try := ScaleUp(existing);
      LeastOfManaged(before, cfg.prefix, try.name);
    }

    // ---------- baseline ----------

    /** The baseline's turn leaves every other stored time alone, except names that continue its own with
        a dot. */
    twostate predicate OthersRemembered()
      reads state
    {
      Forgotten(old(state.seconds), cfg.baselineName) == Forgotten(state.seconds, cfg.baselineName)
    }

    /** An offline baseline container is left while it is running and young, removed otherwise. */
    method KeepOrRemoveBaseline(status: Status, runners: seq<Runner>)
      returns (fate: BaselineFate, ghost seen: BaselineSight)
      requires ci.Resumed() && (state.working ==> StoreCovers())
      modifies runtime`containers, runtime`calls, ci.cache, ci`depth, ci`granted, ci`deleted, state, clock
      ensures ci.Resumed()
      ensures clock.time >= old(clock.time) && (state.working ==> StoreCovers()) && OthersRemembered()
      ensures runtime.containers.Keys <= old(runtime.containers.Keys) - if fate.Removed? then {cfg.baselineName} else {}
      ensures runtime.reliable ==>
                && !fate.Stuck?
                && runtime.containers.Keys ==
                     old(runtime.containers.Keys) - if fate.Left? then {} else {cfg.baselineName}
      ensures seen.status == status && JudgedBy(seen, old(state.seconds), old(clock.time), clock.time)
      ensures fate.Left? <==> Stays(cfg, seen)
      ensures state.working ==>
                (fate.Left? <==>
                  && status == Running
                  && (cfg.baselineName in old(state.seconds) ==>
                        seen.now - old(state.seconds)[cfg.baselineName] * 1_000_000_000 <
                          if cfg.idleTimeout <= 0 || cfg.idleTimeout > 120_000_000_000 then 120_000_000_000
                          else cfg.idleTimeout))
      ensures runtime.calls ==
              if Stays(cfg, seen) then old(runtime.calls) else AfterTeardown(old(runtime.calls), cfg.baselineName)
      ensures ci.deleted ==
              old(ci.deleted) + if Stays(cfg, seen) then {} else Removable(FirstNamed(runners, cfg.baselineName))
    {
      hide FirstNamed;
      seen := BaselineSight(status, clock.time, clock.time);
      if status == Running {
        var lastActive := state.GetLastActive(cfg.baselineName);
        var now := clock.Now();
        seen := BaselineSight(status, now, if lastActive.Some? then lastActive.value else now);
        if lastActive.None? {
          var _ := state.SetLastActive(cfg.baselineName, now);
          return Left, seen;
        }
        if now - lastActive.value < cfg.Grace() {
          return Left, seen;
        }
      }
      var pass := new ReconcilePass();
      var deleted, _ := ScaleDown(cfg.baselineName, runners, pass);
      fate := if deleted then Removed else Stuck;
    }

    /** A running container was judged by its stored time, or from now on, at a reading in between. */
    ghost predicate JudgedBy(seen: BaselineSight, seconds: map<string, int>, since: int, until: int) {
      && since <= seen.now <= until
      && (seen.status == Running ==>
            || seen.lastActive == Recorded(seconds, cfg.baselineName, seen.now)
            || (!state.working && seen.lastActive == seen.now))
    }

    /** Clones and configures the baseline inside a mutation section, which every way out closes. */
    method ProvisionBaseline() returns (pending: Option<nat>, ghost try: Try)
      requires ci.Resumed() && (state.working ==> StoreCovers())
      modifies runtime`containers, runtime`calls, ci.cache, ci`depth, ci`granted, state, clock
      ensures ci.Resumed() && ci.cache.stored.None?
      ensures clock.time >= old(clock.time) && (state.working ==> StoreCovers()) && OthersRemembered()
      ensures runtime.containers.Keys <= old(runtime.containers.Keys) + {cfg.baselineName}
      ensures TryTrue(try) && try.name == cfg.baselineName && (try.cloned ==> ci.granted > old(ci.granted))
      ensures runtime.calls == AfterTry(old(runtime.calls), try)
      ensures pending == if Succeeded(try) then Some(1) else None
      ensures Reliable() && cfg.baselineName !in old(runtime.containers) ==> pending.Some?
      ensures runtime.reliable ==>
                runtime.containers.Keys + {cfg.baselineName} == old(runtime.containers.Keys) + {cfg.baselineName}
      ensures runtime.reliable && pending.Some? ==> cfg.baselineName in runtime.containers
    {
      hide StoredAt, HasPrefix, AfterTry, AfterConfigure, Commanded;
      pending, try := None, Try(cfg.baselineName, false, false, false, 0);
      NotCloned(runtime.calls, try);
      ci.Suspend();
      var token := ci.GetToken();
      if token.None? {
        ci.Resume();
        return;
      }
      var result := runtime.CloneFromTemplate(cfg.baselineName);
      if result.Cloned? {
        var ok, stopped := ConfigureClonedRunner(cfg.baselineName);
        try := Try(cfg.baselineName, true, ok, stopped, 1);
        ConfiguredTry(old(runtime.calls), try);
        pending := if ok then Some(1) else None;
      }
      ci.Resume();
    }

    /** Keeps the class's permanent runner. Its container never counts as overflow: its name does not
        start with the class prefix. */
    method EnsureBaseline(runners: seq<Runner>) returns (pending: Option<nat>, ghost work: BaselineWork)
      requires ci.Resumed() && (state.working ==> StoreCovers())
      modifies runtime`containers, runtime`listedAs, runtime`calls
      modifies ci.cache, ci`depth, ci`granted, ci`deleted, state, clock
      ensures ci.Resumed()
      ensures clock.time >= old(clock.time) && (state.working ==> StoreCovers()) && OthersRemembered()
      ensures runtime.containers.Keys <= old(runtime.containers.Keys) + {cfg.baselineName}
      ensures runtime.reliable ==>
                runtime.containers.Keys + {cfg.baselineName} == old(runtime.containers.Keys) + {cfg.baselineName}
      ensures old(runtime.listedAs) <= runtime.listedAs && BaselineTrue(cfg, work, runners, runtime.listedAs)
      ensures work.seen.Some? ==> JudgedBy(work.seen.value, old(state.seconds), old(clock.time), clock.time)
      ensures runtime.calls == AfterBaseline(cfg, old(runtime.calls), work)
      ensures ci.deleted ==
              old(ci.deleted) + if Removes(cfg, work) then Removable(FirstNamed(runners, cfg.baselineName)) else {}
      ensures (if pending.Some? then pending.value else 0) == BaselinePending(cfg, work)
      ensures Reliable() && !Blank(cfg.baselineName) && !BaselineOnline(cfg, runners) ==>
                BaselinePending(cfg, work) == 1 && cfg.baselineName in runtime.containers
    {
      hide FirstNamed, JudgedBy;
      work := NO_WORK;
      if Blank(cfg.baselineName) {
        return None, work;
      }
      for i := 0 to |runners|
        invariant forall r :: r in runners[..i] ==> !(r.name == cfg.baselineName && r.online)
      {
        if runners[i].name == cfg.baselineName && runners[i].online {
          assert runners[i] in runners;
          return Some(0), work;
        }
      }
      assert runners[..|runners|] == runners;
      pending, work := ReviveBaseline(runners);
    }

    /** The offline baseline: leaves or removes its container, then provisions a new one. */
    method ReviveBaseline(runners: seq<Runner>) returns (pending: Option<nat>, ghost work: BaselineWork)
      requires ci.Resumed() && (state.working ==> StoreCovers())
      requires !Blank(cfg.baselineName) && !BaselineOnline(cfg, runners)
      modifies runtime`containers, runtime`listedAs, runtime`calls
      modifies ci.cache, ci`depth, ci`granted, ci`deleted, state, clock
      ensures ci.Resumed()
      ensures clock.time >= old(clock.time) && (state.working ==> StoreCovers()) && OthersRemembered()
      ensures runtime.containers.Keys <= old(runtime.containers.Keys) + {cfg.baselineName}
      ensures runtime.reliable ==>
                runtime.containers.Keys + {cfg.baselineName} == old(runtime.containers.Keys) + {cfg.baselineName}
      ensures old(runtime.listedAs) <= runtime.listedAs && BaselineTrue(cfg, work, runners, runtime.listedAs)
      ensures work.seen.Some? ==> JudgedBy(work.seen.value, old(state.seconds), old(clock.time), clock.time)
      ensures runtime.calls == AfterBaseline(cfg, old(runtime.calls), work)
      ensures ci.deleted ==
              old(ci.deleted) + if Removes(cfg, work) then Removable(FirstNamed(runners, cfg.baselineName)) else {}
      ensures (if pending.Some? then pending.value else 0) == BaselinePending(cfg, work)
      ensures Reliable() ==> BaselinePending(cfg, work) == 1 && cfg.baselineName in runtime.containers
    {
      hide FirstNamed, Blank, BaselineOnline, JudgedBy, StoreCovers, Removable, Stays, AfterTry, AfterTeardown, TryTrue;
      var fate, seen := RetireBaseline(runners);
      work := BaselineWork(seen, None);
      pending := None;
      if fate.Left? {
        pending := Some(1);
      } else if fate.Removed? {
        ghost var try;
        pending, try := ProvisionBaseline();
        work := work.(provisioned := Some(try));
      }
      if seen.Some? {
        JudgedLater(seen.value, old(state.seconds), old(clock.time));
      }
    }

    lemma JudgedLater(seen: BaselineSight, seconds: map<string, int>, since: int)
      ensures forall until, later :: until <= later && JudgedBy(seen, seconds, since, until) ==>
                JudgedBy(seen, seconds, since, later)
    {
    }

    /** Leaves the baseline container, or removes it; `Removed` also when there is none, `Stuck` also when
        listing failed. */
    method RetireBaseline(runners: seq<Runner>) returns (fate: BaselineFate, ghost seen: Option<BaselineSight>)
      requires ci.Resumed() && (state.working ==> StoreCovers())
      modifies runtime`containers, runtime`listedAs, runtime`calls
      modifies ci.cache, ci`depth, ci`granted, ci`deleted, state, clock
      ensures ci.Resumed()
      ensures clock.time >= old(clock.time) && (state.working ==> StoreCovers()) && OthersRemembered()
      ensures runtime.containers.Keys <= old(runtime.containers.Keys) && old(runtime.listedAs) <= runtime.listedAs
      ensures runtime.reliable ==>
                && !fate.Stuck? && (fate.Left? <==> cfg.baselineName in runtime.containers)
                && runtime.containers.Keys + {cfg.baselineName} == old(runtime.containers.Keys) + {cfg.baselineName}
      ensures seen.Some? ==>
                && JudgedBy(seen.value, old(state.seconds), old(clock.time), clock.time)
                && Container(cfg.baselineName, seen.value.status) in runtime.listedAs
      ensures fate.Left? <==> seen.Some? && Stays(cfg, seen.value)
      ensures runtime.calls ==
              if seen.Some? && !fate.Left? then AfterTeardown(old(runtime.calls), cfg.baselineName)
              else old(runtime.calls)
      ensures ci.deleted ==
              old(ci.deleted) +
              if seen.Some? && !fate.Left? then Removable(FirstNamed(runners, cfg.baselineName)) else {}
    {
      hide FirstNamed, JudgedBy, StoreCovers, Distinct, Removable, Managed, Stays, AfterTeardown;
      fate, seen := Stuck, None;
      var listedOk, listed := runtime.ListContainers(cfg.baselineName);
      if listedOk {
        ListedOrNot(listed, runtime.containers, cfg.baselineName);
        fate, seen := RetireListed(listed, runners);
      }
    }

    method RetireListed(listed: seq<Container>, runners: seq<Runner>)
      returns (fate: BaselineFate, ghost seen: Option<BaselineSight>)
      requires ci.Resumed() && (state.working ==> StoreCovers()) && Distinct(ContainerNames(listed))
      modifies runtime`containers, runtime`calls, ci.cache, ci`depth, ci`granted, ci`deleted, state, clock
      ensures ci.Resumed()
      ensures clock.time >= old(clock.time) && (state.working ==> StoreCovers()) && OthersRemembered()
      ensures runtime.containers.Keys <= old(runtime.containers.Keys)
      ensures runtime.reliable ==>
                && !fate.Stuck?
                && runtime.containers.Keys ==
                     old(runtime.containers.Keys) - if seen.Some? && !fate.Left? then {cfg.baselineName} else {}
      ensures seen.Some? ==>
                && JudgedBy(seen.value, old(state.seconds), old(clock.time), clock.time)
                && Container(cfg.baselineName, seen.value.status) in listed
      ensures seen.Some? <==> cfg.baselineName in ContainerNames(listed)
      ensures fate.Left? <==> seen.Some? && Stays(cfg, seen.value)
      ensures runtime.calls ==
              if seen.Some? && !fate.Left? then AfterTeardown(old(runtime.calls), cfg.baselineName)
              else old(runtime.calls)
      ensures ci.deleted ==
              old(ci.deleted) +
              if seen.Some? && !fate.Left? then Removable(FirstNamed(runners, cfg.baselineName)) else {}
    {
      hide FirstNamed, JudgedBy, StoreCovers, Stays, Removable, AfterTeardown, Distinct;
      fate, seen := Removed, None;
      for i := 0 to |listed|
        invariant fate.Removed?
        invariant seen.None? ==>
                    && unchanged(runtime, ci, ci.cache, state, clock)
                    && forall j :: 0 <= j < i ==> listed[j].name != cfg.baselineName
        invariant seen.Some? ==>
                    && !Stays(cfg, seen.value) && JudgedBy(seen.value, old(state.seconds), old(clock.time), clock.time)
                    && Container(cfg.baselineName, seen.value.status) in listed
                    && cfg.baselineName in ContainerNames(listed)
                    && forall j :: i <= j < |listed| ==> listed[j].name != cfg.baselineName
        invariant ci.Resumed() && clock.time >= old(clock.time)
        invariant (state.working ==> StoreCovers()) && OthersRemembered()
        invariant runtime.containers.Keys <= old(runtime.containers.Keys)
        invariant runtime.reliable && seen.Some? ==>
                    runtime.containers.Keys == old(runtime.containers.Keys) - {cfg.baselineName}
        invariant seen.Some? ==> runtime.calls == AfterTeardown(old(runtime.calls), cfg.baselineName)
        invariant ci.deleted ==
                  old(ci.deleted) + if seen.Some? then Removable(FirstNamed(runners, cfg.baselineName)) else {}
      {
        if listed[i].name != cfg.baselineName {
          continue;
        }
        OnlyOnce(listed, i, cfg.baselineName);
        ghost var sight;
        fate, sight := KeepOrRemoveBaseline(listed[i].status, runners);
        seen := Some(sight);
        if !fate.Removed? {
          return;
        }
      }
      NotThere(listed, cfg.baselineName);
    }

    // ---------- the pass ----------

    /** Baseline upkeep never touches what the class manages as overflow. A failure counts as no pending
        baseline, and so does a class without one. */
    method MaintainBaseline(runners: seq<Runner>) returns (pending: nat, ghost work: BaselineWork)
      requires Valid()
      modifies runtime`containers, runtime`listedAs, runtime`calls, ci.cache, ci`depth, ci`granted, ci`deleted
      modifies state, clock
      ensures Valid() && clock.time >= old(clock.time) && pending == BaselinePending(cfg, work)
      ensures if cfg.baseline then BaselineTrue(cfg, work, runners, runtime.listedAs) && OthersRemembered()
              else work == NO_WORK && state.seconds == old(state.seconds)
      ensures work.seen.Some? ==> JudgedBy(work.seen.value, old(state.seconds), old(clock.time), clock.time)
      ensures old(runtime.listedAs) <= runtime.listedAs
      ensures Books() == Maintained(cfg, old(Books()), work, runners)
      ensures Managed(runtime.containers, cfg.prefix) <= Managed(old(runtime.containers), cfg.prefix)
      ensures runtime.reliable ==>
                Managed(runtime.containers, cfg.prefix) == Managed(old(runtime.containers), cfg.prefix)
      ensures Reliable() ==> pending == if WantsBaseline(cfg, runners) then 1 else 0
    {
      hide FirstNamed, JudgedBy, BaselineTrue, Managed;
      pending, work := 0, NO_WORK;
      if cfg.baseline {
        var answer;
        answer, work := EnsureBaseline(runners);
        pending := if answer.Some? then answer.value else 0;
        NotManaged(old(runtime.containers), runtime.containers, cfg.prefix, cfg.baselineName);
        NothingToDo(cfg, work, runners, runtime.listedAs);
      }
    }

    method ListRunners() returns (ok: bool, runners: seq<Runner>)
      requires Valid()
      modifies ci.cache, ci`inventory
      ensures Valid() && (ci.reliable ==> ok) && (ok ==> ci.inventory == runners)
    {
      ok, runners := ci.ListRunners();
    }

    method ReadClock() returns (now: int)
      requires Valid()
      modifies clock
      ensures Valid() && now == clock.time >= old(clock.time) && forall n :: n in lastBusy ==> lastBusy[n] <= now
    {
      now := clock.Now();
    }

    method AvailableRunnerCount(runners: seq<Runner>, required: set<string>) returns (count: nat)
      ensures count ==
              |set i: nat | i < |runners| && runners[i].online && !runners[i].busy && required <= runners[i].labels|
      ensures count == CountAvailable(runners, required)
    {
      AvailableAre(runners, required);
      count := 0;
      for i := 0 to |runners|
        invariant count == CountAvailable(runners[..i], required)
      {
        assert runners[..i + 1][..i] == runners[..i];
        if runners[i].online && !runners[i].busy && HasLabels(runners[i], required) {
          count := count + 1;
        }
      }
      assert runners[..|runners|] == runners;
    }

    method ListOverflow(available: nat) returns (ok: bool, listed: seq<Container>)
      requires Valid()
      modifies runtime`containers, runtime`statusReads, runtime`listedAs
      ensures Valid() && old(runtime.listedAs) <= runtime.listedAs
      ensures Managed(runtime.containers, cfg.prefix) <= Managed(old(runtime.containers), cfg.prefix)
      ensures ok ==> ListedTrue(cfg, listed, available, runtime.statusReads, runtime.listedAs)
      ensures ok ==>
                && Managed(runtime.containers, cfg.prefix) <= NameSet(listed)
                && NameSet(listed) <= Managed(old(runtime.containers), cfg.prefix)
      ensures runtime.reliable ==>
                && ok && NameSet(listed) == Managed(runtime.containers, cfg.prefix)
                && NameSet(listed) == Managed(old(runtime.containers), cfg.prefix)
    {
      ok, listed := runtime.ListContainers(cfg.prefix);
      ghost var before := runtime.containers;
      assert ok ==> NameSet(listed) == Managed(before, cfg.prefix);
      ManagedOf(before, old(runtime.containers), cfg.prefix);
      if ok && available == 0 {
        listed := RefreshContainerStatuses(listed);
        ManagedOf(runtime.containers, before, cfg.prefix);
      }
      if ok {
        NamesArePrefixed(listed, before, cfg.prefix);
      }
    }

    /** Runners, baseline upkeep, available runners, and the listed overflow containers. */
    method TakeSnapshot()
      returns (ok: bool, runners: seq<Runner>, available: nat, baselinePending: nat, listed: seq<Container>,
               ghost work: BaselineWork)
      requires Valid()
      modifies runtime`containers, runtime`statusReads, runtime`listedAs, runtime`calls
      modifies ci.cache, ci`depth, ci`granted, ci`deleted, ci`inventory, state, clock
      ensures Valid() && clock.time >= old(clock.time)
      ensures available == CountAvailable(runners, cfg.labels) && baselinePending == BaselinePending(cfg, work)
      ensures ok ==> ci.inventory == runners
      ensures if cfg.baseline then BaselineTrue(cfg, work, runners, runtime.listedAs) && OthersRemembered()
              else work == NO_WORK && state.seconds == old(state.seconds)
      ensures work.seen.Some? ==> JudgedBy(work.seen.value, old(state.seconds), old(clock.time), clock.time)
      ensures Books() == Maintained(cfg, old(Books()), work, runners)
      ensures Managed(runtime.containers, cfg.prefix) <= Managed(old(runtime.containers), cfg.prefix)
      ensures ok ==> ListedTrue(cfg, listed, available, runtime.statusReads, runtime.listedAs)
      ensures ok ==>
                && Managed(runtime.containers, cfg.prefix) <= NameSet(listed)
                && NameSet(listed) <= Managed(old(runtime.containers), cfg.prefix)
      ensures Reliable() ==>
                && ok && baselinePending == (if WantsBaseline(cfg, runners) then 1 else 0)
                && NameSet(listed) == Managed(runtime.containers, cfg.prefix)
                && NameSet(listed) == Managed(old(runtime.containers), cfg.prefix)
    {
      hide Valid, Managed, ListedTrue, FirstNamed, JudgedBy, BaselineTrue, WantsBaseline;
      work := NO_WORK;
      ok, runners := ListRunners();
      if !ok {
        NothingDone(cfg, runtime.listedAs);
        return false, [], 0, 0, [], work;
      }
      baselinePending, work := MaintainBaseline(runners);
      available := AvailableRunnerCount(runners, cfg.labels);
      ghost var listings := runtime.listedAs;
      ok, listed := ListOverflow(available);
      BaselineStaysTrue(cfg, work, runners, listings, runtime.listedAs);
    }

    /** One pass. Its report says what it saw; everything it asked of the runtime and of the API follows
        from the report. Whatever fails, the number of managed containers does not exceed what it was or
        the limit, no more scale-ups are tried than the demand left over by the capacity it counted, and
        only the names tried can be new: without demand, none. When nothing but name conflicts can go
        wrong, exactly that many are created, up to the limit. */
    method ReconcileDemand(queuedJobs: nat) returns (ok: bool, ghost report: PassReport)
      requires Valid()
      modifies runtime
      modifies ci.cache, ci`depth, ci`granted, ci`deleted, ci`inventory, state, clock, this`lastBusy, this`teardowns
      ensures Valid()
      ensures |Managed(runtime.containers, cfg.prefix)| <=
                Max(|Managed(old(runtime.containers), cfg.prefix)|, cfg.maxAutoRunners)
      ensures Managed(runtime.containers, cfg.prefix) <=
                (Managed(old(runtime.containers), cfg.prefix) - report.removed) + Tried(report.tries)
      ensures |report.tries| <= Max(0, Missing(cfg, queuedJobs, report))
      ensures queuedJobs == 0 ==>
                && report.tries == []
                && Managed(runtime.containers, cfg.prefix) <= Managed(old(runtime.containers), cfg.prefix)
      ensures ReportTrue(cfg, report, runtime.reliable)
      ensures report.statusReads == runtime.statusReads && report.listings <= runtime.listedAs
      ensures ok ==> report.view.runners == ci.inventory
      ensures !ok ==> report.sights == [] && report.tries == []
      ensures report.view.available ==
              |set i: nat | i < |report.view.runners| && report.view.runners[i].online && !report.view.runners[i].busy
                            && cfg.labels <= report.view.runners[i].labels|
      ensures report.view.available == 0 <==>
              forall r :: r in report.view.runners ==> !(r.online && !r.busy && cfg.labels <= r.labels)
      ensures report.view.busy == old(lastBusy) && report.view.working == state.working
      ensures if cfg.baseline then
                Forgotten(report.view.stored, cfg.baselineName) == Forgotten(old(state.seconds), cfg.baselineName)
              else report.view.stored == old(state.seconds)
      ensures old(clock.time) <= report.view.now <= clock.time
      ensures report.baseline.seen.Some? ==>
                JudgedBy(report.baseline.seen.value, old(state.seconds), old(clock.time), clock.time)
      ensures Books() == Booked(cfg, old(Books()), report)
      ensures Reliable() ==>
                && ok
                && BaselinePending(cfg, report.baseline) == (if WantsBaseline(cfg, report.view.runners) then 1 else 0)
                && (WantsBaseline(cfg, report.view.runners) <==>
                      && cfg.baseline && (exists c :: c in cfg.baselineName && c != ' ' && !('\t' <= c <= '\r'))
                      && forall r :: r in report.view.runners && r.name == cfg.baselineName ==> !r.online)
                && Exact(cfg, queuedJobs, report, Managed(old(runtime.containers), cfg.prefix),
                         Managed(runtime.containers, cfg.prefix))
    {
      hide Valid, Managed, ListedTrue, FirstNamed, JudgedBy, BaselineTrue, WantsBaseline, CountAvailable, NameSet,
           Forgotten, ReportTrue, Maintained, ScaledUp, Closed, Exact, Missing, Tried;
      ghost var start := Managed(runtime.containers, cfg.prefix);
      runtime.statusReads, runtime.listedAs := {}, {};
      var snapshotOk, runners, available, baselinePending, listed, work := TakeSnapshot();
      AvailableAre(runners, cfg.labels);
      WantsBaselineIff(cfg, runners);
      SubsetSize(Managed(runtime.containers, cfg.prefix), start);
      if !snapshotOk {
        ghost var v := View(runners, available, clock.time, lastBusy, state.seconds, state.working);
        report := PassReport(v, work, [], [], {}, [], runtime.statusReads, runtime.listedAs);
        EmptyReport(cfg, report, runtime.reliable);
        return false, report;
      }
      SubsetSize(NameSet(listed), start);
      if work.seen.Some? {
        JudgedLater(work.seen.value, old(state.seconds), old(clock.time));
      }
      report := ActOn(queuedJobs, runners, available, baselinePending, listed, work);
      NoneTried(report.tries);
      ok := true;
    }

    /** Scale-down, capacity arithmetic and scale-up, on one snapshot. */
    method ActOn(queuedJobs: nat, runners: seq<Runner>, available: nat, baselinePending: nat, listed: seq<Container>,
                 ghost work: BaselineWork)
      returns (ghost report: PassReport)
      requires Valid()
      requires available == CountAvailable(runners, cfg.labels) && baselinePending == BaselinePending(cfg, work)
      requires if cfg.baseline then BaselineTrue(cfg, work, runners, runtime.listedAs) else work == NO_WORK
      requires ListedTrue(cfg, listed, available, runtime.statusReads, runtime.listedAs)
      requires Managed(runtime.containers, cfg.prefix) <= NameSet(listed)
      modifies runtime`containers, runtime`statusReads, runtime`listedAs, runtime`calls
      modifies ci.cache, ci`depth, ci`granted, ci`deleted, state, clock, this`lastBusy, this`teardowns
      ensures Valid()
      ensures |Managed(runtime.containers, cfg.prefix)| <= Max(|NameSet(listed)|, cfg.maxAutoRunners)
      ensures Managed(runtime.containers, cfg.prefix) <= (NameSet(listed) - report.removed) + Tried(report.tries)
      ensures |report.tries| <= Max(0, Missing(cfg, queuedJobs, report))
      ensures queuedJobs == 0 ==> report.tries == []
      ensures ReportTrue(cfg, report, runtime.reliable) && report.baseline == work && report.listed == listed
      ensures report.statusReads == runtime.statusReads
      ensures report.listings == old(runtime.listedAs) <= runtime.listedAs
      ensures report.view ==
              View(runners, available, report.view.now, old(lastBusy), old(state.seconds), state.working)
      ensures old(clock.time) <= report.view.now <= clock.time
      ensures Books() == ScaledUp(Closed(cfg, old(Books()), report.sights), report.tries)
      ensures Reliable() && NameSet(listed) == Managed(old(runtime.containers), cfg.prefix) ==>
                Exact(cfg, queuedJobs, report, NameSet(listed), Managed(runtime.containers, cfg.prefix))
    {
      hide Valid, Managed, SightsTrue, ListedTrue, BaselineTrue, Distinct, CountAvailable, DueOf, DueNames,
           CountProvisioning, NameSet, ReportTrue, Closed, TriesTrue, Tried, AllNew, AfterTries, BaselinePending;
      var now := ReadClock();
      ghost var listings, seen := runtime.listedAs, runtime.statusReads;
      ghost var v := View(runners, available, now, lastBusy, state.seconds, state.working);
      ListedMeans(cfg, listed, available, seen, listings);
      var autoCount, removed, pending, sights := ScaleDownPhase(listed, runners, available, now);
      SubsetSize(NameSet(listed) - removed, NameSet(listed));
      var needed := queuedJobs - available - pending - baselinePending;
      var tries := ScaleUpPhase(listed, removed, autoCount, needed, NameSet(listed) - removed);
      report := PassReport(v, work, listed, sights, removed, tries, runtime.statusReads, listings);
      FullReport(cfg, report, seen, runtime.reliable);
    }

    /** Any number of passes. The class never grows past the limit, or past what it was, and only names
        tried for counted demand can be new. Everything asked of the runtime and the API follows from the
        reports, which follow one another; every teardown in them was due, and respects the job its
        container was last seen running (see `Pass.LastJobRespected`), and no other container is stopped,
        deleted or given a command (see `Pass.BooksMean` and `Pass.WorkingLeftAlone`). */
    method Passes(demands: seq<nat>) returns (ghost reports: seq<PassReport>)
      requires Valid()
      modifies runtime
      modifies ci.cache, ci`depth, ci`granted, ci`deleted, ci`inventory, state, clock, this`lastBusy, this`teardowns
      ensures Valid()
      ensures |Managed(runtime.containers, cfg.prefix)| <=
                Max(|Managed(old(runtime.containers), cfg.prefix)|, cfg.maxAutoRunners)
      ensures Managed(runtime.containers, cfg.prefix) <=
                Managed(old(runtime.containers), cfg.prefix) + AllTried(reports)
      ensures |reports| == |demands| && Chained(cfg, old(lastBusy), reports, runtime.reliable)
      ensures forall i :: 0 <= i < |reports| ==> |reports[i].tries| <= Max(0, Missing(cfg, demands[i], reports[i]))
      ensures Books() == BookedAll(cfg, old(Books()), reports)
      ensures AddsOnly(old(runtime.calls), runtime.calls, AllTouched(cfg, reports))
      ensures state.working ==>
                forall i, d :: 0 <= i < |reports| && d in DueOf(cfg, reports[i].sights) ==> RespectsLastJob(cfg, d)
    {
      hide Valid, Managed, Chained, ReportTrue, Booked, BookedAll, Exact, Missing, DueOf, Busied, JudgedBy, Forgotten,
           Tried, AllTried, AddsOnly, AllTouched;
      reports := [];
      NoReports(cfg, Books(), runtime.reliable);
      ghost var opening, start := Books(), Managed(runtime.containers, cfg.prefix);
      for i := 0 to |demands|
        invariant Valid() && |reports| == i && Chained(cfg, opening.busy, reports, runtime.reliable)
        invariant |Managed(runtime.containers, cfg.prefix)| <= Max(|start|, cfg.maxAutoRunners)
        invariant Managed(runtime.containers, cfg.prefix) <= start + AllTried(reports)
        invariant Books() == BookedAll(cfg, opening, reports)
        invariant forall q :: q in reports ==> q.view.now <= clock.time
        invariant forall j :: 0 <= j < i ==> |reports[j].tries| <= Max(0, Missing(cfg, demands[j], reports[j]))
      {
        var ok, report := ReconcileDemand(demands[i]);
        BusiedIs(cfg, opening, reports);
        OneMoreReport(cfg, opening, reports, report);
        ChainedStep(cfg, opening.busy, reports, report, runtime.reliable);
        reports := reports + [report];
      }
      ChainedReports(cfg, opening.busy, reports, runtime.reliable);
      BooksMean(cfg, opening, reports, runtime.reliable);
      JobsRespected(opening, reports);
    }

    lemma JobsRespected(opening: Ledger, reports: seq<PassReport>)
      requires Valid() && Books().teardowns == opening.teardowns + AllTeardowns(cfg, reports)
      ensures state.working ==>
                forall i, d :: 0 <= i < |reports| && d in DueOf(cfg, reports[i].sights) ==> RespectsLastJob(cfg, d)
    {
      hide RespectsLastJob, DueOf;
      forall i, d | state.working && 0 <= i < |reports| && d in DueOf(cfg, reports[i].sights)
        ensures RespectsLastJob(cfg, d)
      {
        DueIsBooked(cfg, reports, i);
        assert d in teardowns;
      }
    }
  }

  // ---------- the books of the scale-down loop ----------

  /** `count` of the listed `names` are left. */
  datatype Tally = Tally(names: set<string>, removed: set<string>, count: int, start: set<string>, exact: bool)

  function Struck(t: Tally, name: string): Tally {
    t.(removed := t.removed + {name}, count := t.count - 1)
  }

  /** Every managed container is among the names that are left, and with a reliable runtime exactly the
      removed ones are gone. */
  ghost predicate Balanced(t: Tally, managed: set<string>) {
    && t.removed <= t.names
    && t.count == |t.names - t.removed|
    && managed <= t.names - t.removed
    && (t.exact ==> managed == t.start - t.removed)
  }

  lemma BalanceStep(t: Tally, before: set<string>, after: set<string>, name: string, deleted: bool)
    requires Balanced(t, before) && name in t.names - t.removed
    requires after <= before - if deleted then {name} else {}
    requires t.exact ==> after == before - if deleted then {name} else {}
    ensures Balanced(if deleted then Struck(t, name) else t, after)
  {
    if deleted {
      assert t.names - (t.removed + {name}) == (t.names - t.removed) - {name};
      assert before <= t.names - t.removed;
      assert t.exact ==> t.start - (t.removed + {name}) == (t.start - t.removed) - {name};
    } else {
      assert before - {} == before;
    }
  }

  lemma StartOfListing(listed: seq<Container>, managed: set<string>, exact: bool)
    requires Distinct(ContainerNames(listed)) && managed <= NameSet(listed)
    ensures Balanced(Tally(NameSet(listed), {}, |listed|, managed, exact), managed)
    ensures forall j :: 0 <= j < |listed| ==> listed[j].name in NameSet(listed)
    ensures forall j, k :: 0 <= j < k < |listed| ==> listed[j].name != listed[k].name
  {
    DistinctSet(ContainerNames(listed));
    assert NameSet(listed) - {} == NameSet(listed);
    assert forall j :: 0 <= j < |listed| ==> listed[j].name == ContainerNames(listed)[j];
  }

  lemma TimesFollow(listed: seq<Container>, i: nat, stored: map<string, int>, current: map<string, int>,
                    due: seq<Sight>, working: bool)
    requires i < |listed| && StoreFollows(listed, i, stored, current, due, working)
    ensures TimeFollows(listed[i].name, stored, current, due, working)
  {
  }

  lemma StoreStart(listed: seq<Container>, stored: map<string, int>, working: bool)
    ensures StoreFollows(listed, 0, stored, stored, [], working)
  {
  }

  /** The loop's variables. */
  datatype Loop = Loop(sights: seq<Sight>, pending: nat, tally: Tally)

  function Turned(l: Loop, s: Sight, deleted: bool, pending: bool): Loop {
    Loop(l.sights + [s], l.pending + if pending then 1 else 0, if deleted then Struck(l.tally, s.name) else l.tally)
  }

  /** What holds between two turns, `opening` being the books at the start. */
  ghost predicate InStep(cfg: Config, listed: seq<Container>, v: View, l: Loop, opening: Ledger, books: Ledger,
                         seen: set<StatusRead>, seconds: map<string, int>, managed: set<string>)
  {
    && Distinct(ContainerNames(listed)) && opening.busy == v.busy
    && InLog(cfg, listed, v, l, opening, books, seen, seconds)
    && InCount(cfg, listed, v, l, books, managed)
  }

  ghost predicate InLog(cfg: Config, listed: seq<Container>, v: View, l: Loop, opening: Ledger, books: Ledger,
                        seen: set<StatusRead>, seconds: map<string, int>)
  {
    && SightsTrue(cfg, l.sights, listed, v, seen)
    && StoreFollows(listed, |l.sights|, v.stored, seconds, DueOf(cfg, l.sights), v.working)
    && books == Closed(cfg, opening, l.sights)
    && l.pending == CountProvisioning(cfg, l.sights)
  }

  ghost predicate InCount(cfg: Config, listed: seq<Container>, v: View, l: Loop, books: Ledger, managed: set<string>) {
    && l.tally.removed <= DueNames(cfg, l.sights)
    && (l.tally.exact ==> l.tally.removed == DueNames(cfg, l.sights))
    && Balanced(l.tally, managed)
    && (forall j :: |l.sights| <= j < |listed| ==> Untried(listed[j].name, l.tally, books.busy, v.busy))
    && (forall n :: n in books.busy ==> books.busy[n] <= v.now)
  }

  ghost predicate Untried(n: string, t: Tally, busy: map<string, int>, before: map<string, int>) {
    n in t.names && n !in t.removed && BusyIn(busy, n) == BusyIn(before, n)
  }

  lemma InStepMeans(cfg: Config, listed: seq<Container>, v: View, l: Loop, opening: Ledger, books: Ledger,
                    seen: set<StatusRead>, seconds: map<string, int>, managed: set<string>)
    requires InStep(cfg, listed, v, l, opening, books, seen, seconds, managed)
    ensures SightsTrue(cfg, l.sights, listed, v, seen) && books == Closed(cfg, opening, l.sights)
    ensures l.pending == CountProvisioning(cfg, l.sights)
    ensures l.tally.removed <= DueNames(cfg, l.sights) && (l.tally.exact ==> l.tally.removed == DueNames(cfg, l.sights))
    ensures var t := l.tally;
            && t.removed <= t.names && t.count == |t.names - t.removed| && managed <= t.names - t.removed
            && (t.exact ==> managed == t.start - t.removed)
    ensures |l.sights| < |listed| ==>
              var n := listed[|l.sights|].name;
              && Untried(n, l.tally, books.busy, v.busy)
              && TimeFollows(n, v.stored, seconds, DueOf(cfg, l.sights), v.working)
    ensures forall n :: n in books.busy ==> books.busy[n] <= v.now
  {
    hide SightsTrue, Closed, CountProvisioning, DueNames, DueOf, TimeFollows, Untried;
  }

  lemma InStepStart(cfg: Config, listed: seq<Container>, v: View, l: Loop, opening: Ledger, seen: set<StatusRead>,
                    managed: set<string>)
    requires Distinct(ContainerNames(listed)) && managed <= NameSet(listed)
    requires opening.busy == v.busy && forall n :: n in v.busy ==> v.busy[n] <= v.now
    requires l.sights == [] && l.pending == 0
    requires l.tally == Tally(NameSet(listed), {}, |listed|, managed, l.tally.exact)
    ensures InStep(cfg, listed, v, l, opening, opening, seen, v.stored, managed)
  {
    hide Balanced, Closed, StoreFollows, SightsTrue, DueNames, NameSet;
    NoSights(cfg, listed, v, seen);
    StoreStart(listed, v.stored, v.working);
    ClosedNone(cfg, opening);
    NoDueNames(cfg);
    StartOfListing(listed, managed, l.tally.exact);
  }

  lemma InLogTurn(cfg: Config, listed: seq<Container>, v: View, l: Loop, opening: Ledger, books: Ledger,
                  before: set<StatusRead>, seen: set<StatusRead>, seconds: map<string, int>, after: map<string, int>,
                  s: Sight, deleted: bool)
    requires InLog(cfg, listed, v, l, opening, books, before, seconds) && Distinct(ContainerNames(listed))
    requires |l.sights| < |listed| && before <= seen && TurnTaken(listed[|l.sights|], v, s, seen, seconds)
    requires OthersKept(seconds, after, s.name, Due(cfg, s), v.working)
    ensures InLog(cfg, listed, v, Turned(l, s, deleted, Provisioning(cfg, s)), opening, Entered(cfg, books, s), seen,
                  after)
  {
    hide Closed, StoreFollows, SightsTrue, DueOf, CountProvisioning, OthersKept, Provisioning, Due, TimeFollows,
         SightTrue, Distinct, TurnTaken, Entered;
    var due := DueOf(cfg, l.sights);
    TimesFollow(listed, |l.sights|, v.stored, seconds, due, v.working);
    TurnIsTrue(listed[|l.sights|], v, s, seen, seconds, due);
    SightsStep(cfg, l.sights, s, listed, v, before, seen);
    StoreStep(listed, |l.sights|, v.stored, seconds, after, due, s, Due(cfg, s), v.working);
    OneMoreSight(cfg, l.sights, s, v.busy);
    ClosedStep(cfg, opening, l.sights, s);
  }

  lemma InCountTurn(cfg: Config, listed: seq<Container>, v: View, l: Loop, books: Ledger, managed: set<string>,
                    left: set<string>, s: Sight, deleted: bool, pending: bool)
    requires InCount(cfg, listed, v, l, books, managed) && Distinct(ContainerNames(listed))
    requires |l.sights| < |listed| && s.name == listed[|l.sights|].name && s.now == v.now
    requires (deleted ==> Due(cfg, s)) && (l.tally.exact ==> (deleted <==> Due(cfg, s)))
    requires left <= managed - if deleted then {s.name} else {}
    requires l.tally.exact ==> left == managed - if deleted then {s.name} else {}
    ensures InCount(cfg, listed, v, Turned(l, s, deleted, pending), Entered(cfg, books, s), left)
  {
    hide Balanced, DueNames, Due, Untried, Distinct, Entered;
    OneMoreDueName(cfg, l.sights, s);
    UntriedStep(cfg, listed, |l.sights|, l.tally, books, v.busy, s, deleted);
    BalanceStep(l.tally, managed, left, s.name, deleted);
    BusyStep(cfg, books, s, v.now);
  }

  lemma InStepTurn(cfg: Config, listed: seq<Container>, v: View, l: Loop, opening: Ledger, books: Ledger,
                   before: set<StatusRead>, seen: set<StatusRead>, seconds: map<string, int>, after: map<string, int>,
                   managed: set<string>, left: set<string>, s: Sight, deleted: bool)
    requires InStep(cfg, listed, v, l, opening, books, before, seconds, managed)
    requires |l.sights| < |listed| && before <= seen && TurnTaken(listed[|l.sights|], v, s, seen, seconds)
    requires OthersKept(seconds, after, s.name, Due(cfg, s), v.working)
    requires (deleted ==> Due(cfg, s)) && (l.tally.exact ==> (deleted <==> Due(cfg, s)))
    requires left <= managed - if deleted then {s.name} else {}
    requires l.tally.exact ==> left == managed - if deleted then {s.name} else {}
    ensures InStep(cfg, listed, v, Turned(l, s, deleted, Provisioning(cfg, s)), opening, Entered(cfg, books, s), seen,
                   after, left)
  {
    TurnIsOf(listed[|l.sights|], v, s, seen, seconds);
    hide TurnTaken, InLog, InCount, Distinct, OthersKept, Due, Provisioning, Turned, Entered;
    InLogTurn(cfg, listed, v, l, opening, books, before, seen, seconds, after, s, deleted);
    InCountTurn(cfg, listed, v, l, books, managed, left, s, deleted, Provisioning(cfg, s));
  }

  lemma UntriedStep(cfg: Config, listed: seq<Container>, i: nat, t: Tally, books: Ledger, busy: map<string, int>,
                    s: Sight, deleted: bool)
    requires Distinct(ContainerNames(listed)) && i < |listed| && s.name == listed[i].name
    requires forall j :: i <= j < |listed| ==> Untried(listed[j].name, t, books.busy, busy)
    ensures s.name in t.names - t.removed
    ensures forall j :: i < j < |listed| ==>
              Untried(listed[j].name, if deleted then Struck(t, s.name) else t, Entered(cfg, books, s).busy, busy)
  {
    hide Due, Working;
    assert Untried(listed[i].name, t, books.busy, busy);
    forall j | i < j < |listed|
      ensures Untried(listed[j].name, if deleted then Struck(t, s.name) else t, Entered(cfg, books, s).busy, busy)
    {
      assert ContainerNames(listed)[j] == listed[j].name && ContainerNames(listed)[i] == s.name;
      assert Untried(listed[j].name, t, books.busy, busy);
    }
  }

  lemma BusyStep(cfg: Config, books: Ledger, s: Sight, now: int)
    requires s.now == now && forall n :: n in books.busy ==> books.busy[n] <= now
    ensures forall n :: n in Entered(cfg, books, s).busy ==> Entered(cfg, books, s).busy[n] <= now
  {
  }

  lemma NoDueNames(cfg: Config)
    ensures DueNames(cfg, []) == {}
  {
  }

  lemma OneMoreDueName(cfg: Config, sights: seq<Sight>, s: Sight)
    ensures DueNames(cfg, sights + [s]) == DueNames(cfg, sights) + if Due(cfg, s) then {s.name} else {}
  {
    hide DueOf, Due;
    OneMoreSight(cfg, sights, s, map[]);
  }

  lemma OnlyOnce(listed: seq<Container>, i: nat, name: string)
    requires Distinct(ContainerNames(listed)) && i < |listed| && listed[i].name == name
    ensures forall j :: 0 <= j < |listed| && j != i ==> listed[j].name != name
    ensures name in ContainerNames(listed) && listed[i] in listed
  {
    assert forall j :: 0 <= j < |listed| ==> ContainerNames(listed)[j] == listed[j].name;
    assert ContainerNames(listed)[i] in ContainerNames(listed);
  }

  /** A listing by a name shows whether the name is in use. */
  lemma ListedOrNot(listed: seq<Container>, present: map<string, Status>, name: string)
    requires forall n :: n in ContainerNames(listed) <==> n in Managed(present, name)
    ensures name in present <==> name in ContainerNames(listed)
    ensures forall c :: c in listed && c.name == name ==> name in present
  {
    assert name in Managed(present, name) <==> name in present;
    forall c | c in listed && c.name == name
      ensures name in ContainerNames(listed)
    {
      var i :| 0 <= i < |listed| && listed[i] == c;
      assert ContainerNames(listed)[i] == name;
    }
  }

  /** The listing had nothing under the name. */
  lemma NotThere(listed: seq<Container>, name: string)
    ensures (forall j :: 0 <= j < |listed| ==> listed[j].name != name) ==> name !in ContainerNames(listed)
  {
  }

  /** The calls of starting and configuring a clone. */
  function AfterConfigure(c: seq<Call>, name: string, ok: bool, stopped: bool): seq<Call> {
    var started := Commanded(c, name);
    if ok then started else started + if stopped then [Stop(name), Delete(name)] else [Delete(name)]
  }

  lemma NotCloned(c: seq<Call>, t: Try)
    requires !t.cloned
    ensures AfterTry(c, t) == c
  {
  }

  lemma ConfiguredTry(c: seq<Call>, t: Try)
    requires t.cloned
    ensures AfterConfigure(c + [Clone(t.name)], t.name, t.configured, t.stopped) == AfterTry(c, t)
  {
  }

  lemma NoTries(prefix: string, used: set<string>, c: seq<Call>)
    ensures TriesTrue([], prefix) && AllNew(prefix, [], used) && Tried([]) == {} && AfterTries(c, []) == c
    ensures used + {} == used
  {
  }

  lemma ManagedExist(containers: map<string, Status>, prefix: string)
    ensures forall n :: n in Managed(containers, prefix) ==> n in containers
  {
  }

  lemma LeastOfManaged(containers: map<string, Status>, prefix: string, name: string)
    ensures LeastFree(prefix, name, containers.Keys) ==> LeastFree(prefix, name, Managed(containers, prefix))
  {
    if LeastFree(prefix, name, containers.Keys) {
      var i: nat :| 1 <= i && name == NameAt(prefix, i)
                    && forall j :: 1 <= j < i ==> NameAt(prefix, j) in containers.Keys;
      forall j | 1 <= j < i
        ensures NameAt(prefix, j) in Managed(containers, prefix)
      {
        NameAtHasPrefix(prefix, j);
      }
    }
  }

  lemma NoneTried(tries: seq<Try>)
    ensures tries == [] ==> Tried(tries) == {}
  {
  }

  lemma OneMoreTried(prefix: string, tries: seq<Try>, t: Try, used: set<string>)
    requires TriesTrue(tries, prefix) && TryTrue(t) && HasPrefix(t.name, prefix)
    requires forall other :: other in tries ==> Succeeded(other)
    ensures TriesTrue(tries + [t], prefix) && used + Tried(tries + [t]) == used + Tried(tries) + {t.name}
    ensures AllNew(prefix, tries, used) && Succeeded(t) && t.attempts <= 2 ==>
              LeastFree(prefix, t.name, used + Tried(tries)) ==> AllNew(prefix, tries + [t], used)
  {
    assert forall k :: 0 <= k < |tries| ==> (tries + [t])[..k] == tries[..k];
    assert (tries + [t])[..|tries|] == tries;
    assert forall i :: 0 <= i < |tries| ==> tries[i] in tries && TriedNames(tries)[i] in Tried(tries);
    assert TriedNames(tries + [t]) == TriedNames(tries) + [t.name];
    assert Tried(tries + [t]) == Tried(tries) + {t.name};
  }

  lemma NothingToDo(cfg: Config, w: BaselineWork, runners: seq<Runner>, listings: set<Container>)
    requires BaselineTrue(cfg, w, runners, listings)
    ensures Blank(cfg.baselineName) || BaselineOnline(cfg, runners) ==> w == NO_WORK
  {
  }

  lemma NothingDone(cfg: Config, listings: set<Container>)
    ensures BaselineTrue(cfg, NO_WORK, [], listings) && CountAvailable([], cfg.labels) == 0
  {
  }

  lemma BaselineStaysTrue(cfg: Config, w: BaselineWork, runners: seq<Runner>, before: set<Container>,
                          after: set<Container>)
    requires before <= after
    ensures BaselineTrue(cfg, w, runners, before) ==> BaselineTrue(cfg, w, runners, after)
  {
  }

  lemma NamesArePrefixed(listed: seq<Container>, containers: map<string, Status>, prefix: string)
    requires NameSet(listed) <= Managed(containers, prefix)
    ensures forall c :: c in listed ==> HasPrefix(c.name, prefix)
  {
    forall c | c in listed
      ensures HasPrefix(c.name, prefix)
    {
      var i :| 0 <= i < |listed| && listed[i] == c;
      assert ContainerNames(listed)[i] in NameSet(listed);
    }
  }

  lemma ListedMeans(cfg: Config, listed: seq<Container>, available: nat, seen: set<StatusRead>, listings: set<Container>)
    requires ListedTrue(cfg, listed, available, seen, listings)
    ensures Distinct(ContainerNames(listed))
  {
  }

  lemma NotManaged(before: map<string, Status>, after: map<string, Status>, prefix: string, name: string)
    requires after.Keys <= before.Keys + {name} && !HasPrefix(name, prefix)
    ensures Managed(after, prefix) <= Managed(before, prefix)
    ensures after.Keys + {name} == before.Keys + {name} ==> Managed(after, prefix) == Managed(before, prefix)
  {
    if after.Keys + {name} == before.Keys + {name} {
      forall n | n in Managed(before, prefix)
        ensures n in after
      {
        assert n in after.Keys + {name};
      }
    }
  }

  lemma {:induction false} DistinctSet(names: seq<string>)
    requires Distinct(names)
    ensures |set n | n in names| == |names|
  {
    if names != [] {
      var rest, last := names[..|names| - 1], names[|names| - 1];
      DistinctSet(rest);
      assert names == rest + [last] && last !in rest;
      assert (set n | n in names) == (set n | n in rest) + {last};
    }
  }

  lemma ManagedStep(before: map<string, Status>, after: map<string, Status>, prefix: string, name: string)
    ensures after.Keys <= before.Keys ==> Managed(after, prefix) <= Managed(before, prefix)
    ensures after.Keys <= before.Keys - {name} ==> Managed(after, prefix) <= Managed(before, prefix) - {name}
    ensures after.Keys == before.Keys ==> Managed(after, prefix) == Managed(before, prefix)
    ensures after.Keys == before.Keys - {name} ==> Managed(after, prefix) == Managed(before, prefix) - {name}
  {
  }

  lemma {:induction false} SubsetSize(a: set<string>, b: set<string>)
    requires a <= b
    ensures |a| <= |b|
  {
    if x :| x in a {
      SubsetSize(a - {x}, b - {x});
    }
  }

  lemma GrowsByOne(a: set<string>, n: string)
    ensures |a + {n}| == if n in a then |a| else |a| + 1
  {
    if n in a {
      assert a + {n} == a;
    }
  }

  lemma ManagedGrows(before: map<string, Status>, after: map<string, Status>, prefix: string, name: string)
    requires after.Keys <= before.Keys + {name} && HasPrefix(name, prefix)
    ensures Managed(after, prefix) <= Managed(before, prefix) + {name}
    ensures after.Keys == before.Keys + {name} ==> Managed(after, prefix) == Managed(before, prefix) + {name}
  {
  }

  /** The names that the name search sees. */
  method FilterRemovedContainers(containers: seq<Container>, removed: set<string>) returns (existing: seq<string>)
    ensures forall n :: n in existing <==> n in ContainerNames(containers) && n !in removed
  {
    existing := [];
    for i := 0 to |containers|
      invariant forall n :: n in existing <==> n in ContainerNames(containers[..i]) && n !in removed
    {
      assert ContainerNames(containers[..i + 1]) == ContainerNames(containers[..i]) + [containers[i].name];
      if containers[i].name !in removed {
        existing := existing + [containers[i].name];
      }
    }
    assert containers[..|containers|] == containers;
  }

  method FindRunner(name: string, runners: seq<Runner>) returns (found: Option<Runner>)
    ensures found.None? <==> forall r :: r in runners ==> r.name != name
    ensures found.Some? ==>
              exists i :: 0 <= i < |runners| && runners[i] == found.value && runners[i].name == name
                          && forall j :: 0 <= j < i ==> runners[j].name != name
    ensures found == FirstNamed(runners, name)
  {
    hide FirstNamed;
    for i := 0 to |runners|
      invariant forall j :: 0 <= j < i ==> runners[j].name != name
    {
      if runners[i].name == name {
        FirstNamedAt(runners, name, i);
        return Some(runners[i]);
      }
    }
    found := None;
  }
}
