/** What the reconciler runs against: a container runtime, a CI provider and a state store, each a
    mutable state whose calls may fail at any time.

    `reliable` marks a provider without outside actors that fails only on a name conflict. Otherwise
    containers may also disappear, or change status, under the reconciler's hands; nobody else creates
    containers. */
module Providers {
  import opened Wrappers
  import opened Clock
  import opened Names
  import RunnerCache

  datatype Status = Unknown | Running | Stopped

  datatype Container = Container(name: string, status: Status)

  datatype RunnerId = RunnerId(n: int)

  /** `online` is the status "online"; labels are lower-cased and trimmed. */
  datatype Runner = Runner(id: RunnerId, name: string, online: bool, busy: bool, labels: set<string>)

  /** `Conflict` is an error that says "already exists" or "conflict"; it creates nothing. Any other
      failure may leave a container behind, as a copy that succeeds before a later update fails does. */
  datatype CloneResult = Cloned | Conflict | Failed

  function ContainerNames(containers: seq<Container>): seq<string> {
    seq(|containers|, i requires 0 <= i < |containers| => containers[i].name)
  }

  function ContainerSet(containers: seq<Container>): set<Container> {
    set c | c in containers
  }

  ghost predicate Distinct(names: seq<string>) {
    forall i, j :: 0 <= i < j < |names| ==> names[i] != names[j]
  }

  lemma NoContainers()
    ensures ContainerNames([]) == [] && Distinct([])
  {
  }

  lemma ListOneMore(list: seq<Container>, n: string, status: Status)
    ensures forall m :: m in ContainerNames(list + [Container(n, status)]) <==> m in ContainerNames(list) || m == n
    ensures Distinct(ContainerNames(list)) && n !in ContainerNames(list) ==>
              Distinct(ContainerNames(list + [Container(n, status)]))
  {
    assert ContainerNames(list + [Container(n, status)]) == ContainerNames(list) + [n];
  }

  /** The names in use that belong to a runner class. */
  ghost function Managed(containers: map<string, Status>, prefix: string): set<string> {
    set n | n in containers && HasPrefix(n, prefix)
  }

  lemma ManagedOf(c: map<string, Status>, d: map<string, Status>, prefix: string)
    ensures c.Keys == d.Keys ==> Managed(c, prefix) == Managed(d, prefix)
    ensures c.Keys <= d.Keys ==> Managed(c, prefix) <= Managed(d, prefix)
  {
  }

  /** One live status read; `status.None?` is a failed one. */
  datatype StatusRead = StatusRead(name: string, status: Option<Status>)

  /** What may be asked of the runtime, beyond reading. `Command` is any number of commands in a row to one
      container, its start included; `Clone` is a clone that succeeded. */
  datatype Call = Command(name: string) | Stop(name: string) | Delete(name: string) | Clone(name: string)

  function Commanded(calls: seq<Call>, name: string): seq<Call> {
    if calls != [] && calls[|calls| - 1] == Command(name) then calls else calls + [Command(name)]
  }

  /** The ghost fields record live status reads, listed containers, and calls in order. */
  class Runtime {
    const reliable: bool
    var containers: map<string, Status>
    ghost var statusReads: set<StatusRead>
    ghost var listedAs: set<Container>
    ghost var calls: seq<Call>

    /** Anything an outside actor may do before a call takes effect. */
    method OutsideActors()
      modifies this`containers
      ensures containers.Keys <= old(containers.Keys)
      ensures reliable ==> containers == old(containers)
    {
      if !reliable {
        var left: map<string, Status> := *;
        containers := map n | n in containers && n in left :: left[n];
      }
    }

    method CloneFromTemplate(name: string) returns (result: CloneResult)
      modifies this`containers, this`calls
      ensures calls == old(calls) + if result.Cloned? then [Clone(name)] else []
      ensures result.Cloned? ==> name in containers
      ensures containers.Keys <= old(containers.Keys) + if result.Conflict? then {} else {name}
      ensures reliable ==> result == if name in old(containers) then Conflict else Cloned
      ensures reliable ==> containers.Keys == old(containers.Keys) + {name}
    {
      OutsideActors();
      if name in containers {
        var conflict: bool := *;
        return if reliable || conflict then Conflict else Failed;
      }
      result := *;
      if reliable {
        result := Cloned;
      }
      var created: bool := *;
      if result.Cloned? || (result.Failed? && created) {
        containers := containers[name := Stopped];
      }
      if result.Cloned? {
        calls := calls + [Clone(name)];
      }
    }

    method StartContainer(name: string) returns (ok: bool)
      modifies this`containers, this`calls
      ensures calls == Commanded(old(calls), name)
      ensures containers.Keys <= old(containers.Keys)
      ensures reliable ==> ok && containers.Keys == old(containers.Keys)
      ensures reliable && name in old(containers) ==> containers == old(containers)[name := Running]
    {
      OutsideActors();
      calls := Commanded(calls, name);
      ok := *;
      ok := ok || reliable;
      if ok && name in containers {
        containers := containers[name := Running];
      }
    }

    method StopContainer(name: string) returns (ok: bool)
      modifies this`containers, this`calls
      ensures calls == old(calls) + [Stop(name)]
      ensures containers.Keys <= old(containers.Keys)
      ensures reliable ==> ok && containers.Keys == old(containers.Keys)
    {
      OutsideActors();
      calls := calls + [Stop(name)];
      ok := *;
      ok := ok || reliable;
      if ok && name in containers {
        containers := containers[name := Stopped];
      }
    }

    method DeleteContainer(name: string) returns (ok: bool)
      modifies this`containers, this`calls
      ensures calls == old(calls) + [Delete(name)]
      ensures containers.Keys <= old(containers.Keys) - if ok then {name} else {}
      ensures reliable ==> ok && containers.Keys == old(containers.Keys) - {name}
    {
      OutsideActors();
      calls := calls + [Delete(name)];
      ok := *;
      ok := ok || reliable;
      if ok {
        containers := containers - {name};
      }
    }

    /** Running a command, or waiting for one to succeed. */
    method Exec(name: string) returns (ok: bool)
      modifies this`containers, this`calls
      ensures calls == Commanded(old(calls), name)
      ensures containers.Keys <= old(containers.Keys)
      ensures reliable ==> ok && containers == old(containers)
    {
      OutsideActors();
      calls := Commanded(calls, name);
      ok := *;
      ok := ok || reliable;
    }

    /** All containers whose name starts with `prefix`, each once, in some order. The listed status may
        be out of date. */
    method ListContainers(prefix: string) returns (ok: bool, list: seq<Container>)
      modifies this`containers, this`listedAs
      ensures listedAs == old(listedAs) + if ok then ContainerSet(list) else {}
      ensures containers.Keys <= old(containers.Keys)
      ensures ok ==> forall n :: n in ContainerNames(list) <==> n in Managed(containers, prefix)
      ensures ok ==> |list| == |Managed(containers, prefix)|
      ensures ok ==> Distinct(ContainerNames(list))
      ensures reliable ==> ok && containers.Keys == old(containers.Keys)
    {
      OutsideActors();
      ok := *;
      ok := ok || reliable;
      list := InSomeOrder(set n | n in containers && HasPrefix(n, prefix));
      if ok {
        listedAs := listedAs + ContainerSet(list);
      }
    }

    static method InSomeOrder(names: set<string>) returns (list: seq<Container>)
      ensures forall n :: n in ContainerNames(list) <==> n in names
      ensures |list| == |names| && Distinct(ContainerNames(list))
    {
      hide ContainerNames, Distinct;
      list := [];
      NoContainers();
      var todo := names;
      while todo != {}
        invariant todo <= names && |list| + |todo| == |names|
        invariant forall n :: n in ContainerNames(list) <==> n in names - todo
        invariant Distinct(ContainerNames(list))
        decreases todo
      {
        var n :| n in todo;
        var status: Status := *;
        ListOneMore(list, n, status);
        list := list + [Container(n, status)];
        todo := todo - {n};
      }
    }

    method GetContainerStatus(name: string) returns (status: Option<Status>)
      modifies this`containers, this`statusReads
      ensures containers.Keys <= old(containers.Keys)
      ensures status.Some? ==> name in containers && status.value == containers[name]
      ensures statusReads == old(statusReads) + {StatusRead(name, status)}
      ensures reliable ==> containers.Keys == old(containers.Keys) && (name in containers ==> status.Some?)
    {
      OutsideActors();
      var ok: bool := *;
      status := if name in containers && (ok || reliable) then Some(containers[name]) else None;
      statusReads := statusReads + {StatusRead(name, status)};
    }
  }

  /** The CI provider with its inventory cache. `depth` counts the reconciler's open mutation sections;
      the token calls suspend the cache too but open no section of their own; `granted` counts those that
      succeeded. `deleted` holds the runners it was asked to delete, `inventory` what it listed last. */
  class Provider {
    const reliable: bool
    const cache: RunnerCache.RunnerInventoryCache<seq<Runner>>
    ghost var depth: nat
    ghost var granted: nat
    ghost var deleted: set<RunnerId>
    ghost var inventory: seq<Runner>

    constructor (reliable: bool, cache: RunnerCache.RunnerInventoryCache<seq<Runner>>)
      requires !cache.suspended
      ensures this.reliable == reliable && this.cache == cache && Resumed() && deleted == {}
    {
      this.reliable, this.cache, depth, granted, deleted, inventory := reliable, cache, 0, 0, {}, [];
    }

    /** The suspension flag says what a nesting counter would say, and sections do not nest. */
    ghost predicate Consistent()
      reads this, cache
    {
      cache.suspended == (depth > 0) && depth <= 1
    }

    /** No mutation section is open, so reconcile may use the cache. */
    ghost predicate Resumed()
      reads this, cache
    {
      Consistent() && depth == 0
    }

    method Suspend()
      requires Resumed()
      modifies cache, this`depth
      ensures Consistent() && depth == 1 && cache.stored.None?
    {
      cache.Suspend();
      depth := depth + 1;
    }

    method Resume()
      requires Consistent() && depth == 1
      modifies cache, this`depth
      ensures Resumed() && cache.stored.None?
    {
      cache.Resume();
      depth := depth - 1;
    }

    /** Registration and remove tokens: a success suspends the cache once more. */
    method GetToken() returns (token: Option<string>)
      requires Consistent() && depth == 1
      modifies cache, this`granted
      ensures Consistent() && (reliable ==> token.Some?)
      ensures granted == old(granted) + if token.Some? then 1 else 0
      ensures old(cache.stored).None? ==> cache.stored.None?
    {
      var ok: bool := *;
      if !(ok || reliable) {
        return None;
      }
      var value: string := *;
      cache.Suspend();
      granted := granted + 1;
      token := Some(value);
    }

    method DeleteRunner(id: RunnerId) returns (ok: bool)
      modifies cache, this`deleted
      ensures deleted == old(deleted) + {id} && cache.suspended == old(cache.suspended)
      ensures ok || old(cache.stored).None? ==> cache.stored.None?
    {
      deleted := deleted + {id};
      ok := *;
      if ok {
        cache.InvalidateRunnerCache();
      }
    }

    /** From the cache or the API; `RunnerCache` says how fresh the answer is. */
    method ListRunners() returns (ok: bool, runners: seq<Runner>)
      modifies cache, this`inventory
      ensures cache.suspended == old(cache.suspended)
      ensures ok ==> inventory == runners
      ensures reliable ==> ok
    {
      ok, runners := *, *;
      ok := ok || reliable;
      var fetched: bool, fetchedAt: int := *, *;
      if fetched {
        cache.StoreFetched(runners, cache.generation, fetchedAt);
      }
      inventory := runners;
    }
  }

  /** The store without what `Delete` removes: the file of `name` and those of names that continue it
      with a dot. */
  function Forgotten(seconds: map<string, int>, name: string): map<string, int> {
    map n | n in seconds && n != name && !HasPrefix(n, name + ".") :: seconds[n]
  }

  /** One timestamp file per container, in whole seconds. */
  class StateStore {
    const working: bool
    var seconds: map<string, int>

    method GetLastActive(name: string) returns (lastActive: Option<int>)
      ensures lastActive.Some? ==> name in seconds && lastActive.value == seconds[name] * 1_000_000_000
      ensures working && name in seconds ==> lastActive.Some?
    {
      var ok: bool := *;
      lastActive := if name in seconds && (ok || working) then Some(seconds[name] * SECOND) else None;
    }

    /** Writes the Unix time: the fraction of a second is lost. */
    method SetLastActive(name: string, t: int) returns (ok: bool)
      modifies this
      ensures ok ==> seconds == old(seconds)[name := t / 1_000_000_000]
      ensures !ok ==> seconds == old(seconds)
      ensures working ==> ok
    {
      ok := *;
      ok := ok || working;
      if ok {
        seconds := seconds[name := t / SECOND];
      }
    }

    /** Removes every file that matches `name.*`, or, as removals may fail unnoticed, some of them. */
    method Delete(name: string) returns (ok: bool)
      modifies this
      ensures working ==>
                forall n :: n in seconds <==> n in old(seconds) && n != name && !(name + "." <= n)
      ensures working ==> seconds == Forgotten(old(seconds), name)
      ensures forall n :: n in seconds ==> n in old(seconds) && seconds[n] == old(seconds)[n]
      ensures forall n :: n in Forgotten(old(seconds), name) ==> n in seconds
    {
      var kept: set<string> := *;
      var all := seconds;
      seconds := Forgotten(all, name);
      if !working {
        seconds := seconds + map n | n in all && n in kept :: all[n];
      }
      ok := *;
    }
  }
}
