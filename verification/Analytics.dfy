/** The memo of what is derived from the log buffer, keyed by the buffer's version.

    `Memo` is the imperative form. The protocol lets any number of collectors and recorders interleave:
    reading the version, looking in the memo, taking the snapshot and storing are separate steps. */
module Analytics {
  import opened LogStore
  import opened Wrappers

  class Memo<M(0)> {
    var cached: bool
    var version: nat
    var value: M

    constructor ()
      ensures View() == None
    {
      cached := false;
    }

    ghost function View(): Option<Entry<M>>
      reads this
    {
      if cached then Some(Entry(version, value)) else None
    }

    method Get(at: nat) returns (hit: Option<M>)
      ensures hit.Some? <==> cached && version == at
      ensures hit.Some? ==> hit.value == value
      ensures hit == Lookup(View(), at)
    {
      if cached && version == at {
        return Some(value);
      }
      hit := None;
    }

    method Put(at: nat, derived: M)
      modifies this
      ensures cached && version == at && value == derived
      ensures View() == Some(Entry(at, derived))
    {
      value, version, cached := derived, at, true;
    }
  }

  datatype Entry<M> = Entry(version: nat, value: M)

  function Lookup<M>(memo: Option<Entry<M>>, version: nat): Option<M> {
    if memo.Some? && memo.value.version == version then Some(memo.value.value) else None
  }

  /** `begun` is the version the collector read first. */
  datatype Pc<M> = Begun(begun: nat) | Missed(begun: nat) | Derived(begun: nat, version: nat, value: M)

  datatype Move<T> =
    | Record(event: Event<T>)
    | Begin(collector: nat)
    | Look(collector: nat)
    | Snapshot(collector: nat)
    | Store(collector: nat)

  /** A value handed to the metrics backend when the buffer was at version `at`. */
  datatype Push<M> = Push(begun: nat, version: nat, value: M, at: nat)

  datatype Config<!T, M> = Config(max: nat, compactAt: nat, derive: seq<T> -> M)

  /** `buffers` is the history of the buffer: its content at each version. */
  datatype System<T, M> = System(
    store: State<T>,
    buffers: seq<seq<T>>,
    memo: Option<Entry<M>>,
    collectors: map<nat, Pc<M>>,
    pushed: seq<Push<M>>)

  function Started<T, M>(store: State<T>): System<T, M>
    requires store.version == 0
  {
    System(store, [store.entries], None, map[], [])
  }

  function Finished<T, M>(s: System<T, M>, c: nat, push: Push<M>): System<T, M> {
    s.(collectors := s.collectors - {c}, pushed := s.pushed + [push])
  }

  function Next<T, M>(config: Config<T, M>, s: System<T, M>, move: Move<T>): System<T, M> {
    match move
    case Record(e) =>
      var store := Recorded(s.store, config.max, config.compactAt, e);
      s.(store := store, buffers := if e.write.Written? then s.buffers + [store.entries] else s.buffers)
    case Begin(c) =>
      if c in s.collectors then s else s.(collectors := s.collectors[c := Begun(s.store.version)])
    case Look(c) =>
      if c !in s.collectors || !s.collectors[c].Begun? then s
      else
        var v := s.collectors[c].begun;
        var hit := Lookup(s.memo, v);
        if hit.Some? then Finished(s, c, Push(v, v, hit.value, s.store.version))
        else s.(collectors := s.collectors[c := Missed(v)])
    case Snapshot(c) =>
      if c !in s.collectors || !s.collectors[c].Missed? then s
      else
        var pc := Derived(s.collectors[c].begun, s.store.version, config.derive(s.store.entries));
        s.(collectors := s.collectors[c := pc])
    case Store(c) =>
      if c !in s.collectors || !s.collectors[c].Derived? then s
      else
        var pc := s.collectors[c];
        Finished(s, c, Push(pc.begun, pc.version, pc.value, s.store.version)).(memo := Some(Entry(pc.version, pc.value)))
  }

  /** The memo is used: a collector that began at the version in the memo pushes its value at once, and any
      other goes on to derive one. */
  lemma LookHitsIff<T, M>(config: Config<T, M>, s: System<T, M>, c: nat)
    requires c in s.collectors && s.collectors[c].Begun?
    ensures var s', begun := Next(config, s, Look(c)), s.collectors[c].begun;
            if s.memo.Some? && s.memo.value.version == begun
            then c !in s'.collectors
                 && s'.pushed == s.pushed + [Push(begun, begun, s.memo.value.value, s.store.version)]
            else s'.collectors == s.collectors[c := Missed(begun)] && s'.pushed == s.pushed
  {
  }

  function Run<T, M>(config: Config<T, M>, s: System<T, M>, moves: seq<Move<T>>): System<T, M> {
    if moves == [] then s
    else Next(config, Run(config, s, moves[..|moves| - 1]), moves[|moves| - 1])
  }

  /** A value for a version is what the buffer of that version gives. */
  ghost predicate Right<T, M>(config: Config<T, M>, s: System<T, M>, begun: nat, version: nat, value: M) {
    begun <= version < |s.buffers| && value == config.derive(s.buffers[version])
  }

  ghost predicate RightPc<T, M>(config: Config<T, M>, s: System<T, M>, pc: Pc<M>) {
    match pc
    case Begun(v) => v < |s.buffers|
    case Missed(v) => v < |s.buffers|
    case Derived(begun, version, value) => Right(config, s, begun, version, value)
  }

  ghost predicate Inv<T, M>(config: Config<T, M>, s: System<T, M>) {
    && |s.buffers| == s.store.version + 1
    && s.buffers[s.store.version] == s.store.entries
    && (s.memo.Some? ==> Right(config, s, 0, s.memo.value.version, s.memo.value.value))
    && (forall c :: c in s.collectors ==> RightPc(config, s, s.collectors[c]))
    && (forall i :: 0 <= i < |s.pushed| ==>
          && Right(config, s, s.pushed[i].begun, s.pushed[i].version, s.pushed[i].value)
          && s.pushed[i].version <= s.pushed[i].at <= s.store.version)
  }

  lemma NextKeepsInv<T, M>(config: Config<T, M>, s: System<T, M>, move: Move<T>)
    requires Inv(config, s)
    ensures Inv(config, Next(config, s, move))
    ensures s.buffers <= Next(config, s, move).buffers
  {
  }

  lemma {:induction false} RunKeepsInv<T, M>(config: Config<T, M>, store: State<T>, moves: seq<Move<T>>)
    requires store.version == 0
    ensures Inv(config, Run(config, Started(store), moves))
  {
    if moves != [] {
      RunKeepsInv(config, store, moves[..|moves| - 1]);
      NextKeepsInv(config, Run(config, Started(store), moves[..|moves| - 1]), moves[|moves| - 1]);
    }
  }

  lemma {:induction false} HistoryGrows<T, M>(config: Config<T, M>, store: State<T>, moves: seq<Move<T>>, n: nat)
    requires store.version == 0 && n <= |moves|
    ensures Run(config, Started<T, M>(store), moves[..n]).buffers <= Run(config, Started<T, M>(store), moves).buffers
    decreases |moves| - n
  {
    if n < |moves| {
      HistoryGrows(config, store, moves, n + 1);
      RunKeepsInv(config, store, moves[..n]);
      assert moves[..n + 1][..n] == moves[..n];
      NextKeepsInv(config, Run(config, Started(store), moves[..n]), moves[n]);
    } else {
      assert moves[..n] == moves;
    }
  }

  /** Whatever is pushed was derived from the whole buffer of one version, and that version was current
      at some moment between the start of the collection and the push. */
  lemma PushedIsFresh<T, M>(config: Config<T, M>, store: State<T>, moves: seq<Move<T>>, i: nat)
    requires store.version == 0
    requires i < |Run(config, Started(store), moves).pushed|
    ensures var s := Run(config, Started(store), moves);
            var push := s.pushed[i];
            push.version <= push.at <= s.store.version && Right(config, s, push.begun, push.version, push.value)
  {
    RunKeepsInv(config, store, moves);
  }

  /** The history is the buffer's own: after any prefix of the run, the store's version names the store's
      buffer, in the final history too. */
  lemma VersionNamesBuffer<T, M>(config: Config<T, M>, store: State<T>, moves: seq<Move<T>>, n: nat)
    requires store.version == 0 && n <= |moves|
    ensures var earlier := Run(config, Started<T, M>(store), moves[..n]).store;
            var s := Run(config, Started<T, M>(store), moves);
            earlier.version < |s.buffers| && s.buffers[earlier.version] == earlier.entries
  {
    RunKeepsInv(config, store, moves[..n]);
    HistoryGrows(config, store, moves, n);
  }
}
