/** Persisted demand: queued jobs by runner group and job ID, pruned lazily by age.

    The functions on `Groups` say what each tracker call does to the nested map; class `Tracker` is the
    imperative form. `Jobs` is the simple specification, one flat map that is never pruned, and the
    lemmas show that the two agree on every answer over every sequence of calls. */
module Demand {
  import opened Wrappers
  import opened Clock

  datatype JobId = JobId(n: int)

  const NO_ID := JobId(0)

  /** `queuedAt.None?` is the zero time. */
  datatype QueuedJob = QueuedJob(id: JobId, repo: string, labels: set<string>, queuedAt: Option<int>)

  type Groups = map<string, map<JobId, QueuedJob>>

  predicate Expired(job: QueuedJob, cutoff: int) {
    job.queuedAt.None? || job.queuedAt.value < cutoff
  }

  function Live(jobs: map<JobId, QueuedJob>, cutoff: int): map<JobId, QueuedJob> {
    map id | id in jobs && !Expired(jobs[id], cutoff) :: jobs[id]
  }

  function Pruned(groups: Groups, cutoff: int): Groups {
    map g | g in groups && Live(groups[g], cutoff) != map[] :: Live(groups[g], cutoff)
  }

  function JobsOf(groups: Groups, g: string): map<JobId, QueuedJob> {
    if g in groups then groups[g] else map[]
  }

  function Stamped(job: QueuedJob, now: int): QueuedJob {
    if job.queuedAt.None? then job.(queuedAt := Some(now)) else job
  }

  function WithJob(groups: Groups, g: string, job: QueuedJob): Groups {
    groups[g := JobsOf(groups, g)[job.id := job]]
  }

  /** A group whose job map becomes empty disappears. */
  function WithJobs(groups: Groups, g: string, jobs: map<JobId, QueuedJob>): Groups {
    if jobs == map[] then groups - {g} else groups[g := jobs]
  }

  function WithoutJob(groups: Groups, g: string, id: JobId): Groups {
    if g in groups then WithJobs(groups, g, groups[g] - {id}) else groups
  }

  /** The last job of each non-zero ID wins. */
  function Indexed(jobs: seq<QueuedJob>): map<JobId, QueuedJob> {
    if jobs == [] then map[]
    else
      var last := jobs[|jobs| - 1];
      var before := Indexed(jobs[..|jobs| - 1]);
      if last.id == NO_ID then before else before[last.id := last]
  }

  /** `stamped` is `jobs`, each job without a time stamped with a reading between `from` and `to`. */
  ghost predicate AreStamped(jobs: seq<QueuedJob>, stamped: seq<QueuedJob>, from: int, to: int) {
    && |stamped| == |jobs|
    && forall i :: 0 <= i < |jobs| ==>
         if jobs[i].queuedAt.Some? then stamped[i] == jobs[i]
         else stamped[i].queuedAt.Some? && from <= stamped[i].queuedAt.value <= to
              && stamped[i] == Stamped(jobs[i], stamped[i].queuedAt.value)
  }

  /** What is left after pruning: the jobs queued at or after the cutoff, and no group without one. */
  lemma PrunedIff(groups: Groups, cutoff: int)
    ensures var live := Pruned(groups, cutoff);
            && (forall g, id :: g in live && id in live[g] <==>
                  g in groups && id in groups[g]
                  && groups[g][id].queuedAt.Some? && groups[g][id].queuedAt.value >= cutoff)
            && (forall g, id :: g in live && id in live[g] ==> live[g][id] == groups[g][id])
            && (forall g :: g in live ==> live[g] != map[])
  {
    forall g, id | g in groups && id in groups[g]
                   && groups[g][id].queuedAt.Some? && groups[g][id].queuedAt.value >= cutoff
      ensures g in Pruned(groups, cutoff) && id in Pruned(groups, cutoff)[g]
    {
      assert id in Live(groups[g], cutoff);
    }
  }

  lemma NothingIndexed(jobs: seq<QueuedJob>, now: int)
    ensures Indexed([]) == map[] && AreStamped(jobs[..0], [], now, now)
  {
  }

  lemma OneMoreIndexed(jobs: seq<QueuedJob>, i: nat, stamped: seq<QueuedJob>, job: QueuedJob, from: int, before: int,
                       to: int)
    requires i < |jobs| && AreStamped(jobs[..i], stamped, from, before) && before <= to
    requires AreStamped([jobs[i]], [job], from, to)
    ensures AreStamped(jobs[..i + 1], stamped + [job], from, to)
    ensures Indexed(stamped + [job]) == if job.id == NO_ID then Indexed(stamped) else Indexed(stamped)[job.id := job]
  {
    assert (stamped + [job])[..i] == stamped;
    assert [jobs[i]][0] == jobs[i];
  }

  lemma StampedOne(job: QueuedJob, stamped: QueuedJob, from: int, to: int)
    requires if job.queuedAt.Some? then stamped == job
             else from <= to && exists t :: from <= t <= to && stamped == Stamped(job, t)
    ensures AreStamped([job], [stamped], from, to)
  {
  }

  datatype Error = GroupRequired | JobRequired | PersistFailed

  class Tracker {
    const ttl: nat
    const clock: Clock
    var groups: Groups
    var disk: Groups

    /** Loads what was persisted (an absent file is an empty map). */
    constructor (ttl: nat, clock: Clock, disk: Groups)
      requires ttl > 0
      modifies clock
      ensures this.ttl == ttl && this.clock == clock && this.disk == disk
      ensures groups == Pruned(disk, clock.time - ttl) && clock.time >= old(clock.time)
    {
      this.ttl, this.clock, this.disk, groups := ttl, clock, disk, disk;
      new;
      ghost var now := PruneLocked();
    }

    method PruneLocked() returns (now: int)
      modifies this`groups, clock
      ensures forall g, id :: g in groups && id in groups[g] <==>
                && g in old(groups) && id in old(groups)[g]
                && old(groups)[g][id].queuedAt.Some? && old(groups)[g][id].queuedAt.value >= now - ttl
      ensures forall g, id :: g in groups && id in groups[g] ==> groups[g][id] == old(groups)[g][id]
      ensures forall g :: g in groups ==> groups[g] != map[]
      ensures groups == Pruned(old(groups), now - ttl)
      ensures now == clock.time >= old(clock.time)
    {
      now := clock.Now();
      var cutoff := now - ttl;
      ghost var before := groups;
      var todo := groups.Keys;
      while todo != {}
        invariant todo <= before.Keys
        invariant forall g :: g in groups <==> g in before && (g in todo || Live(before[g], cutoff) != map[])
        invariant forall g :: g in groups ==> groups[g] == if g in todo then before[g] else Live(before[g], cutoff)
        invariant now == clock.time
        decreases todo
      {
        var g :| g in todo;
        todo := todo - {g};
        var kept := DropExpired(groups[g], cutoff);
        groups := if |kept| == 0 then groups - {g} else groups[g := kept];
      }
      assert groups == Pruned(before, cutoff);
      PrunedIff(before, cutoff);
    }

    method DropExpired(jobs: map<JobId, QueuedJob>, cutoff: int) returns (kept: map<JobId, QueuedJob>)
      ensures kept == Live(jobs, cutoff)
    {
      kept := jobs;
      var todo := jobs.Keys;
      while todo != {}
        invariant todo <= jobs.Keys
        invariant forall id :: id in kept <==> id in jobs && (id in todo || !Expired(jobs[id], cutoff))
        invariant forall id :: id in kept ==> kept[id] == jobs[id]
        modifies {}
        decreases todo
      {
        var id :| id in todo;
        todo := todo - {id};
        if Expired(jobs[id], cutoff) {
          kept := kept - {id};
        }
      }
      assert kept.Keys == Live(jobs, cutoff).Keys;
    }

    /** Writes a temporary file and renames it: the file is the old one or the new one. */
    method PersistLocked() returns (ok: bool)
      modifies this`disk
      ensures disk == if ok then groups else old(disk)
    {
      ok := *;
      if ok {
        disk := groups;
      }
    }

    /** `pruned` and `stamped` are the two clock readings: one prunes, one stamps a job without a time. */
    method Queue(g: string, job: QueuedJob) returns (error: Option<Error>, ghost pruned: int, ghost stamped: int)
      modifies this`groups, this`disk, clock
      ensures old(clock.time) <= pruned <= stamped <= clock.time || (g == "" || job.id == NO_ID)
      ensures clock.time >= old(clock.time)
      ensures g == "" || job.id == NO_ID ==> error.Some? && groups == old(groups) && disk == old(disk)
      ensures g != "" && job.id != NO_ID ==>
                && g in groups && job.id in groups[g]
                && groups[g][job.id] ==
                     job.(queuedAt := Some(if job.queuedAt.Some? then job.queuedAt.value else stamped))
                && groups == WithJob(Pruned(old(groups), pruned - ttl), g, Stamped(job, stamped))
                && disk == if error.None? then groups else old(disk)
      ensures Mem(groups, disk) ==
              LazyStep(ttl, Mem(old(groups), old(disk)), Op(pruned, stamped, Call.Queue(g, job, error.None?)))
    {
      hide Pruned;
      if g == "" {
        return Some(GroupRequired), 0, 0;
      }
      if job.id == NO_ID {
        return Some(JobRequired), 0, 0;
      }
      var now := PruneLocked();
      var later, stored := now, job;
      if job.queuedAt.None? {
        later := clock.Now();
        stored := job.(queuedAt := Some(later));
      }
      pruned, stamped := now, later;
      var jobs := if g in groups then groups[g] else map[];
      groups := groups[g := jobs[job.id := stored]];
      var ok := PersistLocked();
      error := if ok then None else Some(PersistFailed);
    }

    method Clear(g: string, id: JobId) returns (error: Option<Error>, ghost pruned: int)
      modifies this`groups, this`disk, clock
      ensures old(clock.time) <= pruned <= clock.time
      ensures g in groups ==> id !in groups[g]
      ensures groups == WithoutJob(Pruned(old(groups), pruned - ttl), g, id)
      ensures disk == if error.None? then groups else old(disk)
      ensures Mem(groups, disk) ==
              LazyStep(ttl, Mem(old(groups), old(disk)), Op(pruned, pruned, Call.Clear(g, id, error.None?)))
    {
      hide Pruned;
      var now := PruneLocked();
      pruned := now;
      if g in groups {
        SetJobs(g, groups[g] - {id});
      }
      var ok := PersistLocked();
      error := if ok then None else Some(PersistFailed);
    }

    /** Reads the clock for every job without a time. */
    method IndexJobs(jobs: seq<QueuedJob>) returns (replacement: map<JobId, QueuedJob>, ghost stamped: seq<QueuedJob>)
      modifies clock
      ensures clock.time >= old(clock.time)
      ensures AreStamped(jobs, stamped, old(clock.time), clock.time)
      ensures replacement == Indexed(stamped)
    {
      hide Indexed, AreStamped;
      replacement, stamped := map[], [];
      NothingIndexed(jobs, clock.time);
      for i := 0 to |jobs|
        invariant clock.time >= old(clock.time)
        invariant AreStamped(jobs[..i], stamped, old(clock.time), clock.time)
        invariant replacement == Indexed(stamped)
      {
        var job := jobs[i];
        ghost var before := clock.time;
        if job.id == NO_ID {
          StampedOne(job, Stamped(job, before), old(clock.time), before);
          OneMoreIndexed(jobs, i, stamped, Stamped(job, before), old(clock.time), before, before);
          stamped := stamped + [Stamped(job, before)];
          continue;
        }
        if job.queuedAt.None? {
          var now := clock.Now();
          job := job.(queuedAt := Some(now));
        }
        assert job == Stamped(jobs[i], clock.time);
        StampedOne(jobs[i], job, old(clock.time), clock.time);
        OneMoreIndexed(jobs, i, stamped, job, old(clock.time), before, clock.time);
        stamped := stamped + [job];
        replacement := replacement[job.id := job];
      }
      assert jobs[..|jobs|] == jobs;
    }

    method SetJobs(g: string, jobs: map<JobId, QueuedJob>)
      modifies this`groups
      ensures groups == WithJobs(old(groups), g, jobs)
    {
      if |jobs| == 0 {
        groups := groups - {g};
      } else {
        groups := groups[g := jobs];
      }
    }

    /** Refreshes one group from an audit; jobs without a time are stamped, jobs without an ID dropped. */
    method Replace(g: string, jobs: seq<QueuedJob>)
      returns (error: Option<Error>, ghost pruned: int, ghost stamped: seq<QueuedJob>)
      modifies this`groups, this`disk, clock
      ensures clock.time >= old(clock.time)
      ensures g == "" ==> error.Some? && groups == old(groups) && disk == old(disk)
      ensures g != "" ==>
                && old(clock.time) <= pruned && AreStamped(jobs, stamped, pruned, clock.time)
                && groups == WithJobs(Pruned(old(groups), pruned - ttl), g, Indexed(stamped))
                && disk == if error.None? then groups else old(disk)
      ensures Mem(groups, disk) ==
              LazyStep(ttl, Mem(old(groups), old(disk)), Op(pruned, clock.time, Call.Replace(g, stamped, error.None?)))
    {
      hide Pruned, Indexed, WithJobs, AreStamped;
      if g == "" {
        return Some(GroupRequired), 0, [];
      }
      var now := PruneLocked();
      pruned := now;
      var replacement;
      replacement, stamped := IndexJobs(jobs);
      SetJobs(g, replacement);
      var ok := PersistLocked();
      error := if ok then None else Some(PersistFailed);
    }

    method Snapshot(g: string) returns (queued: nat, oldestAge: nat, ghost pruned: int)
      modifies this`groups, clock
      ensures old(clock.time) <= pruned <= clock.time
      ensures groups == Pruned(old(groups), pruned - ttl)
      ensures queued == (if g in groups then |groups[g]| else 0) == |SnapshotIds(old(groups), g, pruned - ttl)|
      ensures g in groups ==> forall id :: id in groups[g] ==>
                groups[g][id].queuedAt.Some? && clock.time - groups[g][id].queuedAt.value <= oldestAge
      ensures oldestAge == 0 ||
              (g in groups && exists id :: id in groups[g] && groups[g][id].queuedAt == Some(clock.time - oldestAge))
    {
      hide Pruned;
      var cutoffTime := PruneLocked();
      pruned := cutoffTime;
      var jobs: map<JobId, QueuedJob> := if g in groups then groups[g] else map[];
      queued, oldestAge := |jobs|, 0;
      var now := clock.Now();
      var todo := jobs.Keys;
      while todo != {}
        invariant todo <= jobs.Keys
        invariant forall id :: id in jobs && id !in todo ==> Aged(jobs[id], now) <= oldestAge
        invariant oldestAge == 0 || exists id :: id in jobs && Aged(jobs[id], now) == oldestAge
        modifies {}
        decreases todo
      {
        var id :| id in todo;
        todo := todo - {id};
        if Aged(jobs[id], now) > oldestAge {
          oldestAge := Aged(jobs[id], now);
        }
      }
    }
  }

  /** What is at the tracker's path when it is opened. */
  datatype StateFile = Absent | Unreadable | Undecodable | Holds(groups: Groups)

  method NewTracker(path: string, ttl: int, clock: Clock, file: StateFile) returns (tracker: Option<Tracker>)
    modifies clock
    ensures tracker.None? <==> path == "" || ttl <= 0 || file.Unreadable? || file.Undecodable?
    ensures tracker.Some? ==>
              var t, stored := tracker.value, if file.Holds? then file.groups else map[];
              && fresh(t) && t.ttl == ttl && t.clock == clock && t.disk == stored
              && t.groups == Pruned(stored, clock.time - ttl) && clock.time >= old(clock.time)
  {
    hide Pruned;
    if path == "" || ttl <= 0 {
      return None;
    }
    if file.Unreadable? || file.Undecodable? {
      return None;
    }
    var loaded := new Tracker(ttl, clock, if file.Holds? then file.groups else map[]);
    tracker := Some(loaded);
  }

  function Aged(job: QueuedJob, now: int): int {
    if job.queuedAt.None? then now else now - job.queuedAt.value
  }

  // ---------- the never-pruned specification ----------

  type Jobs = map<(string, JobId), QueuedJob>

  function SpecReplaced(jobs: Jobs, g: string, listed: map<JobId, QueuedJob>): Jobs {
    (map k | k in jobs && k.0 != g :: jobs[k]) + (map k | k in (set id | id in listed :: (g, id)) :: listed[k.1])
  }

  /** The IDs that a snapshot of `groups` counts: see `Tracker.Snapshot`. */
  function SnapshotIds(groups: Groups, g: string, cutoff: int): set<JobId> {
    JobsOf(Pruned(groups, cutoff), g).Keys
  }

  datatype Call =
    | Queue(g: string, job: QueuedJob, saved: bool)
    | Clear(g: string, id: JobId, saved: bool)
    | Replace(g: string, jobs: seq<QueuedJob>, saved: bool)
    | Look
    | Restart

  /** One tracker call with its clock readings; `saved` says whether its persist succeeded. The
      jobs of a `Replace` are those stamped (see `Tracker.Replace`). `Look` stands for the reading calls,
      which also prune. */
  datatype Op = Op(pruned: int, stamped: int, call: Call)

  datatype Mem = Mem(groups: Groups, disk: Groups)
  datatype Spec = Spec(jobs: Jobs, saved: Jobs)

  predicate Rejected(call: Call) {
    match call
    case Queue(g, job, _) => g == "" || job.id == NO_ID
    case Replace(g, _, _) => g == ""
    case _ => false
  }

  predicate Saves(call: Call) {
    !Rejected(call) && !call.Look? && !call.Restart? && call.saved
  }

  /** What a call does to the pruned groups. */
  function Applied(live: Groups, op: Op): Groups {
    match op.call
    case Queue(g, job, _) => WithJob(live, g, Stamped(job, op.stamped))
    case Clear(g, id, _) => WithoutJob(live, g, id)
    case Replace(g, jobs, _) => WithJobs(live, g, Indexed(jobs))
    case Look => live
    case Restart => live
  }

  function LazyGroups(ttl: nat, m: Mem, op: Op): Groups {
    if Rejected(op.call) then m.groups
    else Applied(Pruned(if op.call.Restart? then m.disk else m.groups, op.pruned - ttl), op)
  }

  function LazyStep(ttl: nat, m: Mem, op: Op): Mem {
    var groups := LazyGroups(ttl, m, op);
    Mem(groups, if Saves(op.call) then groups else m.disk)
  }

  /** The last of the jobs with this ID. */
  function LastWith(jobs: seq<QueuedJob>, id: JobId): Option<QueuedJob> {
    if jobs == [] then None
    else if jobs[|jobs| - 1].id == id then Some(jobs[|jobs| - 1])
    else LastWith(jobs[..|jobs| - 1], id)
  }

  lemma {:induction false} LastWithAt(jobs: seq<QueuedJob>, id: JobId, i: nat)
    requires i < |jobs| && jobs[i].id == id && forall j :: i < j < |jobs| ==> jobs[j].id != id
    ensures LastWith(jobs, id) == Some(jobs[i])
  {
    if i < |jobs| - 1 {
      LastWithAt(jobs[..|jobs| - 1], id, i);
    }
  }

  lemma {:induction false} LastWithFrom(jobs: seq<QueuedJob>, id: JobId) returns (i: nat)
    requires LastWith(jobs, id).Some?
    ensures i < |jobs| && jobs[i].id == id && forall j :: i < j < |jobs| ==> jobs[j].id != id
    ensures LastWith(jobs, id) == Some(jobs[i])
  {
    i := |jobs| - 1;
    if jobs[i].id != id {
      i := LastWithFrom(jobs[..i], id);
    }
  }

  lemma {:induction false} SomeWith(jobs: seq<QueuedJob>, id: JobId)
    requires exists job :: job in jobs && job.id == id
    ensures LastWith(jobs, id).Some?
  {
    var n := |jobs| - 1;
    if jobs[n].id != id {
      var job :| job in jobs && job.id == id;
      assert job in jobs[..n];
      SomeWith(jobs[..n], id);
    }
  }

  function IdsOf(jobs: seq<QueuedJob>): set<JobId> {
    set job | job in jobs && job.id != NO_ID :: job.id
  }

  /** Of the listed jobs with an ID, the last one of each. */
  function Listed(jobs: seq<QueuedJob>): map<JobId, QueuedJob> {
    map id | id in IdsOf(jobs) && LastWith(jobs, id).Some? :: LastWith(jobs, id).value
  }

  lemma ListedKeys(jobs: seq<QueuedJob>)
    ensures Listed(jobs).Keys == IdsOf(jobs)
  {
    forall id | id in IdsOf(jobs)
      ensures LastWith(jobs, id).Some?
    {
      SomeWith(jobs, id);
    }
  }

  lemma ListedStep(jobs: seq<QueuedJob>, n: nat)
    requires |jobs| == n + 1
    ensures Listed(jobs) ==
            if jobs[n].id == NO_ID then Listed(jobs[..n]) else Listed(jobs[..n])[jobs[n].id := jobs[n]]
  {
    var last := jobs[n];
    assert jobs == jobs[..n] + [last];
    assert IdsOf(jobs) == IdsOf(jobs[..n]) + if last.id == NO_ID then {} else {last.id};
    hide IdsOf;
    ListedKeys(jobs);
    ListedKeys(jobs[..n]);
    assert NO_ID !in Listed(jobs[..n]);
    assert forall id :: LastWith(jobs, id) == if id == last.id then Some(last) else LastWith(jobs[..n], id);
    hide LastWith;
    assert Listed(jobs).Keys == Listed(jobs[..n]).Keys + if last.id == NO_ID then {} else {last.id};
  }

  lemma {:induction false} IndexedIsListed(jobs: seq<QueuedJob>)
    ensures Indexed(jobs) == Listed(jobs)
  {
    if jobs != [] {
      hide Listed;
      IndexedIsListed(jobs[..|jobs| - 1]);
      ListedStep(jobs, |jobs| - 1);
    }
  }

  function SpecApplied(jobs: Jobs, op: Op): Jobs {
    match op.call
    case Queue(g, job, _) => jobs[(g, job.id) := if job.queuedAt.Some? then job else job.(queuedAt := Some(op.stamped))]
    case Clear(g, id, _) => jobs - {(g, id)}
    case Replace(g, replaced, _) => SpecReplaced(jobs, g, Listed(replaced))
    case Look => jobs
    case Restart => jobs
  }

  function SpecJobs(s: Spec, op: Op): Jobs {
    if Rejected(op.call) then s.jobs else SpecApplied(if op.call.Restart? then s.saved else s.jobs, op)
  }

  function SpecStep(s: Spec, op: Op): Spec {
    var jobs := SpecJobs(s, op);
    Spec(jobs, if Saves(op.call) then jobs else s.saved)
  }

  function LazyRun(ttl: nat, ops: seq<Op>): Mem {
    if ops == [] then Mem(map[], map[]) else LazyStep(ttl, LazyRun(ttl, ops[..|ops| - 1]), ops[|ops| - 1])
  }

  function SpecRun(ops: seq<Op>): Spec {
    if ops == [] then Spec(map[], map[]) else SpecStep(SpecRun(ops[..|ops| - 1]), ops[|ops| - 1])
  }

  /** The clock never goes back, within a call or from one call to the next. */
  ghost predicate Timed(ops: seq<Op>) {
    && (forall i :: 0 <= i < |ops| ==> ops[i].pruned <= ops[i].stamped)
    && (forall i :: 0 < i < |ops| ==> ops[i - 1].stamped <= ops[i].pruned)
  }

  /** `groups` holds only jobs of the specification, and every one that has not reached the cutoff. */
  ghost predicate Refines(groups: Groups, jobs: Jobs, cutoff: int) {
    && (forall g :: g in groups ==> groups[g] != map[])
    && (forall g, id :: g in groups && id in groups[g] ==> (g, id) in jobs && jobs[(g, id)] == groups[g][id])
    && (forall g, id :: (g, id) in jobs && jobs[(g, id)].queuedAt.Some? && jobs[(g, id)].queuedAt.value >= cutoff ==>
          g in groups && id in groups[g])
  }

  lemma RefinesLater(groups: Groups, jobs: Jobs, cutoff: int, later: int)
    requires Refines(groups, jobs, cutoff) && cutoff <= later
    ensures Refines(groups, jobs, later)
  {
  }

  lemma PrunedRefines(groups: Groups, jobs: Jobs, cutoff: int)
    requires Refines(groups, jobs, cutoff)
    ensures Refines(Pruned(groups, cutoff), jobs, cutoff)
  {
    hide Pruned;
    PrunedIff(groups, cutoff);
  }

  lemma QueueRefines(live: Groups, jobs: Jobs, cutoff: int, g: string, job: QueuedJob)
    requires Refines(live, jobs, cutoff)
    ensures Refines(WithJob(live, g, job), jobs[(g, job.id) := job], cutoff)
  {
    assert job.id in WithJob(live, g, job)[g];
  }

  lemma ClearRefines(live: Groups, jobs: Jobs, cutoff: int, g: string, id: JobId)
    requires Refines(live, jobs, cutoff)
    ensures Refines(WithoutJob(live, g, id), jobs - {(g, id)}, cutoff)
  {
    var groups', spec := WithoutJob(live, g, id), jobs - {(g, id)};
    if g in live {
      var rest := live[g] - {id};
      assert forall other :: other in live[g] && other != id ==> other in rest;
      assert g in groups' ==> groups'[g] == rest;
    }
    forall h, other | (h, other) in spec && spec[(h, other)].queuedAt.Some? && spec[(h, other)].queuedAt.value >= cutoff
      ensures h in groups' && other in groups'[h]
    {
      assert (h, other) in jobs && h in live && other in live[h];
    }
  }

  lemma ReplaceRefines(live: Groups, jobs: Jobs, cutoff: int, g: string, replacement: map<JobId, QueuedJob>)
    requires Refines(live, jobs, cutoff)
    ensures Refines(WithJobs(live, g, replacement), SpecReplaced(jobs, g, replacement), cutoff)
  {
    var spec := SpecReplaced(jobs, g, replacement);
    forall h, id | (h, id) in spec && spec[(h, id)].queuedAt.Some? && spec[(h, id)].queuedAt.value >= cutoff
      ensures h in WithJobs(live, g, replacement) && id in WithJobs(live, g, replacement)[h]
    {
      if h == g {
        assert id in replacement;
      }
    }
  }

  lemma AppliedRefines(live: Groups, jobs: Jobs, c: int, op: Op)
    requires Refines(live, jobs, c)
    ensures Refines(Applied(live, op), SpecApplied(jobs, op), c)
  {
    match op.call
    case Queue(g, job, _) => QueueRefines(live, jobs, c, g, Stamped(job, op.stamped));
    case Clear(g, id, _) => ClearRefines(live, jobs, c, g, id);
    case Replace(g, replaced, _) =>
      IndexedIsListed(replaced);
      ReplaceRefines(live, jobs, c, g, Indexed(replaced));
    case _ =>
  }

  /** A call first prunes what it works on, then changes it. */
  lemma PrunedThenApplied(groups: Groups, jobs: Jobs, c: int, op: Op)
    requires Refines(groups, jobs, c)
    ensures Refines(Applied(Pruned(groups, c), op), SpecApplied(jobs, op), c)
  {
    PrunedRefines(groups, jobs, c);
    AppliedRefines(Pruned(groups, c), jobs, c, op);
  }

  lemma GroupsRefine(ttl: nat, m: Mem, s: Spec, op: Op)
    requires Refines(m.groups, s.jobs, op.pruned - ttl) && Refines(m.disk, s.saved, op.pruned - ttl)
    ensures Refines(LazyGroups(ttl, m, op), SpecJobs(s, op), op.pruned - ttl)
  {
    hide Applied, SpecApplied, Pruned, Refines;
    if op.call.Restart? {
      PrunedThenApplied(m.disk, s.saved, op.pruned - ttl, op);
    } else if !Rejected(op.call) {
      PrunedThenApplied(m.groups, s.jobs, op.pruned - ttl, op);
    }
  }

  lemma StepRefines(ttl: nat, m: Mem, s: Spec, op: Op, now: int)
    requires Refines(m.groups, s.jobs, op.pruned - ttl) && Refines(m.disk, s.saved, op.pruned - ttl)
    requires op.pruned <= now
    ensures Refines(LazyStep(ttl, m, op).groups, SpecStep(s, op).jobs, now - ttl)
    ensures Refines(LazyStep(ttl, m, op).disk, SpecStep(s, op).saved, now - ttl)
  {
    hide Refines, LazyGroups, SpecJobs;
    GroupsRefine(ttl, m, s, op);
    RefinesLater(LazyGroups(ttl, m, op), SpecJobs(s, op), op.pruned - ttl, now - ttl);
    RefinesLater(m.disk, s.saved, op.pruned - ttl, now - ttl);
  }

  lemma TimedBefore(ops: seq<Op>)
    requires Timed(ops) && ops != []
    ensures var before, op := ops[..|ops| - 1], ops[|ops| - 1];
            Timed(before) && op.pruned <= op.stamped && (before != [] ==> before[|before| - 1].stamped <= op.pruned)
  {
  }

  lemma RunsStep(ttl: nat, ops: seq<Op>)
    requires ops != []
    ensures var before, op := ops[..|ops| - 1], ops[|ops| - 1];
            LazyRun(ttl, ops) == LazyStep(ttl, LazyRun(ttl, before), op) && SpecRun(ops) == SpecStep(SpecRun(before), op)
  {
  }

  lemma NothingRefines(ttl: nat, cutoff: int)
    ensures Refines(LazyRun(ttl, []).groups, SpecRun([]).jobs, cutoff)
    ensures Refines(LazyRun(ttl, []).disk, SpecRun([]).saved, cutoff)
  {
  }

  lemma {:induction false} RunRefines(ttl: nat, ops: seq<Op>, now: int)
    requires Timed(ops) && (ops != [] ==> ops[|ops| - 1].stamped <= now)
    ensures Refines(LazyRun(ttl, ops).groups, SpecRun(ops).jobs, now - ttl)
    ensures Refines(LazyRun(ttl, ops).disk, SpecRun(ops).saved, now - ttl)
  {
    hide Timed, Refines, LazyStep, SpecStep, LazyRun, SpecRun;
    if ops == [] {
      NothingRefines(ttl, now - ttl);
    } else {
      var before, op := ops[..|ops| - 1], ops[|ops| - 1];
      TimedBefore(ops);
      RunsStep(ttl, ops);
      RunRefines(ttl, before, op.pruned);
      StepRefines(ttl, LazyRun(ttl, before), SpecRun(before), op, now);
    }
  }

  /** Lazy expiry refines the simple map: after every sequence of calls and restarts under a
      non-decreasing clock, with every persist free to fail, a snapshot at `now` counts exactly the
      jobs of the never-pruned specification queued at or after `now - ttl`, and a snapshot taken by a
      process restarted at `now` counts exactly those of the last specification that was persisted. */
  lemma SnapshotCountsSpec(ttl: nat, ops: seq<Op>, now: int, g: string)
    requires Timed(ops) && (ops != [] ==> ops[|ops| - 1].stamped <= now)
    ensures var jobs, counted := SpecRun(ops).jobs, SnapshotIds(LazyRun(ttl, ops).groups, g, now - ttl);
            forall id :: id in counted <==>
              (g, id) in jobs && jobs[(g, id)].queuedAt.Some? && jobs[(g, id)].queuedAt.value >= now - ttl
    ensures var saved, counted := SpecRun(ops).saved, SnapshotIds(LazyRun(ttl, ops).disk, g, now - ttl);
            forall id :: id in counted <==>
              (g, id) in saved && saved[(g, id)].queuedAt.Some? && saved[(g, id)].queuedAt.value >= now - ttl
  {
    hide Refines, SnapshotIds, LazyRun, SpecRun;
    RunRefines(ttl, ops, now);
    LiveKeys(LazyRun(ttl, ops).groups, SpecRun(ops).jobs, now - ttl, g);
    LiveKeys(LazyRun(ttl, ops).disk, SpecRun(ops).saved, now - ttl, g);
  }

  lemma LiveKeys(groups: Groups, jobs: Jobs, cutoff: int, g: string)
    requires Refines(groups, jobs, cutoff)
    ensures forall id :: id in SnapshotIds(groups, g, cutoff) <==>
              (g, id) in jobs && jobs[(g, id)].queuedAt.Some? && jobs[(g, id)].queuedAt.value >= cutoff
  {
    hide Pruned;
    PrunedIff(groups, cutoff);
  }

  /** No call ever leaves a group with an empty job map, in memory or on disk. */
  lemma NoEmptyGroups(ttl: nat, ops: seq<Op>, g: string)
    requires Timed(ops)
    ensures g in LazyRun(ttl, ops).groups ==> LazyRun(ttl, ops).groups[g] != map[]
    ensures g in LazyRun(ttl, ops).disk ==> LazyRun(ttl, ops).disk[g] != map[]
  {
    RunRefines(ttl, ops, if ops == [] then 0 else ops[|ops| - 1].stamped);
  }
}
