/** Webhooks and the queue audit write the same demand.

    GitHub changes which jobs are queued and sends an event per change. Events of one job arrive in
    order, events of different jobs in any order, and events can be lost. A webhook applies one event
    while holding `demandMu`; an audit lists the queued jobs of one group and replaces that group's
    demand, holding `demandMu` across both. The tracker is its never-pruned specification
    (`Demand.SnapshotCountsSpec`), so no job expires here. */
module Audit {
  import opened Wrappers
  import opened Demand

  type Key = (string, JobId)

  /** `queued` tells a queued event from an in-progress or completed one. */
  datatype Event = Event(key: Key, queued: bool)

  datatype Audit =
    | Idle
    | Locked(g: string)
    | Listed(g: string, listing: map<JobId, QueuedJob>)

  /** `truth` holds GitHub's queued jobs by class. `suspect` holds the jobs that lost an event and were
      not audited since; `repairable` those among them that the listing in hand settles. */
  datatype State = State(
    truth: set<Key>,
    jobs: Jobs,
    inFlight: seq<Event>,
    audit: Audit,
    suspect: set<Key>,
    repairable: set<Key>)

  ghost predicate Init(s: State) {
    s == State({}, map[], [], Idle, {}, {})
  }

  function JobFor(key: Key): QueuedJob {
    QueuedJob(key.1, "", {}, Some(0))
  }

  function Absorbed(jobs: Jobs, e: Event): Jobs {
    if e.queued then jobs[e.key := JobFor(e.key)] else jobs - {e.key}
  }

  /** What the tracker will hold once everything in flight is applied in order. */
  function Drained(jobs: Jobs, inFlight: seq<Event>): Jobs
    decreases |inFlight|
  {
    if inFlight == [] then jobs else Drained(Absorbed(jobs, inFlight[0]), inFlight[1..])
  }

  predicate Pending(inFlight: seq<Event>, key: Key) {
    exists i :: 0 <= i < |inFlight| && inFlight[i].key == key
  }

  /** The newest event in flight for `key`, if there is one. */
  function Newest(inFlight: seq<Event>, key: Key): Option<bool> {
    if inFlight == [] then None
    else
      var last := inFlight[|inFlight| - 1];
      if last.key == key then Some(last.queued) else Newest(inFlight[..|inFlight| - 1], key)
  }

  function Without<T>(s: seq<T>, i: nat): seq<T>
    requires i < |s|
  {
    s[..i] + s[i + 1..]
  }

  /** No older event of the same job is in flight. */
  ghost predicate First(inFlight: seq<Event>, i: nat)
    requires i < |inFlight|
  {
    forall j :: 0 <= j < i ==> inFlight[j].key != inFlight[i].key
  }

  datatype Step =
    | Change(key: Key, queued: bool)
    | Deliver(i: nat)
    | Lose(i: nat)
    | Lock(g: string)
    | List(listing: map<JobId, QueuedJob>)
    | ListFails
    | Commit

  /** An exact listing of group `g`. */
  ghost predicate Exact(listing: map<JobId, QueuedJob>, g: string, truth: set<Key>) {
    forall id :: id in listing <==> (g, id) in truth
  }

  ghost predicate NextStep(s: State, s': State, step: Step) {
    match step
    case Change(key, queued) =>
      s' == s.(truth := if queued then s.truth + {key} else s.truth - {key},
               inFlight := s.inFlight + [Event(key, queued)])
    case Deliver(i) =>
      && s.audit.Idle?
      && i < |s.inFlight| && First(s.inFlight, i)
      && s' == s.(jobs := Absorbed(s.jobs, s.inFlight[i]), inFlight := Without(s.inFlight, i))
    case Lose(i) =>
      && i < |s.inFlight|
      && var key := s.inFlight[i].key;
         s' == s.(inFlight := Without(s.inFlight, i),
                  suspect := s.suspect + {key}, repairable := s.repairable - {key})
    case Lock(g) =>
      s.audit.Idle? && s' == s.(audit := Locked(g))
    case List(listing) =>
      && s.audit.Locked?
      && Exact(listing, s.audit.g, s.truth)
      && s' == s.(audit := Listed(s.audit.g, listing),
                  repairable := set k | k in s.suspect && k.0 == s.audit.g && !Pending(s.inFlight, k))
    case ListFails =>
      s.audit.Locked? && s' == s.(audit := Idle)
    case Commit =>
      && s.audit.Listed?
      && s' == s.(jobs := SpecReplaced(s.jobs, s.audit.g, s.audit.listing), audit := Idle,
                  suspect := s.suspect - s.repairable, repairable := {})
  }

  ghost predicate Next(s: State, s': State) {
    exists step :: NextStep(s, s', step)
  }

  ghost predicate IsRun(run: seq<State>) {
    && run != []
    && Init(run[0])
    && forall i :: 0 < i < |run| ==> Next(run[i - 1], run[i])
  }

  /** Applying what is in flight for `key` to a tracker that says `held` ends at the truth. */
  ghost predicate EndsAtTruth(inFlight: seq<Event>, key: Key, held: bool, truth: set<Key>) {
    var newest := Newest(inFlight, key);
    (if newest.Some? then newest.value else held) == (key in truth)
  }

  ghost predicate Inv(s: State) {
    && s.repairable <= s.suspect
    && (forall k :: k in s.repairable ==> s.audit.Listed? && k.0 == s.audit.g)
    && (forall k :: k !in s.suspect ==> EndsAtTruth(s.inFlight, k, k in s.jobs, s.truth))
    && (s.audit.Listed? ==> forall k: Key :: k.0 == s.audit.g && (k !in s.suspect || k in s.repairable) ==>
          EndsAtTruth(s.inFlight, k, k.1 in s.audit.listing, s.truth))
  }

  lemma NewestAppend(inFlight: seq<Event>, e: Event, key: Key)
    ensures Newest(inFlight + [e], key) == if e.key == key then Some(e.queued) else Newest(inFlight, key)
  {
    assert (inFlight + [e])[..|inFlight|] == inFlight;
  }

  lemma {:induction false} NewestNone(inFlight: seq<Event>, key: Key)
    ensures Newest(inFlight, key).Some? <==> Pending(inFlight, key)
  {
    if inFlight != [] {
      var before, last := inFlight[..|inFlight| - 1], inFlight[|inFlight| - 1];
      NewestNone(before, key);
      assert inFlight == before + [last];
      if Pending(inFlight, key) && last.key != key {
        var i :| 0 <= i < |inFlight| && inFlight[i].key == key;
        assert before[i].key == key;
      }
      if Pending(before, key) {
        var i :| 0 <= i < |before| && before[i].key == key;
        assert inFlight[i].key == key;
      }
    }
  }

  /** Removing an event of another job does not change the newest event of `key`; removing the oldest
      event of `key` changes it only when it was the only one. */
  lemma {:induction false} NewestWithout(inFlight: seq<Event>, i: nat, key: Key)
    requires i < |inFlight|
    ensures inFlight[i].key != key ==> Newest(Without(inFlight, i), key) == Newest(inFlight, key)
    ensures inFlight[i].key == key && First(inFlight, i) ==>
              Newest(inFlight, key) == (var rest := Newest(Without(inFlight, i), key);
                                        if rest.Some? then rest else Some(inFlight[i].queued))
  {
    var before, last := inFlight[..|inFlight| - 1], inFlight[|inFlight| - 1];
    if i == |inFlight| - 1 {
      assert Without(inFlight, i) == before;
      if last.key == key && First(inFlight, i) {
        NewestNone(before, key);
        assert !Pending(before, key);
      }
    } else {
      assert Without(inFlight, i) == Without(before, i) + [last];
      NewestAppend(Without(before, i), last, key);
      NewestWithout(before, i, key);
    }
  }

  lemma ChangeKeeps(s: State, s': State, key: Key, queued: bool)
    requires Inv(s) && NextStep(s, s', Change(key, queued))
    ensures Inv(s')
  {
    forall k: Key
      ensures Newest(s'.inFlight, k) == if k == key then Some(queued) else Newest(s.inFlight, k)
    {
      NewestAppend(s.inFlight, Event(key, queued), k);
    }
  }

  lemma DeliverKeeps(s: State, s': State, i: nat)
    requires Inv(s) && NextStep(s, s', Deliver(i))
    ensures Inv(s')
  {
    forall k | k !in s'.suspect
      ensures EndsAtTruth(s'.inFlight, k, k in s'.jobs, s'.truth)
    {
      NewestWithout(s.inFlight, i, k);
      assert EndsAtTruth(s.inFlight, k, k in s.jobs, s.truth);
    }
  }

  lemma LoseKeeps(s: State, s': State, i: nat)
    requires Inv(s) && NextStep(s, s', Lose(i))
    ensures Inv(s')
  {
    forall k: Key | k != s.inFlight[i].key
      ensures Newest(s'.inFlight, k) == Newest(s.inFlight, k)
    {
      NewestWithout(s.inFlight, i, k);
    }
  }

  lemma ListKeeps(s: State, s': State, listing: map<JobId, QueuedJob>)
    requires Inv(s) && NextStep(s, s', List(listing))
    ensures Inv(s')
  {
    forall k: Key | k.0 == s'.audit.g && (k !in s'.suspect || k in s'.repairable)
      ensures EndsAtTruth(s'.inFlight, k, k.1 in listing, s'.truth)
    {
      NewestNone(s.inFlight, k);
      assert (k.0, k.1) == k;
      if k !in s.suspect {
        assert EndsAtTruth(s.inFlight, k, k in s.jobs, s.truth);
      }
    }
  }

  lemma CommitKeeps(s: State, s': State)
    requires Inv(s) && NextStep(s, s', Commit)
    ensures Inv(s')
  {
    forall k | k !in s'.suspect
      ensures EndsAtTruth(s'.inFlight, k, k in s'.jobs, s'.truth)
    {
      assert (k.0, k.1) == k;
      if k.0 == s.audit.g {
        assert k in s'.jobs <==> k.1 in s.audit.listing;
      } else {
        assert k in s'.jobs <==> k in s.jobs;
        assert k !in s.repairable;
      }
    }
  }

  lemma {:induction false} InvHolds(run: seq<State>, k: nat)
    requires IsRun(run) && k < |run|
    ensures Inv(run[k])
  {
    if k > 0 {
      hide Inv;
      InvHolds(run, k - 1);
      StepKeeps(run[k - 1], run[k]);
    } else {
      InitInv(run[0]);
    }
  }

  lemma InitInv(s: State)
    requires Init(s)
    ensures Inv(s)
  {
  }

  lemma StepKeeps(s: State, s': State)
    requires Inv(s) && Next(s, s')
    ensures Inv(s')
  {
    hide Inv;
    var step :| NextStep(s, s', step);
    match step
    case Change(key, queued) => ChangeKeeps(s, s', key, queued);
    case Deliver(i) => DeliverKeeps(s, s', i);
    case Lose(i) => LoseKeeps(s, s', i);
    case Lock(g) => LockKeeps(s, s', step);
    case List(listing) => ListKeeps(s, s', listing);
    case ListFails => LockKeeps(s, s', step);
    case Commit => CommitKeeps(s, s');
  }

  lemma LockKeeps(s: State, s': State, step: Step)
    requires Inv(s) && NextStep(s, s', step) && (step.Lock? || step.ListFails?)
    ensures Inv(s')
  {
  }

  lemma {:induction false} DrainedIff(jobs: Jobs, inFlight: seq<Event>, key: Key)
    ensures key in Drained(jobs, inFlight)
       <==> (var newest := Newest(inFlight, key); if newest.Some? then newest.value else key in jobs)
    decreases |inFlight|
  {
    if inFlight != [] {
      var e, rest := inFlight[0], inFlight[1..];
      DrainedIff(Absorbed(jobs, e), rest, key);
      assert First(inFlight, 0) && Without(inFlight, 0) == rest;
      NewestWithout(inFlight, 0, key);
    }
  }

  /** Audit and webhooks agree, for every interleaving of GitHub's changes, deliveries in any order
      across jobs, losses, and audits that may fail: once the events in flight are applied, the
      tracker holds exactly GitHub's queued jobs, except possibly jobs that lost an event and were not
      repaired by an audit since. */
  lemma DemandConverges(run: seq<State>, k: nat, key: Key)
    requires IsRun(run) && k < |run|
    requires key !in run[k].suspect
    ensures key in Drained(run[k].jobs, run[k].inFlight) <==> key in run[k].truth
  {
    InvHolds(run, k);
    assert EndsAtTruth(run[k].inFlight, key, key in run[k].jobs, run[k].truth);
    DrainedIff(run[k].jobs, run[k].inFlight, key);
  }

  /** As long as no event was lost, the tracker with everything in flight applied is GitHub's truth. */
  lemma NothingLostNothingWrong(run: seq<State>, k: nat)
    requires IsRun(run) && k < |run| && run[k].suspect == {}
    ensures Drained(run[k].jobs, run[k].inFlight).Keys == run[k].truth
  {
    var drained := Drained(run[k].jobs, run[k].inFlight);
    forall key: Key
      ensures key in drained <==> key in run[k].truth
    {
      DemandConverges(run, k, key);
    }
  }

  /** This transition loses an event of `key`. */
  ghost predicate Loses(s: State, s': State, key: Key) {
    exists n: nat :: n < |s.inFlight| && s.inFlight[n].key == key && NextStep(s, s', Lose(n))
  }

  ghost predicate Settled(s: State, g: string, key: Key) {
    s.audit.Listed? && s.audit.g == g && (key in s.suspect ==> key in s.repairable)
  }

  lemma {:induction false} StaysSettled(run: seq<State>, i: nat, j: nat, key: Key)
    requires IsRun(run) && i <= j < |run|
    requires Settled(run[i], key.0, key)
    requires forall m :: i <= m <= j ==> run[m].audit.Listed?
    requires forall m :: i < m <= j ==> !Loses(run[m - 1], run[m], key)
    ensures Settled(run[j], key.0, key)
  {
    if i < j {
      StaysSettled(run, i, j - 1, key);
      var s, s' := run[j - 1], run[j];
      var step :| NextStep(s, s', step);
      if step.Lose? {
        assert s.inFlight[step.i].key != key;
      }
    }
  }

  /** An audit repairs its group: whatever was lost before the listing at `i`, a job of the group that
      had nothing in flight then, and loses nothing until the commit at `c`, is right afterwards. */
  lemma AuditRepairs(run: seq<State>, i: nat, c: nat, key: Key, listing: map<JobId, QueuedJob>)
    requires IsRun(run) && 0 < i < c < |run|
    requires NextStep(run[i - 1], run[i], List(listing)) && run[i].audit.g == key.0
    requires !Pending(run[i - 1].inFlight, key)
    requires forall m :: i <= m < c ==> run[m].audit.Listed?
    requires forall m :: i < m < c ==> !Loses(run[m - 1], run[m], key)
    requires NextStep(run[c - 1], run[c], Commit)
    ensures key !in run[c].suspect
    ensures key in Drained(run[c].jobs, run[c].inFlight) <==> key in run[c].truth
  {
    StaysSettled(run, i, c - 1, key);
    DemandConverges(run, c, key);
  }
}
