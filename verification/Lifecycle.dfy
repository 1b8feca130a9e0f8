/** Lifecycle metrics derived from the log entries: queue waits, jobs per runner lifecycle, and gaps
    between scale-down and scale-up.

    The loop of `BuildLifecycleMetrics` updates three groups of variables that never read one another, so
    each has its own step function. `Waits`, `JobCounts` and `GapsOf` say what the samples are without
    any running state, in terms of the last earlier entry of some kind. */
module Lifecycle {
  import opened Sorting
  import opened Statistics
  import opened Wrappers

  /** The event type and action of an entry, as far as the metrics tell them apart. */
  datatype Kind = Queued | InProgress | ScaledUp | ScaleUpRequested | ScaleDownStarted | Other

  /** `job` is the entry's job key; times are instants, `ZERO_TIME` the zero one. */
  datatype LogEntry = LogEntry(kind: Kind, time: int, job: string, runner: string)

  const ZERO_TIME := 0

  predicate Earlier(a: LogEntry, b: LogEntry) {
    a.time < b.time
  }

  datatype Queue = Queue(starts: map<string, int>, waits: seq<int>)

  datatype Runners = Runners(
    active: map<string, set<string>>,
    pending: map<string, set<string>>,
    counts: seq<nat>)

  datatype Gaps = Gaps(lastScaleDown: int, gaps: seq<int>)

  /** `window` is the first and the last entry's time. */
  datatype Metrics = Metrics(window: Option<(int, int)>, waits: seq<int>, counts: seq<nat>, gaps: seq<int>)

  const NO_METRICS := Metrics(None, [], [], [])

  function QueueStep(q: Queue, e: LogEntry): Queue {
    if e.kind.Queued? then q.(starts := q.starts[e.job := e.time])
    else if e.kind.InProgress? && e.job in q.starts && !(e.time < q.starts[e.job]) then
      Queue(q.starts - {e.job}, q.waits + [e.time - q.starts[e.job]])
    else q
  }

  function JobsOf(jobs: map<string, set<string>>, runner: string): set<string> {
    if runner in jobs then jobs[runner] else {}
  }

  function RunnersStep(r: Runners, e: LogEntry): Runners {
    if e.runner == "" then r
    else if e.kind.InProgress? then
      if e.runner in r.active then r.(active := r.active[e.runner := r.active[e.runner] + {e.job}])
      else r.(pending := r.pending[e.runner := JobsOf(r.pending, e.runner) + {e.job}])
    else if e.kind.ScaledUp? then
      r.(active := r.active[e.runner := JobsOf(r.pending, e.runner)], pending := r.pending - {e.runner})
    else if e.kind.ScaleDownStarted? then
      Runners(r.active - {e.runner}, r.pending - {e.runner},
              if e.runner in r.active then r.counts + [|r.active[e.runner]|] else r.counts)
    else r
  }

  function GapsStep(g: Gaps, e: LogEntry): Gaps {
    if e.kind.ScaleUpRequested? && g.lastScaleDown != ZERO_TIME && !(e.time < g.lastScaleDown) then
      Gaps(ZERO_TIME, g.gaps + [e.time - g.lastScaleDown])
    else if e.kind.ScaleDownStarted? && e.runner != "" then g.(lastScaleDown := e.time)
    else g
  }

  function QueueAfter(s: seq<LogEntry>): Queue {
    if s == [] then Queue(map[], []) else QueueStep(QueueAfter(s[..|s| - 1]), s[|s| - 1])
  }

  function RunnersAfter(s: seq<LogEntry>): Runners {
    if s == [] then Runners(map[], map[], []) else RunnersStep(RunnersAfter(s[..|s| - 1]), s[|s| - 1])
  }

  function GapsAfter(s: seq<LogEntry>): Gaps {
    if s == [] then Gaps(ZERO_TIME, []) else GapsStep(GapsAfter(s[..|s| - 1]), s[|s| - 1])
  }

  lemma OneMore(s: seq<LogEntry>, i: nat)
    requires i < |s|
    ensures QueueAfter(s[..i + 1]) == QueueStep(QueueAfter(s[..i]), s[i])
    ensures RunnersAfter(s[..i + 1]) == RunnersStep(RunnersAfter(s[..i]), s[i])
    ensures GapsAfter(s[..i + 1]) == GapsStep(GapsAfter(s[..i]), s[i])
  {
    assert s[..i + 1][..i] == s[..i];
  }

  lemma AtStart()
    ensures QueueAfter([]) == Queue(map[], []) && RunnersAfter([]) == Runners(map[], map[], [])
    ensures GapsAfter([]) == Gaps(ZERO_TIME, [])
  {
  }

  function MetricsOf(sorted: seq<LogEntry>): Metrics {
    if sorted == [] then NO_METRICS
    else
      Metrics(Some((sorted[0].time, sorted[|sorted| - 1].time)), QueueAfter(sorted).waits,
              RunnersAfter(sorted).counts, GapsAfter(sorted).gaps)
  }

  /** The first and the last of the sorted entries are an earliest and a latest one. */
  lemma WindowIs(entries: seq<LogEntry>)
    requires entries != []
    ensures var sorted := StableSort(entries, Earlier);
            && |sorted| == |entries| && sorted[0] in entries && sorted[|sorted| - 1] in entries
            && forall e :: e in entries ==> sorted[0].time <= e.time <= sorted[|sorted| - 1].time
  {
    var sorted := StableSort(entries, Earlier);
    SortPermutes(entries, Earlier);
    SortSorts(entries, Earlier);
    assert sorted[0] in multiset(entries) && sorted[|sorted| - 1] in multiset(entries);
    forall e | e in entries
      ensures sorted[0].time <= e.time <= sorted[|sorted| - 1].time
    {
      assert e in multiset(sorted);
    }
  }

  method BuildLifecycleMetrics(entries: seq<LogEntry>) returns (metrics: Metrics)
    ensures metrics.window.None? <==> entries == []
    ensures metrics.window.Some? ==>
              var (start, end) := metrics.window.value;
              && (forall e :: e in entries ==> start <= e.time <= end)
              && (exists e :: e in entries && e.time == start) && (exists e :: e in entries && e.time == end)
    ensures metrics == MetricsOf(StableSort(entries, Earlier))
  {
    hide QueueAfter, RunnersAfter, GapsAfter, QueueStep, RunnersStep, GapsStep;
    if |entries| == 0 {
      return NO_METRICS;
    }
    AtStart();
    SortPermutes(entries, Earlier);
    WindowIs(entries);
    var sorted := StableSort(entries, Earlier);
    var queueStarts: map<string, int>, queueWaits: seq<int> := map[], [];
    var active: map<string, set<string>>, pending: map<string, set<string>> := map[], map[];
    var counts: seq<nat>, gaps: seq<int>, lastScaleDown := [], [], ZERO_TIME;
    assert sorted[..0] == [];
    for i := 0 to |sorted|
      invariant Queue(queueStarts, queueWaits) == QueueAfter(sorted[..i])
      invariant Runners(active, pending, counts) == RunnersAfter(sorted[..i])
      invariant Gaps(lastScaleDown, gaps) == GapsAfter(sorted[..i])
    {
      var e := sorted[i];
      OneMore(sorted, i);
      queueStarts, queueWaits := TrackQueue(e, queueStarts, queueWaits);
      active, pending, counts := TrackRunner(e, active, pending, counts);
      lastScaleDown, gaps := TrackGap(e, lastScaleDown, gaps);
    }
    assert sorted[..|sorted|] == sorted;
    metrics := Metrics(Some((sorted[0].time, sorted[|sorted| - 1].time)), queueWaits, counts, gaps);
  }

  // The cases of the loop's switch, gathered by the variables they change.

  method TrackQueue(e: LogEntry, queueStarts: map<string, int>, queueWaits: seq<int>)
    returns (starts: map<string, int>, waits: seq<int>)
    ensures Queue(starts, waits) == QueueStep(Queue(queueStarts, queueWaits), e)
  {
    starts, waits := queueStarts, queueWaits;
    if e.kind.Queued? {
      starts := starts[e.job := e.time];
    } else if e.kind.InProgress? {
      if e.job in starts && !(e.time < starts[e.job]) {
        waits := waits + [e.time - starts[e.job]];
        starts := starts - {e.job};
      }
    }
  }

  method TrackRunner(e: LogEntry, active: map<string, set<string>>, pending: map<string, set<string>>, counts: seq<nat>)
    returns (active': map<string, set<string>>, pending': map<string, set<string>>, counts': seq<nat>)
    ensures Runners(active', pending', counts') == RunnersStep(Runners(active, pending, counts), e)
  {
    active', pending', counts' := active, pending, counts;
    if e.runner == "" {
      return;
    }
    match e.kind {
      case InProgress =>
        if e.runner in active {
          active' := active[e.runner := active[e.runner] + {e.job}];
        } else {
          var jobs := JobsOf(pending, e.runner);
          pending' := pending[e.runner := jobs + {e.job}];
        }
      case ScaledUp =>
        var jobs := JobsOf(pending, e.runner);
        pending' := pending - {e.runner};
        active' := active[e.runner := jobs];
      case ScaleDownStarted =>
        if e.runner in active {
          counts' := counts + [|active[e.runner]|];
          active' := active - {e.runner};
        } else {
          assert active - {e.runner} == active;
        }
        pending' := pending - {e.runner};
      case _ =>
    }
  }

  method TrackGap(e: LogEntry, lastScaleDown: int, gaps: seq<int>) returns (last: int, gaps': seq<int>)
    ensures Gaps(last, gaps') == GapsStep(Gaps(lastScaleDown, gaps), e)
  {
    last, gaps' := lastScaleDown, gaps;
    if e.kind.ScaleUpRequested? {
      if lastScaleDown != ZERO_TIME && !(e.time < lastScaleDown) {
        gaps' := gaps + [e.time - lastScaleDown];
        last := ZERO_TIME;
      }
    } else if e.kind.ScaleDownStarted? && e.runner != "" {
      last := e.time;
    }
  }

  /** The numbers that are pushed; times are in seconds. */
  datatype Summary = Summary(
    queueWaitSamples: nat,
    averageWait: real,
    p95Wait: real,
    lifecycleSamples: nat,
    averageJobs: real,
    reusedPct: real,
    gapSamples: nat,
    averageGap: real)

  const NANOSECONDS := 1_000_000_000.0

  function Seconds(times: seq<int>): (r: seq<real>)
    ensures |r| == |times| && forall i :: 0 <= i < |r| ==> r[i] * 1_000_000_000.0 == times[i] as real
  {
    seq(|times|, i requires 0 <= i < |times| => times[i] as real / NANOSECONDS)
  }

  function AsReals(counts: seq<nat>): (r: seq<real>)
    ensures |r| == |counts| && forall i :: 0 <= i < |r| ==> r[i] == counts[i] as real
  {
    seq(|counts|, i requires 0 <= i < |counts| => counts[i] as real)
  }

  function CountReused(counts: seq<nat>): nat {
    if counts == [] then 0 else CountReused(counts[..|counts| - 1]) + if counts[|counts| - 1] > 1 then 1 else 0
  }

  /** The averages are averages, the percentile is one, and the reused share is that of lifecycles with
      more than one job; all are zero without samples. */
  method Summarize(m: Metrics) returns (s: Summary)
    ensures s.queueWaitSamples == |m.waits| && s.lifecycleSamples == |m.counts| && s.gapSamples == |m.gaps|
    ensures IsAverage(Seconds(m.waits), s.averageWait) && IsAverage(AsReals(m.counts), s.averageJobs)
    ensures IsAverage(Seconds(m.gaps), s.averageGap) && (m.counts == [] ==> s.reusedPct == 0.0)
    ensures s.reusedPct * |m.counts| as real == 100.0 * |set i: nat | i < |m.counts| && m.counts[i] > 1| as real
    ensures if m.waits == [] then s.p95Wait == 0.0 else IsPercentile(Seconds(m.waits), 0.95, s.p95Wait)
  {
    hide IsPercentile, IsAverage;
    var waits, jobs, gaps := Seconds(m.waits), AsReals(m.counts), Seconds(m.gaps);
    var averageWait := Average(waits);
    var p95Wait := Percentile(waits, 0.95);
    var averageJobs := Average(jobs);
    var reusedPct := ReusedLifecyclePct(m.counts);
    var averageGap := Average(gaps);
    s := Summary(|m.waits|, averageWait, p95Wait, |m.counts|, averageJobs, reusedPct, |m.gaps|, averageGap);
  }

  lemma {:induction false} ReusedAre(counts: seq<nat>)
    ensures CountReused(counts) == |set i: nat | i < |counts| && counts[i] > 1|
  {
    if counts != [] {
      var n := |counts| - 1;
      ReusedAre(counts[..n]);
      assert (set i: nat | i < |counts| && counts[i] > 1) ==
             (set i: nat | i < n && counts[..n][i] > 1) + if counts[n] > 1 then {n} else {};
    }
  }

  lemma Share(part: nat, whole: nat, pct: real)
    requires whole > 0 && pct == part as real / whole as real * 100.0
    ensures pct * whole as real == 100.0 * part as real
  {
    assert part as real / whole as real * whole as real == part as real;
  }

  method ReusedLifecyclePct(counts: seq<nat>) returns (pct: real)
    ensures pct * |counts| as real == 100.0 * |set i: nat | i < |counts| && counts[i] > 1| as real
    ensures counts == [] ==> pct == 0.0
  {
    if |counts| == 0 {
      return 0.0;
    }
    var reused := 0;
    for i := 0 to |counts|
      invariant reused == CountReused(counts[..i])
    {
      assert counts[..i + 1][..i] == counts[..i];
      if counts[i] > 1 {
        reused := reused + 1;
      }
    }
    assert counts[..|counts|] == counts;
    pct := reused as real / |counts| as real * 100.0;
    Share(reused, |counts|, pct);
    ReusedAre(counts);
  }

  // ---------- what the samples are ----------

  /** Which entries matter: the queueing and start of a job, the scaling of a runner, or the scaling that
      gaps are measured between. */
  datatype Topic = Job(job: string) | Scaling(runner: string) | AnyScaling

  predicate Concerns(e: LogEntry, topic: Topic) {
    match topic
    case Job(job) => (e.kind.Queued? || e.kind.InProgress?) && e.job == job
    case Scaling(runner) => (e.kind.ScaledUp? || e.kind.ScaleDownStarted?) && e.runner == runner
    case AnyScaling => e.kind.ScaleUpRequested? || (e.kind.ScaleDownStarted? && e.runner != "")
  }

  function LastOn(s: seq<LogEntry>, topic: Topic): (r: Option<nat>)
    ensures r.Some? ==> r.value < |s| && Concerns(s[r.value], topic)
    ensures r.Some? ==> forall k :: r.value < k < |s| ==> !Concerns(s[k], topic)
    ensures r.None? ==> forall k :: 0 <= k < |s| ==> !Concerns(s[k], topic)
  {
    if s == [] then None
    else if Concerns(s[|s| - 1], topic) then Some(|s| - 1)
    else LastOn(s[..|s| - 1], topic)
  }

  /** The queued entry that `job` still waits on after `s`: its last entry, if that is a queued one. */
  function Waiting(s: seq<LogEntry>, job: string): (r: Option<nat>)
    ensures r.Some? ==> r.value < |s| && s[r.value].kind.Queued? && s[r.value].job == job
  {
    var last := LastOn(s, Job(job));
    if last.Some? && s[last.value].kind.Queued? then last else None
  }

  /** The scale-up whose lifecycle `runner` is in after `s`. */
  function InLifecycle(s: seq<LogEntry>, runner: string): (r: Option<nat>)
    ensures r.Some? ==> r.value < |s| && s[r.value].kind.ScaledUp? && s[r.value].runner == runner
  {
    var last := LastOn(s, Scaling(runner));
    if last.Some? && s[last.value].kind.ScaledUp? then last else None
  }

  /** The scale-down that the next requested scale-up will be measured from. */
  function OpenGap(s: seq<LogEntry>): (r: Option<nat>)
    ensures r.Some? ==> r.value < |s| && s[r.value].kind.ScaleDownStarted? && s[r.value].time != ZERO_TIME
  {
    var last := LastOn(s, AnyScaling);
    if last.Some? && s[last.value].kind.ScaleDownStarted? && s[last.value].time != ZERO_TIME then last else None
  }

  function JobsFrom(s: seq<LogEntry>, from: nat, runner: string): set<string> {
    set k | from <= k < |s| && s[k].kind.InProgress? && s[k].runner == runner :: s[k].job
  }

  /** The jobs of `runner` that started after its last scale event. */
  function RecentJobs(s: seq<LogEntry>, runner: string): set<string> {
    var last := LastOn(s, Scaling(runner));
    JobsFrom(s, if last.Some? then last.value + 1 else 0, runner)
  }

  /** The jobs of the lifecycle that began with entry `c`: those started since, and, unless the runner was
      in a lifecycle already, those that started before it was reported up. */
  function LifecycleJobs(s: seq<LogEntry>, c: nat, runner: string): set<string>
    requires c < |s|
  {
    JobsFrom(s, c + 1, runner) + if InLifecycle(s[..c], runner).Some? then {} else RecentJobs(s[..c], runner)
  }

  function WaitOf(before: seq<LogEntry>, e: LogEntry): seq<int> {
    var q := Waiting(before, e.job);
    if e.kind.InProgress? && q.Some? then [e.time - before[q.value].time] else []
  }

  function CountOf(before: seq<LogEntry>, e: LogEntry): seq<nat> {
    var c := InLifecycle(before, e.runner);
    if e.kind.ScaleDownStarted? && e.runner != "" && c.Some? then [|LifecycleJobs(before, c.value, e.runner)|] else []
  }

  function GapOf(before: seq<LogEntry>, e: LogEntry): seq<int> {
    var d := OpenGap(before);
    if e.kind.ScaleUpRequested? && d.Some? then [e.time - before[d.value].time] else []
  }

  function Waits(s: seq<LogEntry>): seq<int> {
    if s == [] then [] else Waits(s[..|s| - 1]) + WaitOf(s[..|s| - 1], s[|s| - 1])
  }

  function JobCounts(s: seq<LogEntry>): seq<nat> {
    if s == [] then [] else JobCounts(s[..|s| - 1]) + CountOf(s[..|s| - 1], s[|s| - 1])
  }

  function GapsOf(s: seq<LogEntry>): seq<int> {
    if s == [] then [] else GapsOf(s[..|s| - 1]) + GapOf(s[..|s| - 1], s[|s| - 1])
  }

  lemma LastOnStep(s: seq<LogEntry>, topic: Topic)
    requires s != []
    ensures LastOn(s, topic) == if Concerns(s[|s| - 1], topic) then Some(|s| - 1) else LastOn(s[..|s| - 1], topic)
  {
  }

  ghost predicate TracksJob(s: seq<LogEntry>, q: Queue, job: string) {
    && (job in q.starts <==> Waiting(s, job).Some?)
    && (job in q.starts ==> q.starts[job] == s[Waiting(s, job).value].time)
  }

  lemma TracksJobStep(s: seq<LogEntry>, q: Queue, job: string)
    requires s != [] && Sorted(s, Earlier) && TracksJob(s[..|s| - 1], q, job)
    ensures TracksJob(s, QueueStep(q, s[|s| - 1]), job)
  {
    hide LastOn;
    LastOnStep(s, Job(job));
  }

  lemma {:induction false} QueueAfterIs(s: seq<LogEntry>)
    requires Sorted(s, Earlier)
    ensures forall job :: TracksJob(s, QueueAfter(s), job)
    ensures QueueAfter(s).waits == Waits(s)
  {
    if s == [] {
    } else {
      hide Waiting;
      var before, e := s[..|s| - 1], s[|s| - 1];
      QueueAfterIs(before);
      forall job
        ensures TracksJob(s, QueueAfter(s), job)
      {
        TracksJobStep(s, QueueAfter(before), job);
      }
      assert TracksJob(before, QueueAfter(before), e.job);
    }
  }

  lemma {:induction false} GapsAfterIs(s: seq<LogEntry>)
    requires Sorted(s, Earlier)
    ensures GapsAfter(s).gaps == GapsOf(s)
    ensures GapsAfter(s).lastScaleDown == if OpenGap(s).Some? then s[OpenGap(s).value].time else ZERO_TIME
  {
    if s == [] {
    } else {
      hide LastOn;
      GapsAfterIs(s[..|s| - 1]);
      LastOnStep(s, AnyScaling);
    }
  }

  /** What the fold knows about one runner. */
  ghost predicate TracksRunner(s: seq<LogEntry>, r: Runners, runner: string) {
    var c := InLifecycle(s, runner);
    && (runner in r.active <==> c.Some?)
    && (c.Some? ==> r.active[runner] == LifecycleJobs(s, c.value, runner) && runner !in r.pending)
    && (c.None? ==> JobsOf(r.pending, runner) == RecentJobs(s, runner))
  }

  lemma JobsFromStep(s: seq<LogEntry>, from: nat, runner: string)
    requires s != [] && from < |s|
    ensures JobsFrom(s, from, runner) == JobsFrom(s[..|s| - 1], from, runner) +
              if s[|s| - 1].kind.InProgress? && s[|s| - 1].runner == runner then {s[|s| - 1].job} else {}
  {
    var before, e := s[..|s| - 1], s[|s| - 1];
    assert forall k :: 0 <= k < |before| ==> before[k] == s[k];
  }

  /** An entry that does not scale the runner leaves its lifecycle as it is, and adds at most one job. */
  lemma LifecycleStep(s: seq<LogEntry>, runner: string)
    requires s != [] && !Concerns(s[|s| - 1], Scaling(runner))
    ensures var e := s[|s| - 1];
            var before := s[..|s| - 1];
            var job := if e.kind.InProgress? && e.runner == runner then {e.job} else {};
            var c := InLifecycle(before, runner);
            && InLifecycle(s, runner) == c
            && RecentJobs(s, runner) == RecentJobs(before, runner) + job
            && (c.Some? ==> LifecycleJobs(s, c.value, runner) == LifecycleJobs(before, c.value, runner) + job)
  {
    hide LastOn, JobsFrom;
    var before := s[..|s| - 1];
    LastOnStep(s, Scaling(runner));
    var last := LastOn(before, Scaling(runner));
    JobsFromStep(s, if last.Some? then last.value + 1 else 0, runner);
    if last.Some? {
      assert s[..last.value] == before[..last.value];
    }
  }

  lemma ScaledStep(s: seq<LogEntry>, runner: string)
    requires s != [] && Concerns(s[|s| - 1], Scaling(runner))
    ensures var before := s[..|s| - 1];
            if s[|s| - 1].kind.ScaledUp? then
              InLifecycle(s, runner) == Some(|s| - 1) &&
              LifecycleJobs(s, |s| - 1, runner) ==
                if InLifecycle(before, runner).Some? then {} else RecentJobs(before, runner)
            else InLifecycle(s, runner) == None && RecentJobs(s, runner) == {}
  {
    LastOnStep(s, Scaling(runner));
    assert JobsFrom(s, |s|, runner) == {};
  }

  lemma TracksStep(s: seq<LogEntry>, r: Runners, runner: string)
    requires s != [] && runner != "" && TracksRunner(s[..|s| - 1], r, runner)
    ensures TracksRunner(s, RunnersStep(r, s[|s| - 1]), runner)
  {
    hide InLifecycle, LifecycleJobs, RecentJobs;
    if Concerns(s[|s| - 1], Scaling(runner)) {
      ScaledStep(s, runner);
    } else {
      hide RunnersStep;
      LifecycleStep(s, runner);
      UnscaledStep(r, s[|s| - 1], runner);
    }
  }

  /** An entry that does not scale the runner adds its job, if it is the runner's, to what is held of it. */
  lemma UnscaledStep(r: Runners, e: LogEntry, runner: string)
    requires runner != "" && !Concerns(e, Scaling(runner))
    ensures var job := if e.kind.InProgress? && e.runner == runner then {e.job} else {};
            var after := RunnersStep(r, e);
            && (runner in after.active <==> runner in r.active)
            && (runner in r.active ==>
                  after.active[runner] == r.active[runner] + job && (runner in after.pending <==> runner in r.pending))
            && (runner !in r.active ==> JobsOf(after.pending, runner) == JobsOf(r.pending, runner) + job)
  {
  }

  ghost predicate TracksAll(s: seq<LogEntry>, r: Runners) {
    forall runner :: runner != "" ==> TracksRunner(s, r, runner)
  }

  lemma TracksAllStep(s: seq<LogEntry>, r: Runners)
    requires s != [] && TracksAll(s[..|s| - 1], r)
    ensures TracksAll(s, RunnersStep(r, s[|s| - 1]))
  {
    hide InLifecycle, LifecycleJobs, RecentJobs, RunnersStep;
    var after := RunnersStep(r, s[|s| - 1]);
    forall runner | runner != ""
      ensures TracksRunner(s, after, runner)
    {
      TracksStep(s, r, runner);
    }
  }

  lemma CountStep(before: seq<LogEntry>, r: Runners, e: LogEntry)
    requires TracksAll(before, r)
    ensures RunnersStep(r, e).counts == r.counts + CountOf(before, e)
  {
    hide InLifecycle, LifecycleJobs, RecentJobs;
    if e.runner != "" {
      assert TracksRunner(before, r, e.runner);
    }
  }

  lemma {:induction false} RunnersAfterIs(s: seq<LogEntry>)
    ensures TracksAll(s, RunnersAfter(s))
    ensures RunnersAfter(s).counts == JobCounts(s)
  {
    if s == [] {
    } else {
      hide TracksAll, RunnersStep, CountOf;
      var before, e := s[..|s| - 1], s[|s| - 1];
      RunnersAfterIs(before);
      TracksAllStep(s, RunnersAfter(before));
      CountStep(before, RunnersAfter(before), e);
    }
  }

  /** The samples are the ones described by `Waits`, `JobCounts` and `GapsOf` on the sorted entries. */
  lemma SamplesAre(entries: seq<LogEntry>)
    ensures var sorted := StableSort(entries, Earlier);
            var m := MetricsOf(sorted);
            m.waits == Waits(sorted) && m.counts == JobCounts(sorted) && m.gaps == GapsOf(sorted)
  {
    var sorted := StableSort(entries, Earlier);
    SortSorts(entries, Earlier);
    QueueAfterIs(sorted);
    RunnersAfterIs(sorted);
    GapsAfterIs(sorted);
  }

  /** Which queued entry a started job is paired with: the one of the same job that no other queueing or
      start of the job separates it from. */
  lemma PairedIff(s: seq<LogEntry>, i: nat, j: nat)
    requires i < j < |s| && s[j].kind.InProgress?
    ensures Waiting(s[..j], s[j].job) == Some(i) <==>
            && s[i].kind.Queued? && s[i].job == s[j].job
            && forall k :: i < k < j ==> !Concerns(s[k], Job(s[j].job))
  {
    var before := s[..j];
    var last := LastOn(before, Job(s[j].job));
    assert before[i] == s[i];
    if last.Some? {
      assert before[last.value] == s[last.value];
    }
  }

  /** No queued entry is paired twice. */
  lemma PairedOnce(s: seq<LogEntry>, i: nat, j: nat, k: nat)
    requires i < j < k < |s| && s[j].kind.InProgress? && s[k].kind.InProgress?
    requires Waiting(s[..j], s[j].job) == Some(i)
    ensures Waiting(s[..k], s[k].job) != Some(i)
  {
    hide LastOn, Waiting;
    PairedIff(s, i, j);
    PairedIff(s, i, k);
  }

  lemma {:induction false} WaitsAreNonNegative(s: seq<LogEntry>)
    requires Sorted(s, Earlier)
    ensures forall k :: 0 <= k < |Waits(s)| ==> Waits(s)[k] >= 0
  {
    if s == [] {
    } else {
      hide Waiting;
      WaitsAreNonNegative(s[..|s| - 1]);
    }
  }

  ghost function CountKind(s: seq<LogEntry>, kind: Kind): nat {
    if s == [] then 0 else CountKind(s[..|s| - 1], kind) + if s[|s| - 1].kind == kind then 1 else 0
  }

  lemma {:induction false} SamplesAreBounded(s: seq<LogEntry>)
    ensures |QueueAfter(s).waits| + |QueueAfter(s).starts| <= CountKind(s, Queued)
    ensures |RunnersAfter(s).counts| + |RunnersAfter(s).active| <= CountKind(s, ScaledUp)
  {
    if s == [] {
    } else {
      var before, e := s[..|s| - 1], s[|s| - 1];
      SamplesAreBounded(before);
      MapSizes(QueueAfter(before).starts, e.job, e.time);
      var active := RunnersAfter(before).active;
      MapSizes(active, e.runner, JobsOf(RunnersAfter(before).pending, e.runner));
      MapSizes(active, e.runner, JobsOf(active, e.runner) + {e.job});
    }
  }

  lemma MapSizes<V>(m: map<string, V>, key: string, value: V)
    ensures |m[key := value]| == |m| + if key in m then 0 else 1
    ensures |m - {key}| == |m| - if key in m then 1 else 0
  {
    assert m[key := value].Keys == m.Keys + {key};
    assert (m - {key}).Keys == m.Keys - {key};
    assert |m[key := value].Keys| == |m[key := value]| && |(m - {key}).Keys| == |m - {key}|;
  }

  // ---------- arrival order ----------

  ghost predicate DistinctTimes(s: seq<LogEntry>) {
    forall i, j :: 0 <= i < j < |s| ==> s[i].time != s[j].time
  }

  lemma DistinctInAnyOrder(s: seq<LogEntry>, t: seq<LogEntry>)
    requires DistinctTimes(s) && multiset(s) == multiset(t)
    ensures DistinctTimes(t)
  {
    NoDuplicatesInAnyOrder(s, t);
    forall i, j | 0 <= i < j < |t|
      ensures t[i].time != t[j].time
    {
      assert t[i] in multiset(s) && t[j] in multiset(s);
    }
  }

  /** With pairwise distinct times the metrics do not depend on the order in which entries arrived. */
  lemma OrderIndependent(a: seq<LogEntry>, b: seq<LogEntry>)
    requires DistinctTimes(a) && multiset(a) == multiset(b)
    ensures MetricsOf(StableSort(a, Earlier)) == MetricsOf(StableSort(b, Earlier))
  {
    SortPermutes(a, Earlier);
    SortPermutes(b, Earlier);
    SortSorts(a, Earlier);
    SortSorts(b, Earlier);
    DistinctInAnyOrder(a, StableSort(a, Earlier));
    SortedIsUnique(StableSort(a, Earlier), StableSort(b, Earlier), Earlier);
  }

  lemma TiedPairStays(a: LogEntry, b: LogEntry)
    requires a.time == b.time
    ensures StableSort([a, b], Earlier) == [a, b]
  {
    assert [a, b][..1] == [a] && [a][..0] == [];
    assert StableSort([a], Earlier) == [a];
  }

  lemma PairWaits(a: LogEntry, b: LogEntry)
    ensures MetricsOf([a, b]).waits == QueueStep(QueueStep(Queue(map[], []), a), b).waits
  {
    assert [a, b][..1] == [a] && [a][..0] == [];
    assert QueueAfter([a]) == QueueStep(Queue(map[], []), a);
  }

  /** Entries with equal times keep their order of arrival, and that order can show: a job queued and
      started in the same instant is a sample only if the queued entry arrived first. */
  lemma OrderCanShow(time: int, job: string, runner: string)
    ensures var q, p := LogEntry(Queued, time, job, ""), LogEntry(InProgress, time, job, runner);
            && MetricsOf(StableSort([q, p], Earlier)).waits == [0]
            && MetricsOf(StableSort([p, q], Earlier)).waits == []
  {
    hide StableSort, MetricsOf;
    var q, p := LogEntry(Queued, time, job, ""), LogEntry(InProgress, time, job, runner);
    TiedPairStays(q, p);
    TiedPairStays(p, q);
    PairWaits(q, p);
    PairWaits(p, q);
  }

  function At(t: int): LogEntry -> bool {
    (e: LogEntry) => e.time == t
  }

  /** The entries of each time are in the same order in both. */
  ghost predicate TiesAgree(a: seq<LogEntry>, b: seq<LogEntry>) {
    forall t :: Filter(At(t), a) == Filter(At(t), b)
  }

  lemma SnocsAgree<T>(p: seq<T>, x: T, q: seq<T>, y: T)
    requires p + [x] == q + [y]
    ensures p == q && x == y
  {
    assert |p| + 1 == |p + [x]| == |q + [y]| == |q| + 1;
    assert (p + [x])[|p|] == (q + [y])[|q|];
    assert p == (p + [x])[..|p|] && q == (q + [y])[..|q|];
  }

  lemma TieBefore(x: seq<LogEntry>, y: seq<LogEntry>, n: nat, t: int)
    requires |x| == |y| == n + 1 && x[n].time == y[n].time && Filter(At(t), x) == Filter(At(t), y)
    ensures Filter(At(t), x[..n]) == Filter(At(t), y[..n]) && (x[n].time == t ==> x[n] == y[n])
  {
    var p, q := Filter(At(t), x[..n]), Filter(At(t), y[..n]);
    if x[n].time == t {
      SnocsAgree(p, x[n], q, y[n]);
    } else {
      assert p + [] == p && q + [] == q;
    }
  }

  lemma TiesAgreeBefore(x: seq<LogEntry>, y: seq<LogEntry>, n: nat)
    requires |x| == |y| == n + 1 && x[n].time == y[n].time && TiesAgree(x, y)
    ensures x[n] == y[n] && TiesAgree(x[..n], y[..n])
  {
    forall t
      ensures Filter(At(t), x[..n]) == Filter(At(t), y[..n])
    {
      assert Filter(At(t), x) == Filter(At(t), y);
      TieBefore(x, y, n, t);
    }
    assert Filter(At(x[n].time), x) == Filter(At(x[n].time), y);
    TieBefore(x, y, n, x[n].time);
  }

  lemma {:induction false} SortedAlike(x: seq<LogEntry>, y: seq<LogEntry>)
    requires Sorted(x, Earlier) && Sorted(y, Earlier) && Permutation(x, y) && TiesAgree(x, y)
    ensures x == y
  {
    hide TiesAgree, Permutation;
    PermutationLast(x, y);
    if x != [] {
      var n := |x| - 1;
      LastIsLatest(x, n, y[n]);
      LastIsLatest(y, n, x[n]);
      TiesAgreeBefore(x, y, n);
      PrefixSorted(x, Earlier, n);
      PrefixSorted(y, Earlier, n);
      PermutationInit(x, y, n);
      SortedAlike(x[..n], y[..n]);
      assert x == x[..n] + [x[n]] && y == y[..n] + [y[n]];
    }
  }

  lemma LastIsLatest(x: seq<LogEntry>, n: nat, e: LogEntry)
    requires |x| == n + 1 && Sorted(x, Earlier) && e in x
    ensures e.time <= x[n].time
  {
  }

  /** Exactly when the order of arrival does not matter to the sorted entries: the entries of each time
      arrived in the same order. */
  lemma SortAlikeIff(a: seq<LogEntry>, b: seq<LogEntry>)
    requires multiset(a) == multiset(b)
    ensures StableSort(a, Earlier) == StableSort(b, Earlier) <==> TiesAgree(a, b)
  {
    var x, y := StableSort(a, Earlier), StableSort(b, Earlier);
    forall t
      ensures Filter(At(t), x) == Filter(At(t), a) && Filter(At(t), y) == Filter(At(t), b)
    {
      SortIsStable(a, Earlier, At(t));
      SortIsStable(b, Earlier, At(t));
    }
    if TiesAgree(a, b) {
      SortPermutes(a, Earlier);
      SortPermutes(b, Earlier);
      SortSorts(a, Earlier);
      SortSorts(b, Earlier);
      assert TiesAgree(x, y) by {
        forall t
          ensures Filter(At(t), x) == Filter(At(t), y)
        {
          assert Filter(At(t), a) == Filter(At(t), b);
        }
      }
      SortedAlike(x, y);
    }
  }
}
