/** The payload of workflow runs for Loki: one stream per repository, each sorted by completion. */
module Loki {
  import opened Clock
  import opened Sorting
  import opened Wrappers

  /** `completed.None?` is a completion time that is absent, unreadable or zero. */
  datatype Run = Run(
    repo: string,
    completed: Option<int>,
    runID: int,
    runAttempt: int,
    runNumber: int,
    workflow: string,
    branch: string)

  datatype Value = Value(timestamp: int, run: Run)

  /** A run without a repository goes to a stream without that label. */
  datatype Stream = Stream(repo: Option<string>, values: seq<Value>)

  /** Strings compare by code point, which is how their UTF-8 bytes compare. */
  predicate LexLess(a: string, b: string) {
    if a == [] || b == [] then b != []
    else if a[0] != b[0] then a[0] < b[0]
    else LexLess(a[1..], b[1..])
  }

  predicate TieBreak(left: Run, right: Run) {
    if left.runID != right.runID then left.runID < right.runID
    else if left.runAttempt != right.runAttempt then left.runAttempt < right.runAttempt
    else if left.runNumber != right.runNumber then left.runNumber < right.runNumber
    else if left.workflow != right.workflow then LexLess(left.workflow, right.workflow)
    else LexLess(left.branch, right.branch)
  }

  predicate Before(left: Run, right: Run) {
    if left.completed.None? && right.completed.None? then TieBreak(left, right)
    else if left.completed.None? then false
    else if right.completed.None? then true
    else if left.completed == right.completed then TieBreak(left, right)
    else left.completed.value < right.completed.value
  }

  lemma PrefixFirst(a: string, b: string)
    ensures forall k :: 0 < k <= |a| && k <= |b| && a[..k] == b[..k] ==> a[0] == b[0]
  {
    forall k | 0 < k <= |a| && k <= |b| && a[..k] == b[..k]
      ensures a[0] == b[0]
    {
      assert a[..k][0] == a[0] && b[..k][0] == b[0];
    }
  }

  /** One string comes before another if it is a proper prefix, or has the smaller character where they first
      differ. */
  lemma {:induction false} LexLessIff(a: string, b: string)
    ensures LexLess(a, b) <==>
            exists k :: 0 <= k <= |a| && k < |b| && a[..k] == b[..k] && (k == |a| || a[k] < b[k])
  {
    PrefixFirst(a, b);
    if a != [] && b != [] && a[0] == b[0] {
      LexLessIff(a[1..], b[1..]);
      if k :| 0 <= k <= |a| && k < |b| && a[..k] == b[..k] && (k == |a| || a[k] < b[k]) {
        assert k > 0 && a[1..][..k - 1] == a[..k][1..] && b[1..][..k - 1] == b[..k][1..];
      }
      if k :| 0 <= k <= |a[1..]| && k < |b[1..]| && a[1..][..k] == b[1..][..k]
              && (k == |a[1..]| || a[1..][k] < b[1..][k]) {
        assert a[..k + 1] == [a[0]] + a[1..][..k] && b[..k + 1] == [b[0]] + b[1..][..k];
      }
    } else if b != [] {
      assert a[..0] == b[..0];
    }
  }

  lemma {:induction false} LexTotal(a: string, b: string)
    ensures !(LexLess(a, b) && LexLess(b, a))
    ensures a != b <==> LexLess(a, b) || LexLess(b, a)
  {
    if a != [] && b != [] && a[0] == b[0] {
      LexTotal(a[1..], b[1..]);
      assert a == [a[0]] + a[1..] && b == [b[0]] + b[1..];
    }
  }

  lemma {:induction false} LexTransitive(a: string, b: string, c: string)
    requires LexLess(a, b) && LexLess(b, c)
    ensures LexLess(a, c)
  {
    if a != [] && a[0] == b[0] == c[0] {
      LexTransitive(a[1..], b[1..], c[1..]);
    }
  }

  /** Runs that neither order tells apart. */
  ghost predicate SameTie(a: Run, b: Run) {
    && a.runID == b.runID && a.runAttempt == b.runAttempt && a.runNumber == b.runNumber
    && a.workflow == b.workflow && a.branch == b.branch
  }

  lemma TieTotal(a: Run, b: Run)
    ensures !(TieBreak(a, b) && TieBreak(b, a))
    ensures !SameTie(a, b) <==> TieBreak(a, b) || TieBreak(b, a)
  {
    LexTotal(a.workflow, b.workflow);
    LexTotal(a.branch, b.branch);
  }

  lemma TieTransitive(a: Run, b: Run, c: Run)
    requires TieBreak(a, b) && TieBreak(b, c)
    ensures TieBreak(a, c)
  {
    hide LexLess;
    if LexLess(a.workflow, b.workflow) && LexLess(b.workflow, c.workflow) {
      LexTransitive(a.workflow, b.workflow, c.workflow);
      LexTotal(a.workflow, c.workflow);
      LexTotal(a.workflow, b.workflow);
    }
    LexTotal(a.workflow, c.workflow);
    if LexLess(a.branch, b.branch) && LexLess(b.branch, c.branch) {
      LexTransitive(a.branch, b.branch, c.branch);
    }
    LexTotal(b.workflow, c.workflow);
    LexTotal(a.workflow, b.workflow);
  }

  lemma BeforeTotal(a: Run, b: Run)
    ensures !(Before(a, b) && Before(b, a))
    ensures !(a.completed == b.completed && SameTie(a, b)) <==> Before(a, b) || Before(b, a)
  {
    hide TieBreak, SameTie;
    TieTotal(a, b);
  }

  lemma BeforeTransitive(a: Run, b: Run, c: Run)
    requires Before(a, b) && Before(b, c)
    ensures Before(a, c)
  {
    hide TieBreak;
    if TieBreak(a, b) && TieBreak(b, c) {
      TieTransitive(a, b, c);
    }
  }

  /** Runs that compare as equal are interchangeable in every comparison. */
  lemma BeforeSame(a: Run, b: Run, c: Run)
    requires a.completed == b.completed && SameTie(a, b)
    ensures Before(a, c) == Before(b, c) && Before(c, a) == Before(c, b)
  {
  }

  /** The comparator is a strict weak order, as a sort needs. */
  lemma BeforeIsOrder()
    ensures StrictWeakOrder(Before)
  {
    hide Before, SameTie;
    forall a
      ensures !Before(a, a)
    {
      BeforeTotal(a, a);
    }
    forall a, b, c | Before(a, b) && Before(b, c)
      ensures Before(a, c)
    {
      BeforeTransitive(a, b, c);
    }
    forall a, b, c | !Before(a, b) && !Before(b, c)
      ensures !Before(a, c)
    {
      NotBeforeTransitive(a, b, c);
    }
  }

  lemma NotBeforeTransitive(a: Run, b: Run, c: Run)
    requires !Before(a, b) && !Before(b, c)
    ensures !Before(a, c)
  {
    hide Before, SameTie;
    BeforeTotal(a, b);
    BeforeTotal(b, c);
    BeforeTotal(a, c);
    if Before(b, a) && Before(c, b) {
      BeforeTransitive(c, b, a);
    } else if !Before(b, a) {
      BeforeSame(a, b, c);
    } else {
      BeforeSame(b, c, a);
    }
  }

  lemma LexIsOrder()
    ensures StrictWeakOrder(LexLess)
  {
    forall a: string
      ensures !LexLess(a, a)
    {
      LexTotal(a, a);
    }
    forall a, b, c | LexLess(a, b) && LexLess(b, c)
      ensures LexLess(a, c)
    {
      LexTransitive(a, b, c);
    }
    forall a, b, c | !LexLess(a, b) && !LexLess(b, c)
      ensures !LexLess(a, c)
    {
      LexNotTransitive(a, b, c);
    }
  }

  lemma LexNotTransitive(a: string, b: string, c: string)
    requires !LexLess(a, b) && !LexLess(b, c)
    ensures !LexLess(a, c)
  {
    hide LexLess;
    LexTotal(a, b);
    LexTotal(b, c);
    LexTotal(a, c);
    if LexLess(c, b) && LexLess(b, a) {
      LexTransitive(c, b, a);
    }
  }

  // ---------- the payload ----------

  function RunsOf(repo: string, runs: seq<Run>): seq<Run> {
    if runs == [] then []
    else RunsOf(repo, runs[..|runs| - 1]) + if runs[|runs| - 1].repo == repo then [runs[|runs| - 1]] else []
  }

  lemma {:induction false} RunsOfIsFilter(repo: string, runs: seq<Run>)
    ensures RunsOf(repo, runs) == Filter((run: Run) => run.repo == repo, runs)
  {
    if runs != [] {
      RunsOfIsFilter(repo, runs[..|runs| - 1]);
    }
  }

  function Label(repo: string): Option<string> {
    if repo == "" then None else Some(repo)
  }

  function RunsIn(values: seq<Value>): (r: seq<Run>)
    ensures |r| == |values| && forall i :: 0 <= i < |r| ==> r[i] == values[i].run
  {
    seq(|values|, i requires 0 <= i < |values| => values[i].run)
  }

  /** The stream of one repository: its runs in order of completion, ties in order of arrival, at
      consecutive nanoseconds. */
  ghost predicate IsStream(runs: seq<Run>, repo: string, stream: Stream) {
    && stream.repo == Label(repo)
    && RunsIn(stream.values) == StableSort(RunsOf(repo, runs), Before)
    && (forall i, j :: 0 <= i < j < |stream.values| ==>
          stream.values[j].timestamp - stream.values[i].timestamp == j - i)
  }

  ghost predicate Increasing(repos: seq<string>) {
    forall i, j :: 0 <= i < j < |repos| ==> LexLess(repos[i], repos[j])
  }

  /** `repos` names the streams: strictly increasing, and exactly the repositories of the runs. */
  ghost predicate IsPayload(runs: seq<Run>, repos: seq<string>, streams: seq<Stream>) {
    && |repos| == |streams| && Increasing(repos)
    && (forall repo :: repo in repos <==> RunsOf(repo, runs) != [])
    && (forall i :: 0 <= i < |repos| ==> IsStream(runs, repos[i], streams[i]))
  }

  method BuildValues(runs: seq<Run>, clock: Clock) returns (values: seq<Value>)
    modifies clock
    ensures RunsIn(values) == runs && clock.time >= old(clock.time)
    ensures forall i :: 0 <= i < |values| ==> values[i].timestamp == clock.time + i
    ensures forall i, j :: 0 <= i < j < |values| ==> values[j].timestamp - values[i].timestamp == j - i
  {
    var baseTime := clock.Now();
    values := [];
    for i := 0 to |runs|
      invariant |values| == i && clock.time == baseTime >= old(clock.time)
      invariant forall k :: 0 <= k < i ==> values[k] == Value(baseTime + k, runs[k])
      modifies {}
    {
      values := values + [Value(baseTime + i, runs[i])];
    }
  }

  method GroupByRepo(runs: seq<Run>) returns (repoRuns: map<string, seq<Run>>)
    ensures forall repo :: repo in repoRuns <==> RunsOf(repo, runs) != []
    ensures forall repo :: repo in repoRuns ==> repoRuns[repo] == RunsOf(repo, runs)
  {
    repoRuns := map[];
    for i := 0 to |runs|
      invariant forall repo :: repo in repoRuns <==> RunsOf(repo, runs[..i]) != []
      invariant forall repo :: repo in repoRuns ==> repoRuns[repo] == RunsOf(repo, runs[..i])
    {
      assert runs[..i + 1][..i] == runs[..i];
      var repo := runs[i].repo;
      repoRuns := repoRuns[repo := (if repo in repoRuns then repoRuns[repo] else []) + [runs[i]]];
    }
    assert runs[..|runs|] == runs;
  }

  method SortedKeys(keys: set<string>) returns (repos: seq<string>)
    ensures Increasing(repos) && forall repo :: repo in repos <==> repo in keys
  {
    var listed: seq<string>, todo := [], keys;
    while todo != {}
      invariant todo <= keys && NoDuplicates(listed)
      invariant forall repo :: repo in listed <==> repo in keys - todo
    {
      var repo :| repo in todo;
      assert repo !in listed;
      listed, todo := listed + [repo], todo - {repo};
    }
    repos := StableSort(listed, LexLess);
    SortedKeysIncrease(listed);
  }

  lemma SortedKeysIncrease(keys: seq<string>)
    requires NoDuplicates(keys)
    ensures Increasing(StableSort(keys, LexLess))
    ensures forall key :: key in StableSort(keys, LexLess) <==> key in keys
  {
    var sorted := StableSort(keys, LexLess);
    SortPermutes(keys, LexLess);
    LexIsOrder();
    SortSorts(keys, LexLess);
    NoDuplicatesInAnyOrder(keys, sorted);
    forall i, j | 0 <= i < j < |sorted|
      ensures LexLess(sorted[i], sorted[j])
    {
      LexTotal(sorted[i], sorted[j]);
    }
    forall key
      ensures key in sorted <==> key in keys
    {
      assert key in multiset(sorted) <==> key in multiset(keys);
    }
  }

  method BuildStream(ghost runs: seq<Run>, repo: string, ofRepo: seq<Run>, clock: Clock) returns (stream: Stream)
    requires ofRepo == RunsOf(repo, runs)
    modifies clock
    ensures IsStream(runs, repo, stream)
  {
    var sorted := StableSort(ofRepo, Before);
    var values := BuildValues(sorted, clock);
    stream := Stream(Label(repo), values);
  }

  /** What is handed to the push request; no request is made for no runs. */
  method WorkflowPayload(runs: seq<Run>, clock: Clock) returns (streams: seq<Stream>, ghost repos: seq<string>)
    modifies clock
    ensures IsPayload(runs, repos, streams)
    ensures streams == [] <==> runs == []
  {
    hide IsStream, Increasing, RunsOf;
    var repoRuns := GroupByRepo(runs);
    var names := SortedKeys(repoRuns.Keys);
    streams := [];
    for i := 0 to |names|
      invariant |streams| == i
      invariant forall k :: 0 <= k < i ==> IsStream(runs, names[k], streams[k])
    {
      assert names[i] in names;
      var stream := BuildStream(runs, names[i], repoRuns[names[i]], clock);
      streams := streams + [stream];
    }
    repos := names;
    SomeRepo(runs, repos);
  }

  lemma SomeRepo(runs: seq<Run>, repos: seq<string>)
    requires forall repo :: repo in repos <==> RunsOf(repo, runs) != []
    ensures repos == [] <==> runs == []
  {
    if runs != [] {
      assert RunsOf(runs[|runs| - 1].repo, runs) != [];
      assert runs[|runs| - 1].repo in repos;
    }
    if repos != [] {
      assert repos[0] in repos;
    }
  }

  // ---------- conservation and order ----------

  ghost function Flat(streams: seq<Stream>): seq<Run> {
    if streams == [] then []
    else Flat(streams[..|streams| - 1]) + RunsIn(streams[|streams| - 1].values)
  }

  lemma {:induction false} CountOfRepo(repo: string, runs: seq<Run>, run: Run)
    ensures multiset(RunsOf(repo, runs))[run] == if run.repo == repo then multiset(runs)[run] else 0
  {
    if runs != [] {
      CountOfRepo(repo, runs[..|runs| - 1], run);
      assert runs == runs[..|runs| - 1] + [runs[|runs| - 1]];
    }
  }

  lemma CountStream(runs: seq<Run>, repo: string, stream: Stream, run: Run)
    requires IsStream(runs, repo, stream)
    ensures multiset(RunsIn(stream.values))[run] == if run.repo == repo then multiset(runs)[run] else 0
  {
    SortPermutes(RunsOf(repo, runs), Before);
    CountOfRepo(repo, runs, run);
  }

  lemma FlatStep(streams: seq<Stream>, n: nat, run: Run)
    requires n < |streams|
    ensures multiset(Flat(streams[..n + 1]))[run] ==
              multiset(Flat(streams[..n]))[run] + multiset(RunsIn(streams[n].values))[run]
  {
    assert streams[..n + 1][..n] == streams[..n];
  }

  lemma NamesStep(repos: seq<string>, n: nat, repo: string)
    requires Increasing(repos) && n < |repos|
    ensures repo in repos[..n + 1] <==> repo in repos[..n] || repo == repos[n]
    ensures repos[n] !in repos[..n]
  {
    assert repos[..n + 1] == repos[..n] + [repos[n]];
    LexTotal(repos[n], repos[n]);
  }

  lemma {:induction false} CountFlat(runs: seq<Run>, repos: seq<string>, streams: seq<Stream>, n: nat, run: Run)
    requires |repos| == |streams| && Increasing(repos) && n <= |streams|
    requires forall i :: 0 <= i < |repos| ==> IsStream(runs, repos[i], streams[i])
    ensures multiset(Flat(streams[..n]))[run] == if run.repo in repos[..n] then multiset(runs)[run] else 0
  {
    hide IsStream, RunsIn, Increasing;
    if n > 0 {
      hide Flat;
      CountFlat(runs, repos, streams, n - 1, run);
      FlatStep(streams, n - 1, run);
      CountStream(runs, repos[n - 1], streams[n - 1], run);
      NamesStep(repos, n - 1, run.repo);
    }
  }

  /** Every run is in the payload exactly as often as it was given. */
  lemma Conserved(runs: seq<Run>, repos: seq<string>, streams: seq<Stream>)
    requires IsPayload(runs, repos, streams)
    ensures multiset(Flat(streams)) == multiset(runs)
  {
    assert streams[..|streams|] == streams && repos[..|repos|] == repos;
    forall run: Run
      ensures multiset(Flat(streams))[run] == multiset(runs)[run]
    {
      CountFlat(runs, repos, streams, |streams|, run);
      CountOfRepo(run.repo, runs, run);
      if run.repo !in repos {
        assert multiset(RunsOf(run.repo, runs))[run] == 0;
      }
    }
  }

  /** A stream holds the runs of its repository, which is its label if it has a name. */
  lemma StreamsAreLabelled(runs: seq<Run>, repos: seq<string>, streams: seq<Stream>, s: nat, i: nat)
    requires IsPayload(runs, repos, streams)
    requires s < |streams| && i < |streams[s].values|
    ensures var repo := streams[s].values[i].run.repo;
            repo == repos[s] && (if repo == "" then streams[s].repo.None? else streams[s].repo == Some(repo))
  {
    assert IsStream(runs, repos[s], streams[s]);
    var run := streams[s].values[i].run;
    CountStream(runs, repos[s], streams[s], run);
    assert RunsIn(streams[s].values)[i] == run;
    assert run in multiset(RunsIn(streams[s].values));
  }

  /** Within a stream, runs go from the earliest to the latest completion, those without a completion time
      come last, ties go by run ID, attempt, number, workflow and branch, and timestamps are consecutive. */
  lemma StreamsAreSorted(runs: seq<Run>, repos: seq<string>, streams: seq<Stream>, s: nat, i: nat, j: nat)
    requires IsPayload(runs, repos, streams)
    requires s < |streams| && i < j < |streams[s].values|
    ensures var values := streams[s].values;
            && !Before(values[j].run, values[i].run)
            && (values[i].run.completed.None? ==> values[j].run.completed.None?)
            && values[j].timestamp == values[i].timestamp + (j - i)
    ensures var a, b := streams[s].values[i].run, streams[s].values[j].run;
            if a.completed != b.completed then
              a.completed.Some? && (b.completed.Some? ==> a.completed.value < b.completed.value)
            else if a.runID != b.runID then a.runID < b.runID
            else if a.runAttempt != b.runAttempt then a.runAttempt < b.runAttempt
            else if a.runNumber != b.runNumber then a.runNumber < b.runNumber
            else if a.workflow != b.workflow then LexLess(a.workflow, b.workflow)
            else a.branch == b.branch || LexLess(a.branch, b.branch)
  {
    assert IsStream(runs, repos[s], streams[s]);
    BeforeIsOrder();
    SortSorts(RunsOf(repos[s], runs), Before);
    var sorted := RunsIn(streams[s].values);
    assert !Before(sorted[j], sorted[i]);
    LexTotal(sorted[i].workflow, sorted[j].workflow);
    LexTotal(sorted[i].branch, sorted[j].branch);
  }
}
