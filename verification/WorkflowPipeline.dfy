/** The collection of workflow metrics: list, filter, enrich, push, mark. */
module WorkflowPipeline {
  import opened SeenCache
  import opened Sorting
  import opened Wrappers

  datatype WorkflowRun = WorkflowRun(
    repo: string,
    workflow: string,
    branch: string,
    event: string,
    conclusion: string,
    runID: int,
    runAttempt: int,
    runNumber: int,
    durationS: int,
    failure: Failure)

  datatype Failure = Failure(job: string, step: string, reason: string)

  /** The delivery key, before it is printed as a string. */
  datatype Key =
    | ById(runID: int, runAttempt: int)
    | ByFields(repo: string, workflow: string, runNumber: int, branch: string, event: string, conclusion: string,
               durationS: int)

  function WorkflowMetricKey(run: WorkflowRun): Key {
    if run.runID != 0 then ById(run.runID, run.runAttempt)
    else ByFields(run.repo, run.workflow, run.runNumber, run.branch, run.event, run.conclusion, run.durationS)
  }

  /** Two runs are one delivery exactly when they are the same attempt of the same run or, both without a run
      ID, agree in every field of the key. */
  lemma KeysEqualIff(a: WorkflowRun, b: WorkflowRun)
    ensures WorkflowMetricKey(a) == WorkflowMetricKey(b) <==>
            && a.runID == b.runID
            && if a.runID != 0 then a.runAttempt == b.runAttempt
               else
                 && a.repo == b.repo && a.workflow == b.workflow && a.runNumber == b.runNumber && a.branch == b.branch
                 && a.event == b.event && a.conclusion == b.conclusion && a.durationS == b.durationS
  {
  }

  predicate ShouldEnrich(conclusion: string) {
    conclusion !in {"", "success", "neutral", "skipped"}
  }

  /** The runs differ in failure details only, and only those of failed runs. */
  ghost predicate OnlyFailuresDiffer(runs: seq<WorkflowRun>, enriched: seq<WorkflowRun>) {
    && |runs| == |enriched|
    && forall i :: 0 <= i < |runs| ==>
         enriched[i] == if ShouldEnrich(runs[i].conclusion) then runs[i].(failure := enriched[i].failure) else runs[i]
  }

  /** Whatever the API answers, only failure details are filled in. It is asked about every run that did not
      end well. */
  method EnrichWorkflowMetrics(runs: seq<WorkflowRun>) returns (enriched: seq<WorkflowRun>, ghost asked: seq<nat>)
    ensures forall i: nat :: i in asked <==> i < |runs| && runs[i].conclusion !in {"", "success", "neutral", "skipped"}
    ensures OnlyFailuresDiffer(runs, enriched)
    ensures forall i :: 0 <= i < |runs| && runs[i].conclusion in {"", "success", "neutral", "skipped"} ==>
              enriched[i] == runs[i]
  {
    enriched, asked := runs, [];
    for i := 0 to |runs|
      invariant |enriched| == |runs| && OnlyFailuresDiffer(runs[..i], enriched[..i])
      invariant enriched[i..] == runs[i..]
      invariant forall k: nat :: k in asked <==> k < i && ShouldEnrich(runs[k].conclusion)
    {
      assert enriched[i] == enriched[i..][0] == runs[i];
      if !ShouldEnrich(runs[i].conclusion) {
        continue;
      }
      asked := asked + [i];
      var details: Failure := *;
      enriched := enriched[i := enriched[i].(failure := details)];
    }
    assert runs[..|runs|] == runs && enriched[..|runs|] == enriched;
  }

  lemma EnrichmentKeepsKeys(runs: seq<WorkflowRun>, enriched: seq<WorkflowRun>)
    requires OnlyFailuresDiffer(runs, enriched)
    ensures KeysOf(enriched, WorkflowMetricKey) == KeysOf(runs, WorkflowMetricKey)
  {
  }

  /** What the collection hands on: the undelivered runs, or, when listing failed half way, everything it
      did list. */
  function Selected(listed: seq<WorkflowRun>, listFails: bool, delivered: set<Key>): seq<WorkflowRun> {
    if listFails then listed else Fresh(listed, WorkflowMetricKey, delivered)
  }

  /** One collection. `listFails` is an error from the provider, which may come with runs; the GitHub
      provider then lists none. `pushed` is what was handed to the metrics backend, if anything. */
  method CollectWorkflowMetrics(delivered: SeenCache<WorkflowRun, Key>, listed: seq<WorkflowRun>, listFails: bool,
                                needsEnrichment: bool, pushSucceeds: bool, persists: bool)
    returns (pushed: Option<seq<WorkflowRun>>)
    modifies delivered
    ensures old(delivered.Valid()) ==> delivered.Valid()
    ensures pushed.None? <==> Selected(listed, listFails, old(delivered.keys)) == []
    ensures pushed.Some? ==>
              KeysOf(pushed.value, WorkflowMetricKey) ==
                KeysOf(Selected(listed, listFails, old(delivered.keys)), WorkflowMetricKey)
    ensures pushed.Some? ==>
              var selected := Selected(listed, listFails, old(delivered.keys));
              if needsEnrichment then OnlyFailuresDiffer(selected, pushed.value) else pushed.value == selected
    ensures listFails && listed != [] ==>
              pushed.Some? && KeysOf(pushed.value, WorkflowMetricKey) == KeysOf(listed, WorkflowMetricKey)
    ensures !listFails ==> forall run :: run in listed ==>
              || WorkflowMetricKey(run) in old(delivered.keys)
              || (pushed.Some? && WorkflowMetricKey(run) in KeysOf(pushed.value, WorkflowMetricKey))
    ensures pushed.Some? && !listFails ==>
              && NoDuplicates(KeysOf(pushed.value, WorkflowMetricKey))
              && forall k :: k in KeysOf(pushed.value, WorkflowMetricKey) ==> k !in old(delivered.keys)
    ensures pushed.None? && !listFails ==>
              forall run :: run in listed ==> WorkflowMetricKey(run) in old(delivered.keys)
    ensures pushed.Some? && pushSucceeds ==>
              delivered.appended == old(delivered.appended) +
                KeysOf(Fresh(listed, WorkflowMetricKey, old(delivered.keys)), WorkflowMetricKey)
    ensures pushed.None? || !pushSucceeds ==> unchanged(delivered)
  {
    var runs := listed;
    if !listFails && |runs| > 0 {
      runs := delivered.FilterNew(listed, WorkflowMetricKey);
    }
    FreshKeys(listed, WorkflowMetricKey, delivered.keys);
    NothingFresh(listed, delivered.keys);
    ghost var selected := runs;
    if |runs| > 0 && needsEnrichment {
      var enriched, _ := EnrichWorkflowMetrics(runs);
      EnrichmentKeepsKeys(runs, enriched);
      if |enriched| > 0 {
        runs := enriched;
      }
    }
    if |runs| == 0 {
      return None;
    }
    pushed := Some(runs);
    if pushSucceeds {
      SameKeysFresh(selected, runs, delivered.keys);
      if !listFails {
        FreshOfFresh(selected, WorkflowMetricKey, delivered.keys);
      }
      delivered.MarkDelivered(runs, WorkflowMetricKey, persists);
    }
  }

  /** The filter goes by keys alone. */
  lemma {:induction false} SameKeysFresh(a: seq<WorkflowRun>, b: seq<WorkflowRun>, delivered: set<Key>)
    requires KeysOf(a, WorkflowMetricKey) == KeysOf(b, WorkflowMetricKey)
    ensures KeysOf(Fresh(a, WorkflowMetricKey, delivered), WorkflowMetricKey) ==
            KeysOf(Fresh(b, WorkflowMetricKey, delivered), WorkflowMetricKey)
  {
    if a != [] {
      var n := |a| - 1;
      var x, y := a[..n], b[..n];
      assert |KeysOf(a, WorkflowMetricKey)| == |KeysOf(b, WorkflowMetricKey)|;
      assert KeysOf(x, WorkflowMetricKey) == KeysOf(a, WorkflowMetricKey)[..n];
      assert KeysOf(y, WorkflowMetricKey) == KeysOf(b, WorkflowMetricKey)[..n];
      assert KeysOf(a, WorkflowMetricKey)[n] == KeysOf(b, WorkflowMetricKey)[n];
      SameKeysFresh(x, y, delivered);
      OneMoreKey(Fresh(x, WorkflowMetricKey, delivered), WorkflowMetricKey, a[n]);
      OneMoreKey(Fresh(y, WorkflowMetricKey, delivered), WorkflowMetricKey, b[n]);
    }
  }

  lemma NothingFresh(runs: seq<WorkflowRun>, delivered: set<Key>)
    ensures Fresh(runs, WorkflowMetricKey, delivered) == [] ==>
              forall run :: run in runs ==> WorkflowMetricKey(run) in delivered
  {
    FreshKeys(runs, WorkflowMetricKey, delivered);
    forall run | run in runs && Fresh(runs, WorkflowMetricKey, delivered) == []
      ensures WorkflowMetricKey(run) in delivered
    {
      var i :| 0 <= i < |runs| && runs[i] == run;
      assert KeysOf(runs, WorkflowMetricKey)[i] == WorkflowMetricKey(run);
    }
  }
}
