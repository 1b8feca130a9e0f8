/** The configuration check on runner classes, as far as container names depend on it. */
module Config {
  import opened Wrappers
  import opened Names

  datatype RunnerClass = RunnerClass(id: string, prefix: string, baseline: bool, baselineName: string)

  datatype Error =
    | DuplicateId(id: string)
    | DuplicatePrefix(prefix: string)
    | BaselineNameRequired(id: string)
    | SeveralBaselines
    | BaselineNameManaged(id: string)

  /** Class IDs and prefixes are unique, at most one class has a baseline, and a baseline's name is set
      and starts with no class's prefix. */
  ghost predicate Accepted(classes: seq<RunnerClass>) {
    && Unique(classes)
    && (forall c, d :: c in classes && d in classes && c.baseline ==> !HasPrefix(c.baselineName, d.prefix))
  }

  /** What an error says is so. */
  ghost predicate True(error: Error, classes: seq<RunnerClass>) {
    match error
    case DuplicateId(id) => exists i, j :: 0 <= i < j < |classes| && classes[i].id == classes[j].id == id
    case DuplicatePrefix(prefix) =>
      exists i, j :: 0 <= i < j < |classes| && classes[i].prefix == classes[j].prefix == prefix
    case BaselineNameRequired(id) => exists c :: c in classes && c.id == id && c.baseline && c.baselineName == ""
    case SeveralBaselines => exists i, j :: 0 <= i < j < |classes| && classes[i].baseline && classes[j].baseline
    case BaselineNameManaged(id) =>
      exists c, d :: c in classes && d in classes && c.id == id && c.baseline && HasPrefix(c.baselineName, d.prefix)
  }

  method Validate(classes: seq<RunnerClass>) returns (error: Option<Error>)
    ensures error.None? <==> Accepted(classes)
    ensures error.Some? ==> True(error.value, classes)
  {
    var prefixes;
    error, prefixes := CheckUnique(classes);
    if error.Some? {
      return;
    }
    for i := 0 to |classes|
      invariant forall c, d :: c in classes[..i] && d in classes && c.baseline ==> !HasPrefix(c.baselineName, d.prefix)
    {
      if classes[i].baseline {
        var clash := StartsWithAny(classes[i].baselineName, prefixes);
        if clash {
          assert classes[i] in classes;
          return Some(BaselineNameManaged(classes[i].id));
        }
      }
    }
    assert classes[..|classes|] == classes;
    error := None;
  }

  method StartsWithAny(name: string, prefixes: set<string>) returns (found: bool)
    ensures found <==> exists p :: p in prefixes && HasPrefix(name, p)
  {
    var todo := prefixes;
    while todo != {}
      invariant todo <= prefixes
      invariant forall p :: p in prefixes && p !in todo ==> !HasPrefix(name, p)
      decreases todo
    {
      var p :| p in todo;
      if HasPrefix(name, p) {
        return true;
      }
      todo := todo - {p};
    }
    found := false;
  }

  /** How many classes enable the baseline. */
  ghost function Baselines(classes: seq<RunnerClass>): nat {
    if classes == [] then 0
    else Baselines(classes[..|classes| - 1]) + if classes[|classes| - 1].baseline then 1 else 0
  }

  ghost function Ids(classes: seq<RunnerClass>): set<string> {
    set c | c in classes :: c.id
  }

  ghost function Prefixes(classes: seq<RunnerClass>): set<string> {
    set c | c in classes :: c.prefix
  }

  ghost predicate DistinctFrom(c: RunnerClass, others: seq<RunnerClass>) {
    c.id !in Ids(others) && c.prefix !in Prefixes(others)
  }

  lemma NoClasses()
    ensures Ids([]) == Prefixes([]) == {} && Baselines([]) == 0
  {
  }

  lemma OneMore(classes: seq<RunnerClass>, i: nat)
    requires i < |classes|
    ensures Ids(classes[..i + 1]) == Ids(classes[..i]) + {classes[i].id}
    ensures Prefixes(classes[..i + 1]) == Prefixes(classes[..i]) + {classes[i].prefix}
    ensures Baselines(classes[..i + 1]) == Baselines(classes[..i]) + if classes[i].baseline then 1 else 0
  {
    assert classes[..i + 1] == classes[..i] + [classes[i]];
  }

  ghost predicate Unique(classes: seq<RunnerClass>) {
    && (forall i :: 0 <= i < |classes| ==> DistinctFrom(classes[i], classes[..i]))
    && (forall i :: 0 <= i < |classes| && classes[i].baseline ==> classes[i].baselineName != "")
    && Baselines(classes) <= 1
  }

  lemma {:induction false} Among(classes: seq<RunnerClass>, i: nat)
    requires i <= |classes|
    ensures forall id :: id in Ids(classes[..i]) ==> exists k :: 0 <= k < i && classes[k].id == id
    ensures forall p :: p in Prefixes(classes[..i]) ==> exists k :: 0 <= k < i && classes[k].prefix == p
    ensures Baselines(classes[..i]) > 0 ==> exists k :: 0 <= k < i && classes[k].baseline
    ensures Baselines(classes[..i]) > 1 ==>
              exists k, l :: 0 <= k < l < i && classes[k].baseline && classes[l].baseline
  {
    hide Ids, Prefixes, Baselines;
    NoClasses();
    if i == 0 {
      assert classes[..0] == [];
    } else {
      Among(classes, i - 1);
      OneMore(classes, i - 1);
    }
  }

  method CheckUnique(classes: seq<RunnerClass>) returns (error: Option<Error>, prefixes: set<string>)
    ensures error.None? <==> Unique(classes)
    ensures error.Some? ==> True(error.value, classes)
    ensures error.None? ==> prefixes == Prefixes(classes)
  {
    hide Ids, Prefixes, Baselines;
    NoClasses();
    assert classes[..0] == [];
    var ids, baselines := {}, 0;
    prefixes := {};
    for i := 0 to |classes|
      invariant ids == Ids(classes[..i]) && prefixes == Prefixes(classes[..i])
      invariant forall k :: 0 <= k < i ==> DistinctFrom(classes[k], classes[..k])
      invariant forall k :: 0 <= k < i && classes[k].baseline ==> classes[k].baselineName != ""
      invariant baselines == Baselines(classes[..i])
    {
      var c := classes[i];
      Among(classes, i);
      if c.id in ids {
        return Some(DuplicateId(c.id)), prefixes;
      }
      if c.prefix in prefixes {
        return Some(DuplicatePrefix(c.prefix)), prefixes;
      }
      OneMore(classes, i);
      ids, prefixes := ids + {c.id}, prefixes + {c.prefix};
      if c.baseline {
        baselines := baselines + 1;
        if c.baselineName == "" {
          return Some(BaselineNameRequired(c.id)), prefixes;
        }
      }
    }
    Among(classes, |classes|);
    assert classes[..|classes|] == classes;
    error := if baselines > 1 then Some(SeveralBaselines) else None;
  }

  /** Baseline isolation: no container of any accepted class counts an accepted baseline among its own,
      neither by listing its prefix nor by picking a name. */
  lemma BaselineIsolated(classes: seq<RunnerClass>, c: RunnerClass, d: RunnerClass, index: nat)
    requires Accepted(classes) && c in classes && d in classes && c.baseline
    ensures !HasPrefix(c.baselineName, d.prefix)
    ensures NameAt(d.prefix, index) != c.baselineName
  {
    NameAtHasPrefix(d.prefix, index);
  }
}
