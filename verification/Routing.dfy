/** Which runner groups a webhook job is queued for, and which jobs an audit keeps for a group. */
module Routing {
  import opened Wrappers

  datatype RunnerGroup = RunnerGroup(id: string, target: string, repoScoped: bool, matchLabels: seq<string>)

  predicate IsSpace(c: char) {
    c == ' ' || '\t' <= c <= '\r'
  }

  function TrimLeft(s: string): string {
    if s != "" && IsSpace(s[0]) then TrimLeft(s[1..]) else s
  }

  function TrimRight(s: string): string {
    if s != "" && IsSpace(s[|s| - 1]) then TrimRight(s[..|s| - 1]) else s
  }

  function Trim(s: string): string {
    TrimRight(TrimLeft(s))
  }

  /** Lower case, for the ASCII letters. */
  function Lower(s: string): string {
    seq(|s|, i requires 0 <= i < |s| => if 'A' <= s[i] <= 'Z' then s[i] + ' ' else s[i])
  }

  function Normal(s: string): string {
    Lower(Trim(s))
  }

  /** The part before the first slash, if there is a slash. */
  function OwnerOf(repo: string): (bool, string) {
    if repo == "" then (false, "")
    else if repo[0] == '/' then (true, "")
    else
      var rest := OwnerOf(repo[1..]);
      (rest.0, [repo[0]] + rest.1)
  }

  lemma {:induction false} OwnerIff(repo: string, owner: string)
    ensures OwnerOf(repo) == (true, owner) <==> '/' !in owner && owner + "/" <= repo
  {
    if repo == "" {
    } else if repo[0] == '/' {
      assert owner != "" && owner + "/" <= repo ==> owner[0] == (owner + "/")[0] == repo[0];
    } else {
      assert owner == "" ==> (owner + "/")[0] != repo[0];
      if owner != "" {
        OwnerIff(repo[1..], owner[1..]);
        assert owner == [owner[0]] + owner[1..] && owner + "/" == [owner[0]] + (owner[1..] + "/");
        assert repo == [repo[0]] + repo[1..];
        assert owner[0] == repo[0] && owner[1..] + "/" <= repo[1..] <==> owner + "/" <= repo;
      }
    }
  }

  lemma OwnersOf(repo: string)
    ensures forall g: RunnerGroup :: OwnerOf(Normal(repo)) == (true, Normal(g.target)) <==>
              '/' !in Normal(g.target) && Normal(g.target) + "/" <= Normal(repo)
  {
    hide OwnerOf, Normal;
    forall g: RunnerGroup
      ensures OwnerOf(Normal(repo)) == (true, Normal(g.target)) <==>
              '/' !in Normal(g.target) && Normal(g.target) + "/" <= Normal(repo)
    {
      OwnerIff(Normal(repo), Normal(g.target));
    }
  }

  predicate MatchesRepo(group: RunnerGroup, repo: string) {
    var target, name := Normal(group.target), Normal(repo);
    target == "" || name == ""
    || (if group.repoScoped then name == target else OwnerOf(name) == (true, target))
  }

  /** Every non-blank group label is among the job's labels. */
  ghost predicate LabelsMatch(jobLabels: seq<string>, groupLabels: seq<string>) {
    forall l :: l in groupLabels && Normal(l) != "" ==> exists j :: j in jobLabels && Normal(j) == Normal(l)
  }

  /** What an audit of `group` keeps of GitHub's queued jobs. */
  ghost predicate AuditKeeps(group: RunnerGroup, repo: string, labels: seq<string>) {
    MatchesRepo(group, repo) && LabelsMatch(labels, group.matchLabels)
  }

  /** The groups a webhook job is queued for: those that match, or all of the repository's groups when
      the job has no labels or nothing matches. */
  ghost predicate Routed(groups: seq<RunnerGroup>, group: RunnerGroup, repo: string, labels: seq<string>) {
    && group in groups
    && MatchesRepo(group, repo)
    && (labels == [] || LabelsMatch(labels, group.matchLabels)
        || forall g :: g in groups && MatchesRepo(g, repo) ==> !LabelsMatch(labels, g.matchLabels))
  }

  method MatchLabels(jobLabels: seq<string>, groupLabels: seq<string>) returns (matched: bool)
    ensures matched <==> LabelsMatch(jobLabels, groupLabels)
  {
    if |groupLabels| == 0 {
      return true;
    }
    var seen: set<string> := {};
    for i := 0 to |jobLabels|
      invariant forall l :: l in seen <==> exists j :: j in jobLabels[..i] && Normal(j) == l
    {
      assert jobLabels[..i + 1] == jobLabels[..i] + [jobLabels[i]];
      seen := seen + {Normal(jobLabels[i])};
    }
    assert jobLabels[..|jobLabels|] == jobLabels;
    for i := 0 to |groupLabels|
      invariant forall l :: l in groupLabels[..i] && Normal(l) != "" ==> Normal(l) in seen
    {
      var wanted := Normal(groupLabels[i]);
      if wanted == "" {
        continue;
      }
      if wanted !in seen {
        assert groupLabels[i] in groupLabels;
        return false;
      }
    }
    matched := true;
  }

  method GroupsForRepo(groups: seq<RunnerGroup>, repo: string) returns (candidates: seq<RunnerGroup>)
    ensures forall g :: g in candidates <==> g in groups && MatchesRepo(g, repo)
    ensures Normal(repo) == "" ==> candidates == groups
    ensures forall g :: g in groups && Normal(g.target) == "" ==> g in candidates
    ensures Normal(repo) != "" ==> forall g :: g in groups && Normal(g.target) != "" && g.repoScoped ==>
              (g in candidates <==> Normal(repo) == Normal(g.target))
    ensures Normal(repo) != "" ==> forall g :: g in groups && Normal(g.target) != "" && !g.repoScoped ==>
              (g in candidates <==> '/' !in Normal(g.target) && Normal(g.target) + "/" <= Normal(repo))
  {
    OwnersOf(repo);
    hide OwnerOf;
    if Trim(repo) == "" {
      return groups;
    }
    candidates := [];
    for i := 0 to |groups|
      invariant forall g :: g in candidates <==> g in groups[..i] && MatchesRepo(g, repo)
    {
      if MatchesRepo(groups[i], repo) {
        candidates := candidates + [groups[i]];
      }
    }
  }

  datatype JobEvent = JobEvent(repo: string, labels: seq<string>)

  /** A webhook job never vanishes while some group serves its repository; no event at all selects every
      group. */
  method GroupsForEvent(groups: seq<RunnerGroup>, event: Option<JobEvent>) returns (routed: seq<RunnerGroup>)
    ensures event.None? ==> routed == groups
    ensures event.Some? ==> forall g :: g in routed <==> Routed(groups, g, event.value.repo, event.value.labels)
    ensures event.Some? ==> (routed == [] <==> forall g :: g in groups ==> !MatchesRepo(g, event.value.repo))
  {
    if event.None? {
      return groups;
    }
    var repo, labels := event.value.repo, event.value.labels;
    var candidates := GroupsForRepo(groups, repo);
    if |candidates| == 0 {
      return [];
    }
    assert candidates[0] in candidates;
    if |labels| == 0 {
      return candidates;
    }
    routed := [];
    for i := 0 to |candidates|
      invariant forall g :: g in routed <==> g in candidates[..i] && LabelsMatch(labels, g.matchLabels)
    {
      var matched := MatchLabels(labels, candidates[i].matchLabels);
      if matched {
        routed := routed + [candidates[i]];
      }
    }
    assert candidates[..|candidates|] == candidates;
    if |routed| == 0 {
      return candidates;
    }
    assert routed[0] in routed;
  }

  /** The webhook path and the audit agree on a job for every group exactly when no group serves its
      repository, or, for a job with labels, some serving group matches them, or, for a job without,
      every serving group asks for none. Otherwise the webhook queues the job for groups whose next
      audit drops it. */
  lemma RoutingAgreesIff(groups: seq<RunnerGroup>, repo: string, labels: seq<string>)
    ensures (forall g :: g in groups ==> (Routed(groups, g, repo, labels) <==> AuditKeeps(g, repo, labels)))
       <==> ((forall g :: g in groups ==> !MatchesRepo(g, repo))
             || (labels != [] && exists g :: g in groups && MatchesRepo(g, repo) && LabelsMatch(labels, g.matchLabels))
             || (labels == [] && forall g :: g in groups && MatchesRepo(g, repo) ==> LabelsMatch([], g.matchLabels)))
  {
    hide MatchesRepo, LabelsMatch;
    if g :| g in groups && MatchesRepo(g, repo) {
      assert Routed(groups, g, repo, labels) || !AuditKeeps(g, repo, labels);
    }
  }

  /** A job that no group matches is queued for all groups of its repository, and each of their audits
      drops it. */
  lemma FallbackIsDropped(groups: seq<RunnerGroup>, g: RunnerGroup, repo: string, labels: seq<string>)
    requires g in groups && MatchesRepo(g, repo)
    requires forall other :: other in groups && MatchesRepo(other, repo) ==> !LabelsMatch(labels, other.matchLabels)
    ensures Routed(groups, g, repo, labels) && !AuditKeeps(g, repo, labels)
  {
    hide LabelsMatch;
  }

  lemma {:induction false} TrimLeftIs(s: string) returns (i: nat)
    ensures i <= |s| && TrimLeft(s) == s[i..] && (i < |s| ==> !(s[i] == ' ' || '\t' <= s[i] <= '\r'))
    ensures forall k :: 0 <= k < i ==> s[k] == ' ' || '\t' <= s[k] <= '\r'
  {
    i := 0;
    if s != "" && IsSpace(s[0]) {
      i := TrimLeftIs(s[1..]);
      i := i + 1;
    }
  }

  lemma {:induction false} TrimRightIs(s: string) returns (j: nat)
    ensures j <= |s| && TrimRight(s) == s[..j] && (j > 0 ==> !(s[j - 1] == ' ' || '\t' <= s[j - 1] <= '\r'))
    ensures forall k :: j <= k < |s| ==> s[k] == ' ' || '\t' <= s[k] <= '\r'
  {
    j := |s|;
    if s != "" && IsSpace(s[|s| - 1]) {
      j := TrimRightIs(s[..|s| - 1]);
    }
  }

  /** Normalizing cuts the space off both ends, and nothing else, and lowers the letters A to Z. */
  lemma NormalIs(s: string) returns (i: nat, j: nat)
    ensures i <= j <= |s| && |Normal(s)| == j - i
    ensures forall k :: 0 <= k < |s| && !(i <= k < j) ==> s[k] == ' ' || '\t' <= s[k] <= '\r'
    ensures i < j ==> forall k :: k == i || k == j - 1 ==> !(s[k] == ' ' || '\t' <= s[k] <= '\r')
    ensures forall k :: i <= k < j ==>
              Normal(s)[k - i] == if 'A' <= s[k] <= 'Z' then (s[k] as int + 32) as char else s[k]
  {
    i := TrimLeftIs(s);
    j := TrimRightIs(s[i..]);
    j := j + i;
    assert Trim(s) == s[i..][..j - i] == s[i..j];
    assert forall k :: i <= k < |s| ==> s[k] == s[i..][k - i];
  }

  lemma NormalOf(s: string)
    requires s != "" && forall c :: c in s ==> !IsSpace(c) && !('A' <= c <= 'Z')
    ensures Normal(s) == s
  {
    assert s[0] in s && s[|s| - 1] in s;
    assert Trim(s) == s;
    forall i | 0 <= i < |s|
      ensures Lower(s)[i] == s[i]
    {
      assert s[i] in s;
    }
  }

  /** One group that asks for "gpu", and a job that asks for "cpu". */
  lemma FallbackIsDroppedOnce()
    ensures var g, labels := RunnerGroup("g", "", false, ["gpu"]), ["cpu"];
            Routed([g], g, "o/r", labels) && !AuditKeeps(g, "o/r", labels)
  {
    var g, labels := RunnerGroup("g", "", false, ["gpu"]), ["cpu"];
    NormalOf("gpu");
    NormalOf("cpu");
    assert Normal("") == "" && MatchesRepo(g, "o/r");
    assert "gpu"[0] != "cpu"[0] && "gpu" in g.matchLabels;
    assert !LabelsMatch(labels, g.matchLabels);
    FallbackIsDropped([g], g, "o/r", labels);
  }
}
