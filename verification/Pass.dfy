/** What a reconcile pass sees, decides and reports.

    A `Sight` is what one turn of the scale-down loop knew of one container. Whether the container is
    torn down and whether it counts as coming up are functions of its sight; `SightsTrue` ties the
    sights of a pass to the listing, the live reads, the runners and the recorded times. */
module Pass {
  import opened Wrappers
  import opened Clock
  import opened Names
  import opened Providers

  const AVAILABILITY_GRACE: int := 120 * SECOND

  datatype Config = Config(
    prefix: string,
    baseline: bool,
    baselineName: string,
    maxAutoRunners: int,
    idleTimeout: int,
    labels: set<string>)
  {
    function Grace(): int {
      if 0 < idleTimeout < AVAILABILITY_GRACE then idleTimeout else AVAILABILITY_GRACE
    }
  }

  predicate HasLabels(runner: Runner, required: set<string>) {
    required <= runner.labels
  }

  function CountAvailable(runners: seq<Runner>, required: set<string>): nat {
    if runners == [] then 0
    else
      var last := runners[|runners| - 1];
      CountAvailable(runners[..|runners| - 1], required)
      + if last.online && !last.busy && HasLabels(last, required) then 1 else 0
  }

  /** The online and idle runners with all the labels, by their positions. */
  lemma {:induction false} AvailableAre(runners: seq<Runner>, required: set<string>)
    ensures CountAvailable(runners, required) ==
            |set i: nat | i < |runners| && runners[i].online && !runners[i].busy && required <= runners[i].labels|
    ensures CountAvailable(runners, required) == 0 <==>
            forall r :: r in runners ==> !(r.online && !r.busy && required <= r.labels)
  {
    if runners != [] {
      var n := |runners| - 1;
      AvailableAre(runners[..n], required);
      assert runners == runners[..n] + [runners[n]];
      assert (set i: nat | i < |runners| && runners[i].online && !runners[i].busy && required <= runners[i].labels) ==
             (set i: nat | i < n && runners[..n][i].online && !runners[..n][i].busy
                           && required <= runners[..n][i].labels)
             + if runners[n].online && !runners[n].busy && required <= runners[n].labels then {n} else {};
    }
  }

  /** The first runner of that name. */
  function FirstNamed(runners: seq<Runner>, name: string): (found: Option<Runner>)
    ensures found.Some? ==> found.value in runners && found.value.name == name
    ensures found.None? <==> forall r :: r in runners ==> r.name != name
  {
    if runners == [] then None
    else if runners[0].name == name then Some(runners[0])
    else FirstNamed(runners[1..], name)
  }

  lemma {:induction false} FirstNamedAt(runners: seq<Runner>, name: string, i: nat)
    requires i < |runners| && runners[i].name == name && forall j :: 0 <= j < i ==> runners[j].name != name
    ensures FirstNamed(runners, name) == Some(runners[i])
  {
    if i > 0 {
      assert forall j :: 0 <= j < i - 1 ==> runners[1..][j] == runners[j + 1];
      FirstNamedAt(runners[1..], name, i - 1);
    }
  }

  lemma {:induction false} FirstNamedFrom(runners: seq<Runner>, name: string) returns (i: nat)
    requires FirstNamed(runners, name).Some?
    ensures i < |runners| && runners[i].name == name && forall j :: 0 <= j < i ==> runners[j].name != name
    ensures FirstNamed(runners, name) == Some(runners[i])
  {
    i := 0;
    if runners[0].name != name {
      i := FirstNamedFrom(runners[1..], name);
      i := i + 1;
      assert forall j :: 0 < j < i ==> runners[j] == runners[1..][j - 1];
    }
  }

  /** The registration that a teardown removes through the API: never a busy one. */
  function Removable(runner: Option<Runner>): set<RunnerId> {
    if runner.Some? && !runner.value.busy then {runner.value.id} else {}
  }

  function NameSet(containers: seq<Container>): set<string> {
    set n | n in ContainerNames(containers)
  }

  /** The stored time of a container in nanoseconds; a container without one starts at `now`. */
  function Recorded(seconds: map<string, int>, name: string, now: int): int {
    if name in seconds then seconds[name] * SECOND else now
  }

  /** Rounding to whole seconds loses less than a second. */
  lemma WholeSeconds(t: int, seconds: int)
    requires t / SECOND <= seconds
    ensures seconds * SECOND > t - SECOND
  {
  }

  // ---------- one container ----------

  /** `status.None?` could not be read. `lastActive` is the time a live container that is not busy was
      judged by; `busyAt` is when the container was last seen running and busy before this pass. */
  datatype Sight = Sight(
    name: string,
    now: int,
    status: Option<Status>,
    runner: Option<Runner>,
    lastActive: Option<int>,
    busyAt: Option<int>)

  predicate Live(s: Sight) {
    s.status.Some? && s.status.value != Stopped
  }

  predicate Working(s: Sight) {
    Live(s) && s.runner.Some? && s.runner.value.busy
  }

  /** The container is torn down: it stopped, or nobody has registered for the grace period, or its
      runner is not busy and has idled past the timeout. */
  predicate Due(cfg: Config, s: Sight) {
    || s.status == Some(Stopped)
    || (Live(s) && s.lastActive.Some?
        && if s.runner.None? then s.now - s.lastActive.value >= cfg.Grace()
           else !s.runner.value.busy && s.now - s.lastActive.value >= cfg.idleTimeout)
  }

  predicate PendingCapacity(status: Status, runner: Runner, labels: set<string>, idle: int, grace: int) {
    status == Running && !runner.busy && !runner.online && grace > 0 && idle <= grace && HasLabels(runner, labels)
  }

  /** The container counts as capacity that is coming up. */
  predicate Provisioning(cfg: Config, s: Sight) {
    && Live(s) && s.runner.Some? && s.lastActive.Some?
    && PendingCapacity(s.status.value, s.runner.value, cfg.labels, s.now - s.lastActive.value, cfg.Grace())
  }

  /** Not before the idle timeout (or the grace period, once unregistered) after `t`, less the second
      that the state store rounds away. */
  predicate NotBefore(cfg: Config, s: Sight, t: int) {
    if s.runner.Some? then s.now > t + cfg.idleTimeout - SECOND else s.now > t + cfg.Grace() - SECOND
  }

  /** A teardown of a live container respects the job it was last seen running. */
  predicate RespectsLastJob(cfg: Config, s: Sight) {
    Live(s) && s.busyAt.Some? ==> NotBefore(cfg, s, s.busyAt.value)
  }

  // ---------- the containers of a pass ----------

  function DueOf(cfg: Config, sights: seq<Sight>): (due: seq<Sight>)
    ensures forall d :: d in due ==> d in sights && Due(cfg, d)
  {
    if sights == [] then []
    else
      var last := sights[|sights| - 1];
      DueOf(cfg, sights[..|sights| - 1]) + if Due(cfg, last) then [last] else []
  }

  function CountProvisioning(cfg: Config, sights: seq<Sight>): nat {
    if sights == [] then 0
    else
      CountProvisioning(cfg, sights[..|sights| - 1]) + if Provisioning(cfg, sights[|sights| - 1]) then 1 else 0
  }

  function BusyIn(busy: map<string, int>, name: string): Option<int> {
    if name in busy then Some(busy[name]) else None
  }

  /** When each container was last seen running and busy, after `sights`. */
  function BusyAfter(busy: map<string, int>, sights: seq<Sight>): map<string, int> {
    if sights == [] then busy
    else
      var before, last := BusyAfter(busy, sights[..|sights| - 1]), sights[|sights| - 1];
      if Working(last) then before[last.name := last.now] else before
  }

  function RemovableOf(sights: seq<Sight>): set<RunnerId> {
    if sights == [] then {}
    else RemovableOf(sights[..|sights| - 1]) + Removable(sights[|sights| - 1].runner)
  }

  /** An earlier teardown of the pass took the container's stored time with its own. */
  ghost predicate Lost(name: string, due: seq<Sight>) {
    exists d :: d in due && HasPrefix(name, d.name + ".")
  }

  ghost function StoredTime(stored: map<string, int>, due: seq<Sight>, name: string, now: int): int {
    if Lost(name, due) then now else Recorded(stored, name, now)
  }

  /** The loop reads a status again that is unknown, and a stopped one it did not read itself. */
  predicate NeedsRead(c: Container, available: nat) {
    c.status == Unknown || (available > 0 && c.status == Stopped)
  }

  /** What a pass looked at. `stored` and `busy` are taken when its scale-down loop starts. */
  datatype View = View(
    runners: seq<Runner>,
    available: nat,
    now: int,
    busy: map<string, int>,
    stored: map<string, int>,
    working: bool)

  ghost predicate SightTrue(s: Sight, c: Container, v: View, due: seq<Sight>, seen: set<StatusRead>) {
    && s.name == c.name && s.now == v.now
    && s.runner == FirstNamed(v.runners, c.name)
    && s.busyAt == BusyIn(v.busy, c.name)
    && (if NeedsRead(c, v.available) then StatusRead(c.name, s.status) in seen else s.status == Some(c.status))
    && (s.lastActive.Some? <==> Live(s) && !Working(s))
    && (s.lastActive.Some? ==> s.lastActive.value == Recorded(v.stored, c.name, v.now) || s.lastActive.value == v.now)
    && (s.lastActive.Some? && v.working ==> s.lastActive.value == StoredTime(v.stored, due, c.name, v.now))
  }

  ghost predicate SightsTrue(cfg: Config, sights: seq<Sight>, listed: seq<Container>, v: View, seen: set<StatusRead>) {
    && |sights| <= |listed|
    && forall i :: 0 <= i < |sights| ==> SightTrue(sights[i], listed[i], v, DueOf(cfg, sights[..i]), seen)
  }

  lemma NoSights(cfg: Config, listed: seq<Container>, v: View, seen: set<StatusRead>)
    ensures SightsTrue(cfg, [], listed, v, seen) && DueOf(cfg, []) == [] && CountProvisioning(cfg, []) == 0
    ensures BusyAfter(v.busy, []) == v.busy && RemovableOf([]) == {}
  {
  }

  lemma OneMoreSight(cfg: Config, sights: seq<Sight>, s: Sight, busy: map<string, int>)
    ensures DueOf(cfg, sights + [s]) == DueOf(cfg, sights) + if Due(cfg, s) then [s] else []
    ensures CountProvisioning(cfg, sights + [s]) ==
              CountProvisioning(cfg, sights) + if Provisioning(cfg, s) then 1 else 0
    ensures BusyAfter(busy, sights + [s]) ==
              if Working(s) then BusyAfter(busy, sights)[s.name := s.now] else BusyAfter(busy, sights)
    ensures RemovableOf(sights + [s]) == RemovableOf(sights) + Removable(s.runner)
  {
    assert (sights + [s])[..|sights|] == sights;
  }

  lemma SightsStep(cfg: Config, sights: seq<Sight>, s: Sight, listed: seq<Container>, v: View,
                   before: set<StatusRead>, after: set<StatusRead>)
    requires SightsTrue(cfg, sights, listed, v, before) && before <= after && |sights| < |listed|
    requires SightTrue(s, listed[|sights|], v, DueOf(cfg, sights), after)
    ensures SightsTrue(cfg, sights + [s], listed, v, after)
  {
    var more := sights + [s];
    forall i | 0 <= i < |more|
      ensures SightTrue(more[i], listed[i], v, DueOf(cfg, more[..i]), after)
    {
      if i < |sights| {
        assert more[..i] == sights[..i];
        assert SightTrue(sights[i], listed[i], v, DueOf(cfg, sights[..i]), before);
      } else {
        assert more[..i] == sights;
      }
    }
  }

  /** What one turn knows before the order of turns is considered: `seconds` is the store at its start. */
  ghost predicate Looked(s: Sight, c: Container, status: Option<Status>, runners: seq<Runner>, now: int,
                         busyAt: Option<int>, seconds: map<string, int>, working: bool)
  {
    && s.name == c.name && s.now == now && s.status == status
    && s.runner == FirstNamed(runners, c.name) && s.busyAt == busyAt
    && (s.lastActive.Some? <==> Live(s) && !Working(s))
    && (s.lastActive.Some? ==>
          s.lastActive.value == Recorded(seconds, c.name, now) || (!working && s.lastActive.value == now))
  }

  /** A turn leaves the stored times of other containers alone, except that a teardown takes those of
      names that continue its own with a dot. */
  ghost predicate OthersKept(before: map<string, int>, after: map<string, int>, name: string, due: bool, working: bool) {
    forall n :: n != name ==>
      && (n in after ==> n in before && after[n] == before[n])
      && (working ==> (n in after <==> n in before && !(due && HasPrefix(n, name + "."))))
  }

  /** The stored times of the containers still to come. */
  ghost predicate StoreFollows(listed: seq<Container>, i: nat, stored: map<string, int>, current: map<string, int>,
                               due: seq<Sight>, working: bool)
  {
    forall j :: i <= j < |listed| ==> TimeFollows(listed[j].name, stored, current, due, working)
  }

  ghost predicate TimeFollows(n: string, stored: map<string, int>, current: map<string, int>, due: seq<Sight>,
                              working: bool)
  {
    && (n in current ==> n in stored && current[n] == stored[n])
    && (working ==> (n in current <==> n in stored && !Lost(n, due)))
  }

  lemma LostStep(n: string, due: seq<Sight>, s: Sight)
    ensures Lost(n, due + [s]) <==> Lost(n, due) || HasPrefix(n, s.name + ".")
  {
    if Lost(n, due) {
      var d :| d in due && HasPrefix(n, d.name + ".");
      assert d in due + [s];
    }
    assert s in due + [s];
  }

  lemma StoreStep(listed: seq<Container>, i: nat, stored: map<string, int>, before: map<string, int>,
                  after: map<string, int>, due: seq<Sight>, s: Sight, isDue: bool, working: bool)
    requires StoreFollows(listed, i, stored, before, due, working)
    requires i < |listed| && s.name == listed[i].name && Distinct(ContainerNames(listed))
    requires OthersKept(before, after, s.name, isDue, working)
    ensures StoreFollows(listed, i + 1, stored, after, due + if isDue then [s] else [], working)
  {
    forall j | i + 1 <= j < |listed|
      ensures TimeFollows(listed[j].name, stored, after, due + if isDue then [s] else [], working)
    {
      var n := listed[j].name;
      assert n == ContainerNames(listed)[j] && s.name == ContainerNames(listed)[i];
      assert TimeFollows(n, stored, before, due, working);
      LostStep(n, due, s);
      assert due + [] == due;
    }
  }

  /** A turn, as `Reconciler.ConsiderContainer` describes it. */
  ghost predicate TurnTaken(c: Container, v: View, s: Sight, seen: set<StatusRead>, seconds: map<string, int>) {
    && Looked(s, c, s.status, v.runners, v.now, BusyIn(v.busy, c.name), seconds, v.working)
    && if NeedsRead(c, v.available) then StatusRead(c.name, s.status) in seen else s.status == Some(c.status)
  }

  lemma TurnIsOf(c: Container, v: View, s: Sight, seen: set<StatusRead>, seconds: map<string, int>)
    requires TurnTaken(c, v, s, seen, seconds)
    ensures s.name == c.name && s.now == v.now
  {
  }

  /** The turn, seen from the start of the loop. */
  lemma TurnIsTrue(c: Container, v: View, s: Sight, seen: set<StatusRead>, current: map<string, int>, due: seq<Sight>)
    requires TurnTaken(c, v, s, seen, current)
    requires TimeFollows(c.name, v.stored, current, due, v.working)
    ensures SightTrue(s, c, v, due, seen) && s.name == c.name
  {
    hide FirstNamed, BusyIn, Lost;
  }

  /** The calls of one teardown. */
  function AfterTeardown(c: seq<Call>, name: string): seq<Call> {
    Commanded(c, name) + [Stop(name), Delete(name)]
  }

  function AfterTeardowns(c: seq<Call>, due: seq<Sight>): seq<Call> {
    if due == [] then c else AfterTeardown(AfterTeardowns(c, due[..|due| - 1]), due[|due| - 1].name)
  }

  /** What a reconciler has on its books: teardowns, calls of the runtime, registrations the API was asked
      to delete, and when containers were last seen running and busy. */
  datatype Ledger = Ledger(
    teardowns: seq<Sight>,
    calls: seq<Call>,
    deregistered: set<RunnerId>,
    busy: map<string, int>)

  function Entered(cfg: Config, l: Ledger, s: Sight): Ledger {
    var busy := if Working(s) then l.busy[s.name := s.now] else l.busy;
    if Due(cfg, s) then
      Ledger(l.teardowns + [s], AfterTeardown(l.calls, s.name), l.deregistered + Removable(s.runner), busy)
    else l.(busy := busy)
  }

  /** The books after all turns of a loop. */
  function Closed(cfg: Config, l: Ledger, sights: seq<Sight>): Ledger {
    var due := DueOf(cfg, sights);
    Ledger(l.teardowns + due, AfterTeardowns(l.calls, due), l.deregistered + RemovableOf(due),
           BusyAfter(l.busy, sights))
  }

  lemma ClosedNone(cfg: Config, l: Ledger)
    ensures Closed(cfg, l, []) == l
  {
  }

  lemma OneMoreTeardown(c: seq<Call>, due: seq<Sight>, s: Sight)
    ensures AfterTeardowns(c, due + [s]) == AfterTeardown(AfterTeardowns(c, due), s.name)
  {
    assert (due + [s])[..|due|] == due;
  }

  lemma ClosedStep(cfg: Config, l: Ledger, sights: seq<Sight>, s: Sight)
    ensures Closed(cfg, l, sights + [s]) == Entered(cfg, Closed(cfg, l, sights), s)
  {
    hide DueOf, CountProvisioning, BusyAfter, RemovableOf, Removable, Due, Working, AfterTeardown, AfterTeardowns;
    var due := DueOf(cfg, sights);
    OneMoreSight(cfg, sights, s, l.busy);
    if Due(cfg, s) {
      OneMoreSight(cfg, due, s, l.busy);
      OneMoreTeardown(l.calls, due, s);
      assert l.teardowns + (due + [s]) == l.teardowns + due + [s];
      assert l.deregistered + (RemovableOf(due) + Removable(s.runner)) ==
             l.deregistered + RemovableOf(due) + Removable(s.runner);
    } else {
      assert due + [] == due;
    }
  }

  // ---------- scale-ups ----------

  /** One scale-up. `name` is the last name it tried; without `cloned` the clone, or the token before it,
      failed, and a failed clone may have left a container. `stopped`: cleanup asked for a stop first. */
  datatype Try = Try(name: string, cloned: bool, configured: bool, stopped: bool, attempts: nat)

  predicate Succeeded(t: Try) {
    t.cloned && t.configured
  }

  ghost predicate TryTrue(t: Try) {
    (t.configured ==> t.cloned) && (t.stopped ==> t.cloned && !t.configured)
  }

  /** A clone that fails later is deleted again. */
  function AfterTry(c: seq<Call>, t: Try): seq<Call> {
    if !t.cloned then c
    else
      var cloned := c + [Clone(t.name), Command(t.name)];
      if t.configured then cloned
      else if t.stopped then cloned + [Stop(t.name), Delete(t.name)]
      else cloned + [Delete(t.name)]
  }

  function AfterTries(c: seq<Call>, tries: seq<Try>): seq<Call> {
    if tries == [] then c else AfterTry(AfterTries(c, tries[..|tries| - 1]), tries[|tries| - 1])
  }

  lemma OneMoreTry(c: seq<Call>, tries: seq<Try>, t: Try)
    ensures AfterTries(c, tries + [t]) == AfterTry(AfterTries(c, tries), t)
  {
    assert (tries + [t])[..|tries|] == tries;
  }

  /** The scale-ups of a pass: each but the last succeeded. */
  ghost predicate TriesTrue(tries: seq<Try>, prefix: string) {
    && (forall i :: 0 <= i < |tries| ==> TryTrue(tries[i]) && HasPrefix(tries[i].name, prefix))
    && (forall i :: 0 <= i < |tries| - 1 ==> Succeeded(tries[i]))
  }

  function TriedNames(tries: seq<Try>): (names: seq<string>)
    ensures |names| == |tries| && forall i :: 0 <= i < |names| ==> names[i] == tries[i].name
  {
    seq(|tries|, i requires 0 <= i < |tries| => tries[i].name)
  }

  function Tried(tries: seq<Try>): set<string> {
    set t | t in tries :: t.name
  }

  // ---------- baseline upkeep ----------

  /** An offline baseline container, judged at `now` by `lastActive` if it is running. */
  datatype BaselineSight = BaselineSight(status: Status, now: int, lastActive: int)

  /** It is left while it is running and young, and removed otherwise. */
  predicate Stays(cfg: Config, b: BaselineSight) {
    b.status == Running && b.now - b.lastActive < cfg.Grace()
  }

  /** What baseline upkeep saw of an offline baseline container, and the scale-up of a new one. */
  datatype BaselineWork = BaselineWork(seen: Option<BaselineSight>, provisioned: Option<Try>)

  const NO_WORK := BaselineWork(None, None)

  predicate Blank(s: string) {
    forall i :: 0 <= i < |s| ==> s[i] == ' ' || '\t' <= s[i] <= '\r'
  }

  predicate BaselineOnline(cfg: Config, runners: seq<Runner>) {
    exists r :: r in runners && r.name == cfg.baselineName && r.online
  }

  predicate Keeps(cfg: Config, w: BaselineWork) {
    w.seen.Some? && Stays(cfg, w.seen.value)
  }

  predicate Removes(cfg: Config, w: BaselineWork) {
    w.seen.Some? && !Stays(cfg, w.seen.value)
  }

  /** The baseline is coming up: a young container was left, or a new one was cloned and configured. */
  function BaselinePending(cfg: Config, w: BaselineWork): nat {
    if Keeps(cfg, w) || (w.provisioned.Some? && Succeeded(w.provisioned.value)) then 1 else 0
  }

  function AfterBaseline(cfg: Config, c: seq<Call>, w: BaselineWork): seq<Call> {
    var removed := if Removes(cfg, w) then AfterTeardown(c, cfg.baselineName) else c;
    if w.provisioned.Some? then AfterTry(removed, w.provisioned.value) else removed
  }

  ghost predicate BaselineTrue(cfg: Config, w: BaselineWork, runners: seq<Runner>, listings: set<Container>) {
    && (Blank(cfg.baselineName) || BaselineOnline(cfg, runners) ==> w == NO_WORK)
    && (w.seen.Some? ==> Container(cfg.baselineName, w.seen.value.status) in listings)
    && (Keeps(cfg, w) ==> w.provisioned.None?)
    && (w.provisioned.Some? ==> TryTrue(w.provisioned.value) && w.provisioned.value.name == cfg.baselineName)
  }

  /** The baseline runner is configured, and nobody is online under its name. */
  predicate WantsBaseline(cfg: Config, runners: seq<Runner>) {
    cfg.baseline && !Blank(cfg.baselineName) && !BaselineOnline(cfg, runners)
  }

  lemma WantsBaselineIff(cfg: Config, runners: seq<Runner>)
    ensures WantsBaseline(cfg, runners) <==>
              && cfg.baseline && (exists c :: c in cfg.baselineName && c != ' ' && !('\t' <= c <= '\r'))
              && forall r :: r in runners && r.name == cfg.baselineName ==> !r.online
  {
    assert Blank(cfg.baselineName) <==> forall c :: c in cfg.baselineName ==> c == ' ' || '\t' <= c <= '\r' by {
      assert forall i :: 0 <= i < |cfg.baselineName| ==> cfg.baselineName[i] in cfg.baselineName;
    }
  }

  // ---------- the report ----------

  /** `statusReads` and `listings` are the live status reads and the listed containers of the pass, `tries`
      its scale-ups. */
  datatype PassReport = PassReport(
    view: View,
    baseline: BaselineWork,
    listed: seq<Container>,
    sights: seq<Sight>,
    removed: set<string>,
    tries: seq<Try>,
    statusReads: set<StatusRead>,
    listings: set<Container>)

  /** The listing a pass decides on. With no runner available it read every status itself. */
  ghost predicate ListedTrue(cfg: Config, listed: seq<Container>, available: nat, seen: set<StatusRead>,
                             listings: set<Container>)
  {
    && Distinct(ContainerNames(listed))
    && (forall c :: c in listed ==> HasPrefix(c.name, cfg.prefix))
    && forall c :: c in listed ==>
         if available > 0 then c in listings else c.status != Unknown ==> StatusRead(c.name, Some(c.status)) in seen
  }

  function DueNames(cfg: Config, sights: seq<Sight>): set<string> {
    set d | d in DueOf(cfg, sights) :: d.name
  }

  /** A report says what the pass saw, and that it decided by it. */
  ghost predicate ReportTrue(cfg: Config, r: PassReport, reliable: bool) {
    && r.view.available == CountAvailable(r.view.runners, cfg.labels)
    && (if cfg.baseline then BaselineTrue(cfg, r.baseline, r.view.runners, r.listings) else r.baseline == NO_WORK)
    && ListedTrue(cfg, r.listed, r.view.available, r.statusReads, r.listings)
    && |r.sights| == |r.listed| && SightsTrue(cfg, r.sights, r.listed, r.view, r.statusReads)
    && r.removed <= DueNames(cfg, r.sights)
    && (reliable ==> r.removed == DueNames(cfg, r.sights))
    && TriesTrue(r.tries, cfg.prefix)
  }

  /** Demand that idle, provisioning and baseline capacity does not cover. */
  function Missing(cfg: Config, queuedJobs: nat, r: PassReport): int {
    queuedJobs - r.view.available - CountProvisioning(cfg, r.sights) - BaselinePending(cfg, r.baseline)
  }

  function Max(a: int, b: int): int {
    if a < b then b else a
  }

  function Min(a: int, b: int): int {
    if a < b then a else b
  }

  lemma FullReport(cfg: Config, r: PassReport, seen: set<StatusRead>, reliable: bool)
    requires r.view.available == CountAvailable(r.view.runners, cfg.labels)
    requires if cfg.baseline then BaselineTrue(cfg, r.baseline, r.view.runners, r.listings) else r.baseline == NO_WORK
    requires ListedTrue(cfg, r.listed, r.view.available, seen, r.listings) && seen <= r.statusReads
    requires |r.sights| == |r.listed| && SightsTrue(cfg, r.sights, r.listed, r.view, r.statusReads)
    requires r.removed <= DueNames(cfg, r.sights) && (reliable ==> r.removed == DueNames(cfg, r.sights))
    requires TriesTrue(r.tries, cfg.prefix)
    ensures ReportTrue(cfg, r, reliable)
  {
    hide CountAvailable, BaselineTrue, SightsTrue, DueNames, Distinct, TriesTrue;
  }

  lemma EmptyReport(cfg: Config, r: PassReport, reliable: bool)
    requires r.view.available == CountAvailable(r.view.runners, cfg.labels)
    requires if cfg.baseline then BaselineTrue(cfg, r.baseline, r.view.runners, r.listings) else r.baseline == NO_WORK
    requires r.listed == [] && r.sights == [] && r.removed == {} && r.tries == []
    ensures ReportTrue(cfg, r, reliable)
    ensures forall l: Ledger :: Booked(cfg, l, r) == Maintained(cfg, l, r.baseline, r.view.runners)
  {
    hide CountAvailable, BaselineTrue, FirstNamed, AfterBaseline;
    NoSights(cfg, [], r.view, r.statusReads);
    assert DueNames(cfg, []) == {};
    forall l: Ledger
      ensures Booked(cfg, l, r) == Maintained(cfg, l, r.baseline, r.view.runners)
    {
      ClosedNone(cfg, Maintained(cfg, l, r.baseline, r.view.runners));
    }
  }

  /** The books after baseline upkeep. */
  function Maintained(cfg: Config, l: Ledger, w: BaselineWork, runners: seq<Runner>): Ledger {
    l.(calls := AfterBaseline(cfg, l.calls, w),
       deregistered := l.deregistered +
         if Removes(cfg, w) then Removable(FirstNamed(runners, cfg.baselineName)) else {})
  }

  /** The books after scale-up. */
  function ScaledUp(l: Ledger, tries: seq<Try>): Ledger {
    l.(calls := AfterTries(l.calls, tries))
  }

  /** The books after a pass: baseline upkeep, teardowns, scale-ups. */
  function Booked(cfg: Config, l: Ledger, r: PassReport): Ledger {
    ScaledUp(Closed(cfg, Maintained(cfg, l, r.baseline, r.view.runners), r.sights), r.tries)
  }

  /** The exact outcome of a pass in which nothing but name conflicts went wrong: what was due is gone, and
      the missing containers, up to the limit, are there under the least new names, after at most two
      attempts each. */
  ghost predicate Exact(cfg: Config, queuedJobs: nat, r: PassReport, before: set<string>, after: set<string>) {
    var left := before - DueNames(cfg, r.sights);
    && NameSet(r.listed) == before
    && |r.tries| == Min(Max(0, Missing(cfg, queuedJobs, r)), Max(0, cfg.maxAutoRunners - |left|))
    && AllNew(cfg.prefix, r.tries, left)
    && after == left + Tried(r.tries)
  }

  /** Every scale-up succeeded within two attempts, under the name with the least index that was not in use. */
  ghost predicate AllNew(prefix: string, tries: seq<Try>, used: set<string>) {
    && Distinct(TriedNames(tries))
    && (forall t :: t in tries ==> Succeeded(t) && t.attempts <= 2 && t.name !in used)
    && forall k :: 0 <= k < |tries| ==> LeastFree(prefix, tries[k].name, used + Tried(tries[..k]))
  }

  // ---------- what a pass touches ----------

  /** `after` adds calls to `before`, all about containers in `names`. */
  ghost predicate AddsOnly(before: seq<Call>, after: seq<Call>, names: set<string>) {
    before <= after && forall i :: |before| <= i < |after| ==> after[i].name in names
  }

  lemma AddsOnlyAdds(a: seq<Call>, b: seq<Call>, c: seq<Call>, m: set<string>, n: set<string>)
    requires AddsOnly(a, b, m) && AddsOnly(b, c, n)
    ensures AddsOnly(a, c, m + n)
  {
    forall i | |a| <= i < |c|
      ensures c[i].name in m + n
    {
      assert i < |b| ==> c[i] == b[i];
    }
  }

  lemma TeardownAdds(c: seq<Call>, name: string)
    ensures AddsOnly(c, AfterTeardown(c, name), {name})
  {
  }

  lemma TryAdds(c: seq<Call>, t: Try)
    ensures AddsOnly(c, AfterTry(c, t), if t.cloned then {t.name} else {})
  {
  }

  lemma {:induction false} TeardownsAdd(c: seq<Call>, due: seq<Sight>)
    ensures AddsOnly(c, AfterTeardowns(c, due), set d | d in due :: d.name)
  {
    if due != [] {
      hide AddsOnly, AfterTeardown;
      var before, last := due[..|due| - 1], due[|due| - 1];
      TeardownsAdd(c, before);
      TeardownAdds(AfterTeardowns(c, before), last.name);
      AddsOnlyAdds(c, AfterTeardowns(c, before), AfterTeardowns(c, due), set d | d in before :: d.name, {last.name});
      assert due == before + [last];
      assert (set d | d in due :: d.name) == (set d | d in before :: d.name) + {last.name};
    }
  }

  function ClonedNames(tries: seq<Try>): set<string> {
    set t | t in tries && t.cloned :: t.name
  }

  lemma {:induction false} TriesAdd(c: seq<Call>, tries: seq<Try>)
    ensures AddsOnly(c, AfterTries(c, tries), ClonedNames(tries))
  {
    if tries != [] {
      hide AddsOnly, AfterTry;
      var before, last := tries[..|tries| - 1], tries[|tries| - 1];
      TriesAdd(c, before);
      TryAdds(AfterTries(c, before), last);
      AddsOnlyAdds(c, AfterTries(c, before), AfterTries(c, tries), ClonedNames(before),
                   if last.cloned then {last.name} else {});
      assert tries == before + [last];
      assert ClonedNames(tries) == ClonedNames(before) + if last.cloned then {last.name} else {};
    }
  }

  function BaselineNames(cfg: Config, w: BaselineWork): set<string> {
    if w == NO_WORK then {} else {cfg.baselineName}
  }

  lemma BaselineAdds(cfg: Config, c: seq<Call>, w: BaselineWork)
    requires w.provisioned.Some? ==> w.provisioned.value.name == cfg.baselineName
    ensures AddsOnly(c, AfterBaseline(cfg, c, w), BaselineNames(cfg, w))
  {
    hide AfterTeardown, AfterTry;
    TeardownAdds(c, cfg.baselineName);
    if w.provisioned.Some? {
      var removed := if Removes(cfg, w) then AfterTeardown(c, cfg.baselineName) else c;
      TryAdds(removed, w.provisioned.value);
      AddsOnlyAdds(c, removed, AfterBaseline(cfg, c, w), if Removes(cfg, w) then {cfg.baselineName} else {},
                   if w.provisioned.value.cloned then {cfg.baselineName} else {});
    }
  }

  /** The containers that a pass may delete, stop, start or give a command: those that were due, the
      baseline, and those it cloned. */
  function TouchedNames(cfg: Config, r: PassReport): set<string> {
    BaselineNames(cfg, r.baseline) + DueNames(cfg, r.sights) + ClonedNames(r.tries)
  }

  /** Everything a pass asks of the runtime, beyond reading, concerns containers that it touches. */
  lemma PassAdds(cfg: Config, l: Ledger, r: PassReport)
    requires r.baseline.provisioned.Some? ==> r.baseline.provisioned.value.name == cfg.baselineName
    ensures AddsOnly(l.calls, Booked(cfg, l, r).calls, TouchedNames(cfg, r))
  {
    hide AddsOnly, AfterBaseline, AfterTeardowns, AfterTries, DueOf, BaselineNames, ClonedNames;
    var due := DueOf(cfg, r.sights);
    var first := AfterBaseline(cfg, l.calls, r.baseline);
    var second := AfterTeardowns(first, due);
    BaselineAdds(cfg, l.calls, r.baseline);
    TeardownsAdd(first, due);
    TriesAdd(second, r.tries);
    AddsOnlyAdds(l.calls, first, second, BaselineNames(cfg, r.baseline), DueNames(cfg, r.sights));
    AddsOnlyAdds(l.calls, second, AfterTries(second, r.tries),
                 BaselineNames(cfg, r.baseline) + DueNames(cfg, r.sights), ClonedNames(r.tries));
  }

  /** A pass deletes, stops, starts and commands no container that it saw running and busy, unless it cloned
      one of that name itself. */
  lemma WorkingLeftAlone(cfg: Config, r: PassReport, reliable: bool, s: Sight)
    requires ReportTrue(cfg, r, reliable) && (cfg.baseline ==> !HasPrefix(cfg.baselineName, cfg.prefix))
    requires s in r.sights && Working(s)
    ensures s.name in TouchedNames(cfg, r) ==> s.name in ClonedNames(r.tries)
  {
    hide ReportTrue;
    var _ := SightIsListed(cfg, r, reliable, s);
    forall d | d in DueOf(cfg, r.sights)
      ensures d.name != s.name
    {
      SameNameSame(cfg, r, reliable, s, d);
    }
  }

  lemma SightIsListed(cfg: Config, r: PassReport, reliable: bool, s: Sight) returns (i: nat)
    requires ReportTrue(cfg, r, reliable) && s in r.sights
    ensures i < |r.sights| == |r.listed| && r.sights[i] == s && r.listed[i].name == s.name
    ensures HasPrefix(s.name, cfg.prefix) && (cfg.baseline || r.baseline == NO_WORK)
  {
    i :| 0 <= i < |r.sights| && r.sights[i] == s;
    assert SightTrue(r.sights[i], r.listed[i], r.view, DueOf(cfg, r.sights[..i]), r.statusReads);
    assert r.listed[i] in r.listed;
  }

  lemma SameNameSame(cfg: Config, r: PassReport, reliable: bool, s: Sight, d: Sight)
    requires ReportTrue(cfg, r, reliable) && s in r.sights && d in r.sights
    ensures s.name == d.name ==> s == d
  {
    var i := SightIsListed(cfg, r, reliable, s);
    var j := SightIsListed(cfg, r, reliable, d);
    assert ContainerNames(r.listed)[i] == s.name && ContainerNames(r.listed)[j] == d.name;
  }

  // ---------- what a pass decides, by what it was given ----------

  /** Where a sight comes from: the listed container, a live read of its status when the listed one is
      unknown, or stopped while a runner is available, and the first runner of its name. */
  lemma SightIsOf(cfg: Config, r: PassReport, reliable: bool, i: nat)
    requires ReportTrue(cfg, r, reliable) && i < |r.listed|
    ensures var c, s := r.listed[i], r.sights[i];
            && s.name == c.name && s.now == r.view.now
            && (if c.status == Unknown || (c.status == Stopped && r.view.available > 0)
                then StatusRead(c.name, s.status) in r.statusReads else s.status == Some(c.status))
            && (s.runner.None? <==> forall q :: q in r.view.runners ==> q.name != c.name)
            && (s.runner.Some? ==>
                  exists k :: 0 <= k < |r.view.runners| && s.runner == Some(r.view.runners[k])
                              && r.view.runners[k].name == c.name
                              && forall j :: 0 <= j < k ==> r.view.runners[j].name != c.name)
  {
    hide ListedTrue, TriesTrue, BaselineTrue, CountAvailable;
    assert SightTrue(r.sights[i], r.listed[i], r.view, DueOf(cfg, r.sights[..i]), r.statusReads);
    if r.sights[i].runner.Some? {
      var k := FirstNamedFrom(r.view.runners, r.listed[i].name);
    }
  }

  /** The time by which container `i` of a pass is judged: the whole seconds on file, or now if there are
      none or an earlier teardown of the pass took them. */
  ghost function JudgedFrom(cfg: Config, r: PassReport, i: nat): int
    requires i < |r.listed|
  {
    var name := r.listed[i].name;
    if name !in r.view.stored then r.view.now
    else if exists j :: 0 <= j < i && r.listed[j].name in DueNames(cfg, r.sights)
                        && r.listed[j].name + "." <= name then r.view.now
    else r.view.stored[name] * 1_000_000_000
  }

  lemma {:induction false} DueOfIff(cfg: Config, sights: seq<Sight>, s: Sight)
    ensures s in DueOf(cfg, sights) <==> s in sights && Due(cfg, s)
  {
    hide Due;
    if sights != [] {
      DueOfIff(cfg, sights[..|sights| - 1], s);
      assert sights == sights[..|sights| - 1] + [sights[|sights| - 1]];
    }
  }

  lemma DueNameIff(cfg: Config, r: PassReport, reliable: bool, i: nat)
    requires ReportTrue(cfg, r, reliable) && i < |r.listed|
    ensures r.listed[i].name in DueNames(cfg, r.sights) <==> Due(cfg, r.sights[i])
  {
    hide ReportTrue, Due;
    SightsSized(cfg, r, reliable);
    var s := r.sights[i];
    SightIsOf(cfg, r, reliable, i);
    DueOfIff(cfg, r.sights, s);
    forall d | d in DueOf(cfg, r.sights) && d.name == s.name
      ensures d == s
    {
      SameNameSame(cfg, r, reliable, s, d);
    }
  }

  lemma SightsSized(cfg: Config, r: PassReport, reliable: bool)
    requires ReportTrue(cfg, r, reliable)
    ensures |r.sights| == |r.listed|
  {
  }

  lemma JudgedByFile(cfg: Config, r: PassReport, reliable: bool, i: nat)
    requires ReportTrue(cfg, r, reliable) && i < |r.listed| && r.view.working
    ensures r.sights[i].lastActive.Some? <==>
              r.sights[i].status.Some? && r.sights[i].status != Some(Stopped)
              && (r.sights[i].runner.None? || !r.sights[i].runner.value.busy)
    ensures r.sights[i].lastActive.Some? ==> r.sights[i].lastActive.value == JudgedFrom(cfg, r, i)
  {
    var due, name := DueOf(cfg, r.sights[..i]), r.listed[i].name;
    assert SightTrue(r.sights[i], r.listed[i], r.view, due, r.statusReads);
    hide ReportTrue, Due, FirstNamed, DueNames;
    LostIff(cfg, r, reliable, i, name);
  }

  lemma LostIff(cfg: Config, r: PassReport, reliable: bool, i: nat, name: string)
    requires ReportTrue(cfg, r, reliable) && i < |r.listed|
    ensures Lost(name, DueOf(cfg, r.sights[..i])) <==>
              exists j :: 0 <= j < i && r.listed[j].name in DueNames(cfg, r.sights) && r.listed[j].name + "." <= name
  {
    hide ReportTrue, Due, DueNames, DueOf;
    SightsSized(cfg, r, reliable);
    if Lost(name, DueOf(cfg, r.sights[..i])) {
      var d :| d in DueOf(cfg, r.sights[..i]) && HasPrefix(name, d.name + ".");
      DueOfIff(cfg, r.sights[..i], d);
      var j :| 0 <= j < i && r.sights[..i][j] == d;
      SightIsOf(cfg, r, reliable, j);
      DueNameIff(cfg, r, reliable, j);
      assert r.listed[j].name == d.name;
    }
    if j :| 0 <= j < i && r.listed[j].name in DueNames(cfg, r.sights) && r.listed[j].name + "." <= name {
      SightIsOf(cfg, r, reliable, j);
      DueNameIff(cfg, r, reliable, j);
      assert r.sights[..i][j] == r.sights[j];
      DueOfIff(cfg, r.sights[..i], r.sights[j]);
    }
  }

  /** Exactly which containers a pass tears down: those that are stopped, those nobody has registered for
      the grace period (two minutes, or the idle timeout if that is positive and shorter), and those whose
      runner is idle and has been for the idle timeout. */
  lemma TornDownIff(cfg: Config, r: PassReport, reliable: bool, i: nat)
    requires ReportTrue(cfg, r, reliable) && i < |r.listed| && r.view.working
    ensures var s, idle := r.sights[i], r.view.now - JudgedFrom(cfg, r, i);
            var grace := if cfg.idleTimeout <= 0 || cfg.idleTimeout > 120_000_000_000 then 120_000_000_000
                         else cfg.idleTimeout;
            r.listed[i].name in DueNames(cfg, r.sights) <==>
              || s.status == Some(Stopped)
              || (s.status.Some? && s.runner.None? && idle >= grace)
              || (s.status.Some? && s.runner.Some? && !s.runner.value.busy && idle >= cfg.idleTimeout)
  {
    hide ReportTrue, DueNames, JudgedFrom;
    SightsSized(cfg, r, reliable);
    DueNameIff(cfg, r, reliable, i);
    SightIsOf(cfg, r, reliable, i);
    JudgedByFile(cfg, r, reliable, i);
  }

  /** Exactly which containers count as capacity that is coming up: running, with a registered runner that
      has the labels, is not online yet, is not busy, and has been idle for no longer than the grace. */
  lemma ComingUpIff(cfg: Config, r: PassReport, reliable: bool, i: nat)
    requires ReportTrue(cfg, r, reliable) && i < |r.listed| && r.view.working
    ensures var s, idle := r.sights[i], r.view.now - JudgedFrom(cfg, r, i);
            var grace := if cfg.idleTimeout <= 0 || cfg.idleTimeout > 120_000_000_000 then 120_000_000_000
                         else cfg.idleTimeout;
            Provisioning(cfg, s) <==>
              && s.status == Some(Running) && s.runner.Some? && cfg.labels <= s.runner.value.labels
              && !s.runner.value.online && !s.runner.value.busy && idle <= grace
  {
    hide ReportTrue, JudgedFrom;
    SightsSized(cfg, r, reliable);
    SightIsOf(cfg, r, reliable, i);
    JudgedByFile(cfg, r, reliable, i);
  }

  lemma {:induction false} ProvisioningAre(cfg: Config, sights: seq<Sight>)
    ensures CountProvisioning(cfg, sights) == |set i: nat | i < |sights| && Provisioning(cfg, sights[i])|
  {
    hide Provisioning;
    if sights != [] {
      var n := |sights| - 1;
      ProvisioningAre(cfg, sights[..n]);
      assert (set i: nat | i < |sights| && Provisioning(cfg, sights[i])) ==
             (set i: nat | i < n && Provisioning(cfg, sights[..n][i]))
             + if Provisioning(cfg, sights[n]) then {n} else {};
    }
  }

  /** The demand left over, in runners and containers: queued jobs, less the idle runners with the labels,
      less the containers coming up (`ComingUpIff`), less the baseline if it is young or just came up. */
  lemma MissingIs(cfg: Config, queuedJobs: nat, r: PassReport, reliable: bool)
    requires ReportTrue(cfg, r, reliable)
    ensures var runners, w := r.view.runners, r.baseline;
            var grace := if cfg.idleTimeout <= 0 || cfg.idleTimeout > 120_000_000_000 then 120_000_000_000
                         else cfg.idleTimeout;
            var young := w.seen.Some? && w.seen.value.status == Running
                         && w.seen.value.now - w.seen.value.lastActive < grace;
            var cameUp := w.provisioned.Some? && w.provisioned.value.cloned && w.provisioned.value.configured;
            Missing(cfg, queuedJobs, r) ==
              queuedJobs
              - |set i: nat | i < |runners| && runners[i].online && !runners[i].busy && cfg.labels <= runners[i].labels|
              - |set i: nat | i < |r.sights| && Provisioning(cfg, r.sights[i])|
              - (if young || cameUp then 1 else 0)
  {
    hide Provisioning, CountProvisioning, CountAvailable;
    AvailableAre(r.view.runners, cfg.labels);
    ProvisioningAre(cfg, r.sights);
  }

  /** Exactly which registrations a pass asks the API to delete: those of due containers and of a baseline
      that is removed, each the first of its name, and none that is busy. */
  lemma DeregisteredIff(cfg: Config, l: Ledger, r: PassReport, id: RunnerId)
    ensures id in Booked(cfg, l, r).deregistered <==>
              || id in l.deregistered
              || (exists s :: s in r.sights && Due(cfg, s)
                              && s.runner.Some? && !s.runner.value.busy && s.runner.value.id == id)
              || (Removes(cfg, r.baseline)
                  && exists k :: 0 <= k < |r.view.runners| && r.view.runners[k].name == cfg.baselineName
                                 && (forall j :: 0 <= j < k ==> r.view.runners[j].name != cfg.baselineName)
                                 && !r.view.runners[k].busy && r.view.runners[k].id == id)
  {
    hide Due, DueOf, AfterTeardowns, AfterTries, AfterBaseline, BusyAfter, Removable, FirstNamed, RemovableOf;
    var runners, name := r.view.runners, cfg.baselineName;
    RemovableNamed(runners, name, id);
    RemovableOfIff(DueOf(cfg, r.sights), id);
    forall s
      ensures s in DueOf(cfg, r.sights) <==> s in r.sights && Due(cfg, s)
    {
      DueOfIff(cfg, r.sights, s);
    }
  }

  lemma {:induction false} RemovableOfIff(due: seq<Sight>, id: RunnerId)
    ensures id in RemovableOf(due) <==>
              exists s :: s in due && s.runner.Some? && !s.runner.value.busy && s.runner.value.id == id
  {
    if due != [] {
      var before, last := due[..|due| - 1], due[|due| - 1];
      RemovableOfIff(before, id);
      assert due == before + [last];
    }
  }

  lemma RemovableNamed(runners: seq<Runner>, name: string, id: RunnerId)
    ensures id in Removable(FirstNamed(runners, name)) <==>
              exists k :: 0 <= k < |runners| && runners[k].name == name
                          && (forall j :: 0 <= j < k ==> runners[j].name != name)
                          && !runners[k].busy && runners[k].id == id
  {
    hide FirstNamed;
    if FirstNamed(runners, name).Some? {
      var k := FirstNamedFrom(runners, name);
    }
    if k :| 0 <= k < |runners| && runners[k].name == name && (forall j :: 0 <= j < k ==> runners[j].name != name)
            && !runners[k].busy && runners[k].id == id {
      FirstNamedAt(runners, name, k);
    }
  }

  // ---------- whole runs ----------

  /** When each container was last seen running and busy, after the passes of `reports`. */
  function Busied(busy: map<string, int>, reports: seq<PassReport>): map<string, int> {
    if reports == [] then busy
    else BusyAfter(Busied(busy, reports[..|reports| - 1]), reports[|reports| - 1].sights)
  }

  /** The reports of consecutive passes: each starts with what the ones before it saw, and no clock
      reading goes back. */
  ghost predicate Chained(cfg: Config, busy: map<string, int>, reports: seq<PassReport>, reliable: bool) {
    && (forall i :: 0 <= i < |reports| ==>
          ReportTrue(cfg, reports[i], reliable) && reports[i].view.busy == Busied(busy, reports[..i]))
    && (forall i, j :: 0 <= i < j < |reports| ==> reports[i].view.now <= reports[j].view.now)
  }

  function AllTeardowns(cfg: Config, reports: seq<PassReport>): seq<Sight> {
    if reports == [] then []
    else AllTeardowns(cfg, reports[..|reports| - 1]) + DueOf(cfg, reports[|reports| - 1].sights)
  }

  function AllDeregistered(cfg: Config, reports: seq<PassReport>): set<RunnerId> {
    if reports == [] then {}
    else
      var r := reports[|reports| - 1];
      AllDeregistered(cfg, reports[..|reports| - 1])
      + (if Removes(cfg, r.baseline) then Removable(FirstNamed(r.view.runners, cfg.baselineName)) else {})
      + RemovableOf(DueOf(cfg, r.sights))
  }

  function AllTouched(cfg: Config, reports: seq<PassReport>): set<string> {
    if reports == [] then {} else AllTouched(cfg, reports[..|reports| - 1]) + TouchedNames(cfg, reports[|reports| - 1])
  }

  function AllTried(reports: seq<PassReport>): set<string> {
    if reports == [] then {} else AllTried(reports[..|reports| - 1]) + Tried(reports[|reports| - 1].tries)
  }

  /** The books after a run. */
  function BookedAll(cfg: Config, l: Ledger, reports: seq<PassReport>): Ledger {
    if reports == [] then l else Booked(cfg, BookedAll(cfg, l, reports[..|reports| - 1]), reports[|reports| - 1])
  }

  /** The books of a run, entry by entry: the teardowns are the due sights, and every call of the runtime,
      beyond reading, concerns a container that some pass touched. */
  lemma {:induction false} BooksMean(cfg: Config, l: Ledger, reports: seq<PassReport>, reliable: bool)
    requires forall i :: 0 <= i < |reports| ==> ReportTrue(cfg, reports[i], reliable)
    ensures var books := BookedAll(cfg, l, reports);
            && books.teardowns == l.teardowns + AllTeardowns(cfg, reports)
            && books.deregistered == l.deregistered + AllDeregistered(cfg, reports)
            && books.busy == Busied(l.busy, reports)
            && AddsOnly(l.calls, books.calls, AllTouched(cfg, reports))
  {
    hide AddsOnly, ReportTrue, AfterBaseline, AfterTeardowns, AfterTries, DueOf, BusyAfter, RemovableOf, Removable,
         FirstNamed, TouchedNames;
    if reports == [] {
      NothingAdded(l.calls);
    } else {
      var before, r := reports[..|reports| - 1], reports[|reports| - 1];
      BooksMean(cfg, l, before, reliable);
      var books := BookedAll(cfg, l, before);
      ProvisionedIsBaseline(cfg, r, reliable);
      PassAdds(cfg, books, r);
      AddsOnlyAdds(l.calls, books.calls, Booked(cfg, books, r).calls, AllTouched(cfg, before), TouchedNames(cfg, r));
      assert l.teardowns + (AllTeardowns(cfg, before) + DueOf(cfg, r.sights)) ==
             l.teardowns + AllTeardowns(cfg, before) + DueOf(cfg, r.sights);
    }
  }

  lemma NothingAdded(c: seq<Call>)
    ensures AddsOnly(c, c, {})
  {
  }

  lemma ProvisionedIsBaseline(cfg: Config, r: PassReport, reliable: bool)
    requires ReportTrue(cfg, r, reliable)
    ensures r.baseline.provisioned.Some? ==> r.baseline.provisioned.value.name == cfg.baselineName
  {
  }

  lemma {:induction false} BusiedIs(cfg: Config, l: Ledger, reports: seq<PassReport>)
    ensures BookedAll(cfg, l, reports).busy == Busied(l.busy, reports)
  {
    if reports != [] {
      BusiedIs(cfg, l, reports[..|reports| - 1]);
    }
  }

  lemma NoReports(cfg: Config, l: Ledger, reliable: bool)
    ensures BookedAll(cfg, l, []) == l && Chained(cfg, l.busy, [], reliable) && AllTried([]) == {}
  {
  }

  lemma OneMoreReport(cfg: Config, l: Ledger, reports: seq<PassReport>, r: PassReport)
    ensures BookedAll(cfg, l, reports + [r]) == Booked(cfg, BookedAll(cfg, l, reports), r)
    ensures AllTried(reports + [r]) == AllTried(reports) + Tried(r.tries)
  {
    assert (reports + [r])[..|reports|] == reports;
  }

  lemma {:induction false} DueIsBooked(cfg: Config, reports: seq<PassReport>, i: nat)
    requires i < |reports|
    ensures forall d :: d in DueOf(cfg, reports[i].sights) ==> d in AllTeardowns(cfg, reports)
  {
    hide DueOf;
    if i < |reports| - 1 {
      DueIsBooked(cfg, reports[..|reports| - 1], i);
    }
  }

  lemma ChainedReports(cfg: Config, busy: map<string, int>, reports: seq<PassReport>, reliable: bool)
    requires Chained(cfg, busy, reports, reliable)
    ensures forall i :: 0 <= i < |reports| ==> ReportTrue(cfg, reports[i], reliable)
  {
    hide ReportTrue;
  }

  lemma ChainedStep(cfg: Config, busy: map<string, int>, reports: seq<PassReport>, r: PassReport, reliable: bool)
    requires Chained(cfg, busy, reports, reliable) && ReportTrue(cfg, r, reliable)
    requires r.view.busy == Busied(busy, reports) && forall q :: q in reports ==> q.view.now <= r.view.now
    ensures Chained(cfg, busy, reports + [r], reliable)
  {
    hide ReportTrue, Busied;
    var more := reports + [r];
    forall i | 0 <= i < |more|
      ensures ReportTrue(cfg, more[i], reliable) && more[i].view.busy == Busied(busy, more[..i])
    {
      if i < |reports| {
        assert more[..i] == reports[..i];
      } else {
        assert more[..i] == reports;
      }
    }
  }

  /** Looking at more containers never forgets a job, and a busy one is remembered. */
  lemma {:induction false} BusyAfterGrows(busy: map<string, int>, sights: seq<Sight>, now: int, name: string, t: int)
    requires forall s :: s in sights ==> s.now == now
    requires t <= now
    requires (name in busy && t <= busy[name]) || exists s :: s in sights && Working(s) && s.name == name
    ensures name in BusyAfter(busy, sights) && t <= BusyAfter(busy, sights)[name]
  {
    if sights != [] {
      var before, last := sights[..|sights| - 1], sights[|sights| - 1];
      assert sights == before + [last] && last in sights;
      if !(Working(last) && last.name == name) {
        BusyAfterGrows(busy, before, now, name, t);
      }
    }
  }

  lemma {:induction false} BusyIsRemembered(cfg: Config, busy: map<string, int>, reports: seq<PassReport>,
                                            reliable: bool, i: nat, n: nat, s: Sight)
    requires Chained(cfg, busy, reports, reliable) && i < n <= |reports|
    requires s in reports[i].sights && Working(s)
    ensures s.name in Busied(busy, reports[..n]) && s.now <= Busied(busy, reports[..n])[s.name]
  {
    hide ReportTrue, Working;
    var last := reports[n - 1];
    SightsAreNow(cfg, last, reliable);
    SightsAreNow(cfg, reports[i], reliable);
    assert reports[..n][..n - 1] == reports[..n - 1];
    if i < n - 1 {
      BusyIsRemembered(cfg, busy, reports, reliable, i, n - 1, s);
    }
    BusyAfterGrows(Busied(busy, reports[..n - 1]), last.sights, last.view.now, s.name, s.now);
  }

  lemma SightsAreNow(cfg: Config, r: PassReport, reliable: bool)
    requires ReportTrue(cfg, r, reliable)
    ensures forall s :: s in r.sights ==> s.now == r.view.now && s.busyAt == BusyIn(r.view.busy, s.name)
  {
    forall s | s in r.sights
      ensures s.now == r.view.now && s.busyAt == BusyIn(r.view.busy, s.name)
    {
      var i :| 0 <= i < |r.sights| && r.sights[i] == s;
      assert SightTrue(r.sights[i], r.listed[i], r.view, DueOf(cfg, r.sights[..i]), r.statusReads);
    }
  }

  /** Over a whole run: a container that some pass saw running and busy at `s.now` is torn down live by a
      later pass no sooner than the idle timeout (or the grace period) after that, less a second. */
  lemma LastJobRespected(cfg: Config, busy: map<string, int>, reports: seq<PassReport>, reliable: bool,
                         i: nat, j: nat, s: Sight, d: Sight)
    requires Chained(cfg, busy, reports, reliable) && i < j < |reports|
    requires s in reports[i].sights && s.runner.Some? && s.runner.value.busy
    requires s.status.Some? && s.status != Some(Stopped)
    requires d in DueOf(cfg, reports[j].sights) && d.name == s.name && RespectsLastJob(cfg, d)
    requires d.status.Some? && d.status != Some(Stopped)
    ensures var grace := if cfg.idleTimeout <= 0 || cfg.idleTimeout > 120_000_000_000 then 120_000_000_000
                         else cfg.idleTimeout;
            d.now > s.now + (if d.runner.Some? then cfg.idleTimeout else grace) - 1_000_000_000
  {
    hide ReportTrue;
    BusyIsRemembered(cfg, busy, reports, reliable, i, j, s);
    SightsAreNow(cfg, reports[j], reliable);
  }

  /** No pass tears down a container that it saw running and busy. */
  lemma NeverWhileWorking(cfg: Config, sights: seq<Sight>, s: Sight)
    requires s in sights && Working(s)
    ensures s !in DueOf(cfg, sights)
  {
  }
}
