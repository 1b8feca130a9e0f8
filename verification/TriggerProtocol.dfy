/** The trigger/reconcile protocol of the daemon.

    Any number of goroutines call `triggerGroup`; `reconcileLoop` goroutines run the passes. They
    share a mutex-protected sequence number and running flag, and a bounded channel whose sends may
    be dropped. `Shared` holds that state; the functions on it are the atomic lock regions and
    channel operations. Class `Daemon` is the imperative form of the same regions, and `Next`
    interleaves them for any number of callers. */
module TriggerProtocol {
  import Sorting

  type GroupId = string

  /** The empty ID asks for every group. */
  const ALL_GROUPS: GroupId := ""

  datatype Shared = Shared(triggerSeq: nat, running: bool, channel: seq<GroupId>)

  function Bump(s: Shared): Shared {
    s.(triggerSeq := s.triggerSeq + 1)
  }

  /** A non-blocking send: a full channel drops the ID. */
  function Send(s: Shared, capacity: nat, id: GroupId): Shared {
    if |s.channel| < capacity then s.(channel := s.channel + [id]) else s
  }

  function Receive(s: Shared): Shared
    requires s.channel != []
  {
    s.(channel := s.channel[1..])
  }

  predicate NeedsRerun(s: Shared, startSeq: nat, cancelled: bool) {
    s.triggerSeq != startSeq && !cancelled
  }

  function Finish(s: Shared, startSeq: nat, cancelled: bool): Shared {
    if NeedsRerun(s, startSeq, cancelled) then s else s.(running := false)
  }

  function Merge(current: seq<GroupId>, pending: seq<GroupId>): seq<GroupId> {
    if pending == [] then current
    else if current == [] then pending
    else current + pending
  }

  function OnlyRequested(groups: seq<GroupId>, requested: seq<GroupId>): seq<GroupId> {
    if groups == [] then []
    else (if groups[0] in requested then [groups[0]] else []) + OnlyRequested(groups[1..], requested)
  }

  /** The groups a pass reconciles. */
  function Selected(groups: seq<GroupId>, requested: seq<GroupId>): seq<GroupId> {
    if requested == [] || ALL_GROUPS in requested then groups else OnlyRequested(groups, requested)
  }

  /** A group is reconciled exactly when the request is empty, holds the empty ID, or names it. */
  lemma {:induction false} SelectedIff(groups: seq<GroupId>, requested: seq<GroupId>, g: GroupId)
    ensures g in Selected(groups, requested)
       <==> g in groups && (requested == [] || ALL_GROUPS in requested || g in requested)
  {
    OnlyRequestedIff(groups, requested, g);
  }

  /** The selection keeps the order of the configuration. */
  lemma {:induction false} OnlyRequestedInOrder(groups: seq<GroupId>, requested: seq<GroupId>)
    ensures OnlyRequested(groups, requested) == Sorting.Filter((g: GroupId) => g in requested, groups)
  {
    if groups != [] {
      var before, last := groups[..|groups| - 1], groups[|groups| - 1];
      OnlyRequestedInOrder(before, requested);
      OnlyRequestedAppend(before, last, requested);
      assert groups == before + [last];
    }
  }

  lemma {:induction false} OnlyRequestedIff(groups: seq<GroupId>, requested: seq<GroupId>, g: GroupId)
    ensures g in OnlyRequested(groups, requested) <==> g in groups && g in requested
  {
    if groups != [] {
      OnlyRequestedIff(groups[1..], requested, g);
      assert groups == [groups[0]] + groups[1..];
    }
  }

  lemma OnlyRequestedAppend(groups: seq<GroupId>, g: GroupId, requested: seq<GroupId>)
    ensures OnlyRequested(groups + [g], requested)
         == OnlyRequested(groups, requested) + if g in requested then [g] else []
  {
    if groups != [] {
      assert (groups + [g])[1..] == groups[1..] + [g];
      OnlyRequestedAppend(groups[1..], g, requested);
    }
  }

  /** The daemon's trigger fields; every method is one lock region or a channel loop. */
  class Daemon {
    const groups: seq<GroupId>
    const capacity: nat := |groups| + 1
    var triggerSeq: nat
    var reconcileRunning: bool
    var triggerCh: seq<GroupId>

    ghost function View(): Shared
      reads this
    {
      Shared(triggerSeq, reconcileRunning, triggerCh)
    }

    constructor (groups: seq<GroupId>)
      ensures this.groups == groups && View() == Shared(0, false, [])
    {
      this.groups := groups;
      triggerSeq, reconcileRunning, triggerCh := 0, false, [];
    }

    /** `triggerGroup` when nothing runs between its two regions: what was requested is either left
        to the running pass or offered to the channel. */
    method TriggerGroup(id: GroupId)
      modifies this
      ensures triggerSeq == old(triggerSeq) + 1 && reconcileRunning == old(reconcileRunning)
      ensures triggerCh == old(triggerCh) + if !old(reconcileRunning) && |old(triggerCh)| <= |groups| then [id] else []
      ensures View() == if old(reconcileRunning) then Bump(old(View()))
                        else Send(Bump(old(View())), |groups| + 1, id)
      ensures !old(reconcileRunning) ==> triggerCh != []
    {
      triggerSeq := triggerSeq + 1;
      var running := reconcileRunning;
      if running {
        return;
      }
      if |triggerCh| < capacity {
        triggerCh := triggerCh + [id];
      }
    }

    method TryEnter() returns (entered: bool)
      modifies this`reconcileRunning
      ensures entered == !old(reconcileRunning)
      ensures View() == old(View()).(running := true)
    {
      entered := !reconcileRunning;
      reconcileRunning := true;
    }

    /** Takes everything that is waiting, in order, and never blocks. */
    method DrainTriggerSignals() returns (ids: seq<GroupId>)
      modifies this`triggerCh
      ensures ids == old(triggerCh) && triggerCh == []
    {
      ids := [];
      while triggerCh != []
        invariant ids + triggerCh == old(triggerCh)
        decreases |triggerCh|
      {
        ids, triggerCh := ids + [triggerCh[0]], triggerCh[1..];
      }
    }

    method FinishPass(startSeq: nat, cancelled: bool) returns (rerun: bool)
      modifies this`reconcileRunning
      ensures rerun <==> triggerSeq != startSeq && !cancelled
      ensures reconcileRunning == (old(reconcileRunning) && rerun)
      ensures rerun == NeedsRerun(old(View()), startSeq, cancelled)
      ensures View() == Finish(old(View()), startSeq, cancelled)
    {
      rerun := triggerSeq != startSeq && !cancelled;
      if !rerun {
        reconcileRunning := false;
      }
    }

    method SelectedGroups(requested: seq<GroupId>) returns (selected: seq<GroupId>)
      ensures selected == Selected(groups, requested)
    {
      if |requested| == 0 {
        return groups;
      }
      var ids: set<GroupId> := {};
      for i := 0 to |requested|
        invariant forall g :: g in ids <==> g in requested[..i]
        invariant ALL_GROUPS !in requested[..i]
      {
        if requested[i] == ALL_GROUPS {
          return groups;
        }
        ids := ids + {requested[i]};
      }
      selected := [];
      for i := 0 to |groups|
        invariant forall g :: g in ids <==> g in requested
        invariant selected == OnlyRequested(groups[..i], requested)
      {
        OnlyRequestedAppend(groups[..i], groups[i], requested);
        assert groups[..i + 1] == groups[..i] + [groups[i]];
        if groups[i] in ids {
          selected := selected + [groups[i]];
        }
      }
      assert groups[..|groups|] == groups;
    }
  }

  // ---------- the interleaved protocol ----------

  /** Where a `reconcileLoop` goroutine stands between two atomic steps. */
  datatype Pc =
    | Booting
    | Selecting
    | Entering(requested: seq<GroupId>)
    | Checking(requested: seq<GroupId>)
    | Draining(requested: seq<GroupId>, drained: seq<GroupId>)
    | Starting(requested: seq<GroupId>)
    | Redraining(requested: seq<GroupId>, startSeq: nat, drained: seq<GroupId>)
    | Confirming(requested: seq<GroupId>, startSeq: nat)
    | Reconciling(startSeq: nat)
    | Aborting
    | Stopped
  {
    /** Between setting and clearing the running flag. */
    predicate Inside() {
      Checking? || Draining? || Starting? || Redraining? || Confirming? || Reconciling? || Aborting?
    }
  }

  /** What happened, in order. */
  datatype Event =
    | Triggered(group: GroupId)
    | Sent(group: GroupId)
    | Received(group: GroupId)
    | PassStarted(targets: seq<GroupId>)

  /** `sending` holds the `triggerGroup` calls that are between their unlock and their send. */
  datatype State = State(
    shared: Shared,
    sending: map<nat, GroupId>,
    workers: map<nat, Pc>,
    cancelled: bool,
    history: seq<Event>)

  ghost predicate Init(s: State) {
    && s.shared == Shared(0, false, [])
    && s.sending == map[]
    && (forall w :: w in s.workers ==> s.workers[w] == Booting)
    && !s.cancelled
    && s.history == []
  }

  datatype Choice = Tick | TakeTrigger | SeeDone

  datatype Step =
    | TriggerBump(call: nat, group: GroupId)
    | TriggerSend(call: nat)
    | Work(worker: nat, choice: Choice)
    | Cancel

  function Log(s: State, e: Event): State {
    s.(history := s.history + [e])
  }

  /** What one atomic step of a worker does: its next position, the shared state, what it logs. */
  datatype Move = Blocked | Goes(pc: Pc, shared: Shared, events: seq<Event>)

  function Take(sh: Shared, pc: Pc): Move
    requires sh.channel != []
  {
    Goes(pc, Receive(sh), [Received(sh.channel[0])])
  }

  function WorkerMove(groups: seq<GroupId>, sh: Shared, cancelled: bool, pc: Pc, choice: Choice): Move {
    match pc
    case Booting =>
      Goes(if cancelled then Selecting else Entering([]), sh, [])
    case Selecting =>
      (match choice
       case Tick => Goes(Entering([]), sh, [])
       case TakeTrigger => if sh.channel == [] then Blocked else Take(sh, Entering([sh.channel[0]]))
       case SeeDone => if cancelled then Goes(Stopped, sh, []) else Blocked)
    case Entering(requested) =>
      if sh.running then Goes(Selecting, sh, [])
      else Goes(Checking(requested), sh.(running := true), [])
    case Checking(requested) =>
      Goes(if cancelled then Aborting else Draining(requested, []), sh, [])
    case Draining(requested, drained) =>
      if sh.channel != [] then Take(sh, Draining(requested, drained + [sh.channel[0]]))
      else Goes(Starting(Merge(requested, drained)), sh, [])
    case Starting(requested) =>
      Goes(Redraining(requested, sh.triggerSeq, []), sh, [])
    case Redraining(requested, startSeq, drained) =>
      if sh.channel != [] then Take(sh, Redraining(requested, startSeq, drained + [sh.channel[0]]))
      else Goes(Confirming(Merge(requested, drained), startSeq), sh, [])
    case Confirming(requested, startSeq) =>
      if cancelled then Goes(Aborting, sh, [])
      else Goes(Reconciling(startSeq), sh, [PassStarted(Selected(groups, requested))])
    case Reconciling(startSeq) =>
      Goes(if NeedsRerun(sh, startSeq, cancelled) then Checking([]) else Selecting,
           Finish(sh, startSeq, cancelled), [])
    case Aborting =>
      Goes(Selecting, sh.(running := false), [])
    case Stopped => Blocked
  }

  ghost predicate NextStep(groups: seq<GroupId>, s: State, s': State, step: Step) {
    match step
    case TriggerBump(call, group) =>
      && call !in s.sending
      && s' == Log(s, Triggered(group)).(
               shared := Bump(s.shared),
               sending := if s.shared.running then s.sending else s.sending[call := group])
    case TriggerSend(call) =>
      && call in s.sending
      && var sent := |s.shared.channel| < |groups| + 1;
         s' == (if sent then Log(s, Sent(s.sending[call])) else s).(
               shared := Send(s.shared, |groups| + 1, s.sending[call]),
               sending := s.sending - {call})
    case Work(w, choice) =>
      && w in s.workers
      && var move := WorkerMove(groups, s.shared, s.cancelled, s.workers[w], choice);
         && move.Goes?
         && s' == s.(workers := s.workers[w := move.pc], shared := move.shared, history := s.history + move.events)
    case Cancel =>
      s' == s.(cancelled := true)
  }

  ghost predicate Next(groups: seq<GroupId>, s: State, s': State) {
    exists step :: NextStep(groups, s, s', step)
  }

  ghost predicate IsRun(groups: seq<GroupId>, run: seq<State>) {
    && run != []
    && Init(run[0])
    && forall i :: 0 < i < |run| ==> Next(groups, run[i - 1], run[i])
  }

  /** Nothing is in flight: every worker waits in its select, no send is pending, the channel is empty. */
  ghost predicate Quiescent(s: State) {
    && s.shared.channel == []
    && s.sending == map[]
    && forall w :: w in s.workers ==> s.workers[w] == Selecting
  }

  // ---------- passes exclude each other ----------

  ghost predicate ExclusionInv(s: State) {
    && (forall w :: w in s.workers && s.workers[w].Inside() ==> s.shared.running)
    && (s.shared.running ==> exists w :: w in s.workers && s.workers[w].Inside())
    && (forall v, w :: v in s.workers && w in s.workers && s.workers[v].Inside() && s.workers[w].Inside() ==> v == w)
  }

  /** A worker raises the flag only when it is down, and lowers it only when it was inside. */
  lemma MoveFlag(groups: seq<GroupId>, sh: Shared, cancelled: bool, pc: Pc, choice: Choice)
    requires pc.Inside() ==> sh.running
    ensures var move := WorkerMove(groups, sh, cancelled, pc, choice);
            move.Goes? ==>
              && (pc.Inside() ==> move.shared.running == move.pc.Inside())
              && (!pc.Inside() && move.pc.Inside() ==> !sh.running && move.shared.running)
              && (!pc.Inside() && !move.pc.Inside() ==> move.shared.running == sh.running)
  {
  }

  lemma ExclusionStep(groups: seq<GroupId>, s: State, s': State, step: Step)
    requires ExclusionInv(s) && NextStep(groups, s, s', step)
    ensures ExclusionInv(s')
  {
    if step.Work? {
      MoveFlag(groups, s.shared, s.cancelled, s.workers[step.worker], step.choice);
    }
    if s'.shared.running {
      if step.Work? && s'.workers[step.worker].Inside() {
      } else {
        var v :| v in s.workers && s.workers[v].Inside();
        assert v in s'.workers && s'.workers[v].Inside();
      }
    }
  }

  /** In every run, for any number of `doReconcileGroups` callers, at most one is past the running
      flag, and the flag is up exactly while one is. */
  lemma {:induction false} PassesExclude(groups: seq<GroupId>, run: seq<State>, i: nat)
    requires IsRun(groups, run) && i < |run|
    ensures ExclusionInv(run[i])
  {
    if i > 0 {
      PassesExclude(groups, run, i - 1);
      var step :| NextStep(groups, run[i - 1], run[i], step);
      ExclusionStep(groups, run[i - 1], run[i], step);
    }
  }

  // ---------- no trigger is lost ----------

  /** How many triggers happened since the last pass started. */
  function Unserved(history: seq<Event>): nat {
    if history == [] then 0
    else
      var before := history[..|history| - 1];
      match history[|history| - 1]
      case Triggered(_) => Unserved(before) + 1
      case PassStarted(_) => 0
      case _ => Unserved(before)
  }

  lemma UnservedLog(history: seq<Event>, e: Event)
    ensures Unserved(history + [e]) ==
            if e.Triggered? then Unserved(history) + 1 else if e.PassStarted? then 0 else Unserved(history)
  {
    assert (history + [e])[..|history|] == history;
  }

  /** A pass that is running has either seen every unserved trigger in its sequence number or will
      notice the difference when it finishes. */
  ghost predicate SeqInv(s: State) {
    forall w :: w in s.workers ==> SeqOk(s.workers[w], s.shared.triggerSeq, Unserved(s.history), s.cancelled)
  }

  ghost predicate OnItsWay(s: State) {
    || s.shared.running
    || s.shared.channel != []
    || s.sending != map[]
    || exists w :: w in s.workers && (s.workers[w].Entering? || s.workers[w].Booting?)
  }

  ghost predicate TriggerInv(s: State) {
    && ExclusionInv(s)
    && SeqInv(s)
    && (!s.cancelled && Unserved(s.history) > 0 ==> OnItsWay(s))
  }

  ghost predicate SeqOk(pc: Pc, triggerSeq: nat, unserved: nat, cancelled: bool) {
    match pc
    case Redraining(_, startSeq, _) => startSeq <= triggerSeq
    case Confirming(_, startSeq) => startSeq <= triggerSeq
    case Reconciling(startSeq) => unserved + startSeq <= triggerSeq
    case Aborting => cancelled
    case _ => true
  }

  /** A step of worker `w` keeps its own sequence bound, and never changes the trigger sequence. */
  lemma MoveSeq(groups: seq<GroupId>, s: State, w: nat, choice: Choice)
    requires w in s.workers && SeqOk(s.workers[w], s.shared.triggerSeq, Unserved(s.history), s.cancelled)
    ensures var move := WorkerMove(groups, s.shared, s.cancelled, s.workers[w], choice);
            move.Goes? ==>
              && move.shared.triggerSeq == s.shared.triggerSeq
              && Unserved(s.history + move.events) <= Unserved(s.history)
              && SeqOk(move.pc, s.shared.triggerSeq, Unserved(s.history + move.events), s.cancelled)
              && (Unserved(s.history + move.events) > 0 && !s.cancelled && s.workers[w].Inside() ==>
                    move.pc.Inside())
  {
    hide Unserved, Selected;
    var move := WorkerMove(groups, s.shared, s.cancelled, s.workers[w], choice);
    if move.Goes? {
      if move.events == [] {
        assert s.history + move.events == s.history;
      } else {
        UnservedLog(s.history, move.events[0]);
      }
    }
  }

  lemma SeqStep(groups: seq<GroupId>, s: State, s': State, step: Step)
    requires TriggerInv(s) && NextStep(groups, s, s', step)
    ensures SeqInv(s')
  {
    match step
    case TriggerBump(_, group) => UnservedLog(s.history, Triggered(group));
    case TriggerSend(call) => UnservedLog(s.history, Sent(s.sending[call]));
    case Work(w, choice) => MoveSeq(groups, s, w, choice);
    case Cancel =>
  }

  lemma OnItsWayStep(groups: seq<GroupId>, s: State, s': State, step: Step)
    requires TriggerInv(s) && NextStep(groups, s, s', step)
    requires !s'.cancelled && Unserved(s'.history) > 0
    ensures OnItsWay(s')
  {
    match step
    case TriggerBump(call, group) =>
      assert s.shared.running || call in s'.sending;
    case TriggerSend(call) =>
      assert s'.shared.channel != [];
    case Work(w, choice) =>
      MoveSeq(groups, s, w, choice);
      MoveFlag(groups, s.shared, s.cancelled, s.workers[w], choice);
      if s.workers[w].Inside() || s'.workers[w].Entering? {
        assert w in s'.workers;
      } else {
        WaitingStep(groups, s, s', w, choice);
      }
    case Cancel =>
  }

  /** A worker that is outside and not about to enter cannot remove the last reason to expect a pass. */
  lemma WaitingStep(groups: seq<GroupId>, s: State, s': State, w: nat, choice: Choice)
    requires NextStep(groups, s, s', Work(w, choice)) && OnItsWay(s) && !s.cancelled
    requires !s.workers[w].Inside() && !s'.workers[w].Entering?
    ensures OnItsWay(s')
  {
    assert s'.shared.channel == s.shared.channel;
    if !s.shared.running && s.shared.channel == [] && s.sending == map[] {
      var v :| v in s.workers && (s.workers[v].Entering? || s.workers[v].Booting?);
      assert v in s'.workers;
      assert v != w ==> s'.workers[v] == s.workers[v];
    }
  }

  lemma {:induction false} TriggerInvHolds(groups: seq<GroupId>, run: seq<State>, i: nat)
    requires IsRun(groups, run) && i < |run|
    ensures TriggerInv(run[i])
  {
    if i > 0 {
      TriggerInvHolds(groups, run, i - 1);
      var s, s' := run[i - 1], run[i];
      var step :| NextStep(groups, s, s', step);
      ExclusionStep(groups, s, s', step);
      SeqStep(groups, s, s', step);
      if !s'.cancelled && Unserved(s'.history) > 0 {
        OnItsWayStep(groups, s, s', step);
      }
    }
  }

  lemma {:induction false} ServedTriggerHasLaterPass(history: seq<Event>, k: nat)
    requires k < |history| && history[k].Triggered?
    requires Unserved(history) == 0
    ensures exists j :: k < j < |history| && history[j].PassStarted?
  {
    var last := |history| - 1;
    if !history[last].PassStarted? {
      ServedTriggerHasLaterPass(history[..last], k);
      var j :| k < j < last && history[..last][j].PassStarted?;
      assert history[j].PassStarted?;
    }
  }

  /** No trigger is lost: in every run without cancellation, whenever nothing is in flight, every
      `triggerSeq` increment so far was followed by a pass that started after it. Sends dropped on a
      full channel and triggers that saw a running pass are included. */
  lemma NoTriggerLost(groups: seq<GroupId>, run: seq<State>, i: nat, k: nat)
    requires IsRun(groups, run) && i < |run|
    requires !run[i].cancelled && Quiescent(run[i])
    requires k < |run[i].history| && run[i].history[k].Triggered?
    ensures exists j :: k < j < |run[i].history| && run[i].history[j].PassStarted?
  {
    TriggerInvHolds(groups, run, i);
    ServedTriggerHasLaterPass(run[i].history, k);
  }

  // ---------- IDs that enter the channel ----------

  /** The IDs received since the last pass started. */
  function Taken(history: seq<Event>): seq<GroupId> {
    if history == [] then []
    else
      var before := history[..|history| - 1];
      match history[|history| - 1]
      case Received(g) => Taken(before) + [g]
      case PassStarted(_) => []
      case _ => Taken(before)
  }

  function SentIds(history: seq<Event>): seq<GroupId> {
    if history == [] then []
    else
      var before := history[..|history| - 1];
      SentIds(before) + match history[|history| - 1] { case Sent(g) => [g] case _ => [] }
  }

  function ReceivedIds(history: seq<Event>): seq<GroupId> {
    if history == [] then []
    else
      var before := history[..|history| - 1];
      ReceivedIds(before) + match history[|history| - 1] { case Received(g) => [g] case _ => [] }
  }

  /** The request list a worker carries towards its next pass. */
  function Carried(pc: Pc): seq<GroupId> {
    match pc
    case Entering(requested) => requested
    case Checking(requested) => requested
    case Draining(requested, drained) => requested + drained
    case Starting(requested) => requested
    case Redraining(requested, _, drained) => requested + drained
    case Confirming(requested, _) => requested
    case _ => []
  }

  /** Every pass so far reconciled exactly what was received for it. */
  ghost predicate TargetsExact(groups: seq<GroupId>, history: seq<Event>) {
    forall j :: 0 <= j < |history| && history[j].PassStarted? ==>
      history[j].targets == Selected(groups, Taken(history[..j]))
  }

  ghost predicate ChannelInv(groups: seq<GroupId>, s: State, w: nat) {
    && s.workers.Keys == {w}
    && s.shared.running == s.workers[w].Inside()
    && SentIds(s.history) == ReceivedIds(s.history) + s.shared.channel
    && (!s.cancelled ==> !s.workers[w].Aborting? && Taken(s.history) == Carried(s.workers[w]))
    && TargetsExact(groups, s.history)
  }

  lemma HistoryLog(history: seq<Event>, e: Event)
    ensures SentIds(history + [e]) == SentIds(history) + if e.Sent? then [e.group] else []
    ensures ReceivedIds(history + [e]) == ReceivedIds(history) + if e.Received? then [e.group] else []
    ensures Taken(history + [e]) ==
            if e.PassStarted? then [] else if e.Received? then Taken(history) + [e.group] else Taken(history)
  {
    assert (history + [e])[..|history|] == history;
  }

  lemma TargetsLog(groups: seq<GroupId>, history: seq<Event>, e: Event)
    requires TargetsExact(groups, history)
    requires e.PassStarted? ==> e.targets == Selected(groups, Taken(history))
    ensures TargetsExact(groups, history + [e])
  {
    var h := history + [e];
    assert h[..|history|] == history;
    forall j | 0 <= j < |h| && h[j].PassStarted?
      ensures h[j].targets == Selected(groups, Taken(h[..j]))
    {
      if j < |history| {
        assert h[..j] == history[..j];
      }
    }
  }

  /** What a worker step may do with IDs: nothing, start a pass with the whole request list, or take
      the oldest ID of the channel into the list. With cancellation the list may be dropped. */
  ghost predicate Carries(groups: seq<GroupId>, sh: Shared, sh': Shared, pc: Pc, pc': Pc,
                          events: seq<Event>, cancelled: bool)
  {
    || (events == [] && sh'.channel == sh.channel
        && (!cancelled ==> !pc'.Aborting? && Carried(pc') == Carried(pc)))
    || (events == [PassStarted(Selected(groups, Carried(pc)))] && sh'.channel == sh.channel
        && !cancelled && !pc'.Aborting? && Carried(pc') == [])
    || (sh.channel != [] && events == [Received(sh.channel[0])] && sh'.channel == sh.channel[1..]
        && (!cancelled ==> !pc'.Aborting? && Carried(pc') == Carried(pc) + [sh.channel[0]]))
  }

  lemma MoveCarries(groups: seq<GroupId>, sh: Shared, cancelled: bool, pc: Pc, choice: Choice)
    requires !cancelled ==> !pc.Aborting? && (pc.Entering? ==> !sh.running)
    ensures var move := WorkerMove(groups, sh, cancelled, pc, choice);
            move.Goes? ==> Carries(groups, sh, move.shared, pc, move.pc, move.events, cancelled)
  {
    hide Selected;
    if (pc.Draining? || pc.Redraining?) && sh.channel != [] {
      assert pc.requested + (pc.drained + [sh.channel[0]]) == pc.requested + pc.drained + [sh.channel[0]];
    } else if pc.Draining? || pc.Redraining? {
      assert Merge(pc.requested, pc.drained) == pc.requested + pc.drained;
    } else if pc.Starting? {
      assert pc.requested + [] == pc.requested;
    }
  }

  /** The account of IDs across one worker step. */
  lemma CarriesKeepsAccount(groups: seq<GroupId>, history: seq<Event>, sh: Shared, sh': Shared, pc: Pc, pc': Pc,
                            events: seq<Event>, cancelled: bool)
    requires Carries(groups, sh, sh', pc, pc', events, cancelled)
    requires SentIds(history) == ReceivedIds(history) + sh.channel
    requires !cancelled ==> Taken(history) == Carried(pc)
    ensures SentIds(history + events) == ReceivedIds(history + events) + sh'.channel
    ensures !cancelled ==> Taken(history + events) == Carried(pc')
  {
    hide SentIds, ReceivedIds, Taken, Carried, Selected;
    if events == [] {
      assert history + events == history;
    } else {
      HistoryLog(history, events[0]);
      ReceiveKeepsAccount(SentIds(history), ReceivedIds(history), sh.channel);
    }
  }

  lemma ReceiveKeepsAccount(sent: seq<GroupId>, received: seq<GroupId>, channel: seq<GroupId>)
    requires sent == received + channel
    ensures channel != [] ==> sent == received + [channel[0]] + channel[1..]
  {
  }

  lemma CarriesKeepsTargets(groups: seq<GroupId>, history: seq<Event>, sh: Shared, sh': Shared, pc: Pc, pc': Pc,
                            events: seq<Event>, cancelled: bool)
    requires Carries(groups, sh, sh', pc, pc', events, cancelled)
    requires !cancelled ==> Taken(history) == Carried(pc)
    requires TargetsExact(groups, history)
    ensures TargetsExact(groups, history + events)
  {
    if events == [] {
      assert history + events == history;
    } else {
      TargetsLog(groups, history, events[0]);
    }
  }

  lemma ChannelBump(groups: seq<GroupId>, s: State, s': State, w: nat, call: nat, group: GroupId)
    requires ChannelInv(groups, s, w) && NextStep(groups, s, s', TriggerBump(call, group))
    ensures ChannelInv(groups, s', w)
  {
    hide SentIds, ReceivedIds, Taken, Carried, TargetsExact, Selected;
    HistoryLog(s.history, Triggered(group));
    TargetsLog(groups, s.history, Triggered(group));
  }

  /** A send that finds room is logged and queued; the account of IDs stays balanced. */
  lemma SendKeepsAccount(groups: seq<GroupId>, history: seq<Event>, channel: seq<GroupId>, id: GroupId)
    requires SentIds(history) == ReceivedIds(history) + channel && TargetsExact(groups, history)
    ensures SentIds(history + [Sent(id)]) == ReceivedIds(history + [Sent(id)]) + (channel + [id])
    ensures Taken(history + [Sent(id)]) == Taken(history)
    ensures TargetsExact(groups, history + [Sent(id)])
  {
    hide SentIds, ReceivedIds, Taken, TargetsExact;
    TargetsLog(groups, history, Sent(id));
    HistoryLog(history, Sent(id));
    var received := ReceivedIds(history);
    assert (received + channel) + [id] == received + (channel + [id]);
  }

  lemma ChannelSend(groups: seq<GroupId>, s: State, s': State, w: nat, call: nat)
    requires ChannelInv(groups, s, w) && NextStep(groups, s, s', TriggerSend(call))
    ensures ChannelInv(groups, s', w)
  {
    hide SentIds, ReceivedIds, Taken, Carried, TargetsExact, Selected;
    if |s.shared.channel| < |groups| + 1 {
      SendKeepsAccount(groups, s.history, s.shared.channel, s.sending[call]);
    }
  }

  lemma ChannelWork(groups: seq<GroupId>, s: State, s': State, w: nat, choice: Choice)
    requires ChannelInv(groups, s, w) && NextStep(groups, s, s', Work(w, choice))
    ensures ChannelInv(groups, s', w)
  {
    hide WorkerMove, SentIds, ReceivedIds, Taken, Carried, TargetsExact, Selected;
    var move := WorkerMove(groups, s.shared, s.cancelled, s.workers[w], choice);
    MoveFlag(groups, s.shared, s.cancelled, s.workers[w], choice);
    MoveCarries(groups, s.shared, s.cancelled, s.workers[w], choice);
    CarriesKeepsAccount(groups, s.history, s.shared, move.shared, s.workers[w], move.pc, move.events, s.cancelled);
    CarriesKeepsTargets(groups, s.history, s.shared, move.shared, s.workers[w], move.pc, move.events, s.cancelled);
  }

  lemma ChannelStep(groups: seq<GroupId>, s: State, s': State, w: nat, step: Step)
    requires ChannelInv(groups, s, w) && NextStep(groups, s, s', step)
    ensures ChannelInv(groups, s', w)
  {
    match step
    case TriggerBump(call, group) => ChannelBump(groups, s, s', w, call, group);
    case TriggerSend(call) => ChannelSend(groups, s, s', w, call);
    case Work(v, choice) => ChannelWork(groups, s, s', w, choice);
    case Cancel =>
  }

  lemma {:induction false} ChannelInvHolds(groups: seq<GroupId>, run: seq<State>, i: nat, w: nat)
    requires IsRun(groups, run) && i < |run| && run[0].workers.Keys == {w}
    ensures ChannelInv(groups, run[i], w)
  {
    if i > 0 {
      ChannelInvHolds(groups, run, i - 1, w);
      var step :| NextStep(groups, run[i - 1], run[i], step);
      ChannelStep(groups, run[i - 1], run[i], w, step);
    }
  }

  /** With the single worker, every pass of every run reconciles a configured group exactly when no
      ID was received since the previous pass, or the empty ID was, or the group's own ID was. */
  lemma PassTargetsIff(groups: seq<GroupId>, run: seq<State>, i: nat, w: nat, j: nat, g: GroupId)
    requires IsRun(groups, run) && i < |run| && run[0].workers.Keys == {w}
    requires j < |run[i].history| && run[i].history[j].PassStarted?
    ensures var taken := Taken(run[i].history[..j]);
            (g in run[i].history[j].targets
             <==> g in groups && (taken == [] || ALL_GROUPS in taken || g in taken))
  {
    ChannelInvHolds(groups, run, i, w);
    SelectedIff(groups, Taken(run[i].history[..j]), g);
  }

  lemma {:induction false} TakenUntilPass(history: seq<Event>, k: nat, j: nat)
    requires k < j <= |history| && history[k].Received?
    requires forall m :: k < m < j ==> !history[m].PassStarted?
    ensures history[k].group in Taken(history[..j])
  {
    var h := history[..j];
    assert h[..|h| - 1] == history[..j - 1];
    if k < j - 1 {
      TakenUntilPass(history, k, j - 1);
    }
  }

  /** Every configured ID, and the empty ID, that leaves the channel is honoured by the first pass
      that starts afterwards: that pass reconciles the group (all groups, for the empty ID). */
  lemma ReceivedIdIsServed(groups: seq<GroupId>, run: seq<State>, i: nat, w: nat, k: nat, j: nat, g: GroupId)
    requires IsRun(groups, run) && i < |run| && run[0].workers.Keys == {w}
    requires var h := run[i].history;
             k < j < |h| && h[k].Received? && h[j].PassStarted? && forall m :: k < m < j ==> !h[m].PassStarted?
    requires g in groups && run[i].history[k].group in {g, ALL_GROUPS}
    ensures g in run[i].history[j].targets
  {
    TakenUntilPass(run[i].history, k, j);
    PassTargetsIff(groups, run, i, w, j, g);
  }

  /** When nothing is in flight and nothing was cancelled, every ID ever sent was received, in order,
      and none of them still waits for a pass. */
  lemma SentIdsAllServed(groups: seq<GroupId>, run: seq<State>, i: nat, w: nat)
    requires IsRun(groups, run) && i < |run| && run[0].workers.Keys == {w}
    requires !run[i].cancelled && Quiescent(run[i])
    ensures SentIds(run[i].history) == ReceivedIds(run[i].history)
    ensures Taken(run[i].history) == []
  {
    ChannelInvHolds(groups, run, i, w);
  }

  // ---------- whose triggers are served ----------

  /** No ID is received before it is sent. */
  lemma {:induction false} ChannelIsBounded(groups: seq<GroupId>, run: seq<State>, k: nat)
    requires IsRun(groups, run) && k < |run|
    ensures |run[k].shared.channel| <= |groups| + 1
  {
    if k > 0 {
      hide Selected;
      ChannelIsBounded(groups, run, k - 1);
      assert Next(groups, run[k - 1], run[k]);
    }
  }

  /** In every run a send is dropped exactly when one ID more than there are groups is waiting. */
  lemma SendIsDroppedIff(groups: seq<GroupId>, run: seq<State>, k: nat, call: nat)
    requires IsRun(groups, run) && k < |run| - 1 && NextStep(groups, run[k], run[k + 1], TriggerSend(call))
    ensures var s, s' := run[k], run[k + 1];
            if |s.shared.channel| == |groups| + 1 then s'.history == s.history && s'.shared == s.shared
            else s'.history == s.history + [Sent(s.sending[call])]
                 && s'.shared.channel == s.shared.channel + [s.sending[call]]
  {
    ChannelIsBounded(groups, run, k);
  }

  ghost predicate NoneEarly(history: seq<Event>) {
    forall m :: 0 <= m <= |history| ==> |ReceivedIds(history[..m])| <= |SentIds(history[..m])|
  }

  lemma NoneEarlyLog(history: seq<Event>, events: seq<Event>)
    requires NoneEarly(history) && |events| <= 1
    requires |ReceivedIds(history + events)| <= |SentIds(history + events)|
    ensures NoneEarly(history + events)
  {
    hide ReceivedIds, SentIds;
    var h := history + events;
    forall m | 0 <= m <= |h|
      ensures |ReceivedIds(h[..m])| <= |SentIds(h[..m])|
    {
      if m <= |history| {
        assert h[..m] == history[..m];
      } else {
        assert h[..m] == h;
      }
    }
  }

  /** A step adds at most one event. */
  lemma StepLogs(groups: seq<GroupId>, s: State, s': State, step: Step)
    requires NextStep(groups, s, s', step)
    ensures exists events :: |events| <= 1 && s'.history == s.history + events
  {
    hide WorkerMove;
    match step
    case TriggerBump(_, group) => assert s'.history == s.history + [Triggered(group)];
    case TriggerSend(call) =>
      assert s'.history == s.history + (if s'.history == s.history then [] else [Sent(s.sending[call])]);
    case Work(w, choice) =>
      MoveLogs(groups, s.shared, s.cancelled, s.workers[w], choice);
      assert s'.history == s.history + WorkerMove(groups, s.shared, s.cancelled, s.workers[w], choice).events;
    case Cancel => assert s'.history == s.history + [];
  }

  lemma MoveLogs(groups: seq<GroupId>, sh: Shared, cancelled: bool, pc: Pc, choice: Choice)
    ensures var move := WorkerMove(groups, sh, cancelled, pc, choice);
            move.Goes? ==> |move.events| <= 1
  {
  }

  lemma {:induction false} NoneEarlyHolds(groups: seq<GroupId>, run: seq<State>, i: nat, w: nat)
    requires IsRun(groups, run) && i < |run| && run[0].workers.Keys == {w}
    ensures NoneEarly(run[i].history)
  {
    if i > 0 {
      hide NextStep, NoneEarly;
      NoneEarlyHolds(groups, run, i - 1, w);
      ChannelInvHolds(groups, run, i, w);
      assert Next(groups, run[i - 1], run[i]);
      var step :| NextStep(groups, run[i - 1], run[i], step);
      StepLogs(groups, run[i - 1], run[i], step);
      var events :| |events| <= 1 && run[i].history == run[i - 1].history + events;
      NoneEarlyLog(run[i - 1].history, events);
    }
  }

  lemma {:induction false} LogGrows(history: seq<Event>, m: nat, n: nat)
    requires m <= n <= |history|
    ensures SentIds(history[..m]) <= SentIds(history[..n]) && ReceivedIds(history[..m]) <= ReceivedIds(history[..n])
    decreases n - m
  {
    if m < n {
      LogGrows(history, m, n - 1);
      assert history[..n][..n - 1] == history[..n - 1];
    }
  }

  /** The event that received the ID at position `p`. */
  lemma {:induction false} ReceivedAt(history: seq<Event>, p: nat) returns (m: nat)
    requires p < |ReceivedIds(history)|
    ensures m < |history| && history[m] == Received(ReceivedIds(history)[p])
    ensures |ReceivedIds(history[..m])| == p
  {
    var before := history[..|history| - 1];
    if p < |ReceivedIds(before)| {
      m := ReceivedAt(before, p);
      assert before[..m] == history[..m];
    } else {
      m := |history| - 1;
    }
  }

  /** Without a pass in between, an ID that was received is still waiting. */
  lemma PassAfter(history: seq<Event>, m: nat)
    requires m < |history| && history[m].Received? && Taken(history) == []
    ensures exists j :: m < j < |history| && history[j].PassStarted?
  {
    assert history[..|history|] == history;
    if forall j :: m < j < |history| ==> !history[j].PassStarted? {
      TakenUntilPass(history, m, |history|);
    }
  }

  lemma {:induction false} FirstPassAfter(history: seq<Event>, m: nat, j: nat) returns (first: nat)
    requires m < j < |history| && history[j].PassStarted?
    ensures m < first <= j && history[first].PassStarted?
    ensures forall k :: m < k < first ==> !history[k].PassStarted?
  {
    if k :| m < k < j && history[k].PassStarted? {
      first := FirstPassAfter(history, m, k);
    } else {
      first := j;
    }
  }

  /** An ID that enters the channel is served: in every uncancelled run of the single worker, at rest,
      every send of a configured ID was followed by a pass that reconciles the group, and every send of the
      empty ID by one that reconciles it too. */
  lemma SentIdIsServed(groups: seq<GroupId>, run: seq<State>, i: nat, w: nat, k: nat, g: GroupId) returns (j: nat)
    requires IsRun(groups, run) && i < |run| && run[0].workers.Keys == {w}
    requires !run[i].cancelled && Quiescent(run[i])
    requires k < |run[i].history| && run[i].history[k].Sent? && run[i].history[k].group in {g, ALL_GROUPS}
    requires g in groups
    ensures k < j < |run[i].history| && run[i].history[j].PassStarted? && g in run[i].history[j].targets
  {
    var h := run[i].history;
    SentIdsAllServed(groups, run, i, w);
    NoneEarlyHolds(groups, run, i, w);
    var p := |SentIds(h[..k])|;
    assert h[..k + 1][..k] == h[..k] && h[..|h|] == h;
    LogGrows(h, k + 1, |h|);
    var m := ReceivedAt(h, p);
    SentFirst(h, k, m);
    PassAfter(h, m);
    var pass :| m < pass < |h| && h[pass].PassStarted?;
    j := FirstPassAfter(h, m, pass);
    ReceivedIdIsServed(groups, run, i, w, m, j, g);
  }

  /** An ID is received after it was sent. */
  lemma SentFirst(h: seq<Event>, k: nat, m: nat)
    requires NoneEarly(h) && k < |h| && m < |h| && h[k].Sent? && h[m].Received?
    requires |ReceivedIds(h[..m])| == |SentIds(h[..k])|
    ensures k < m
  {
    if m <= k {
      assert h[..m + 1][..m] == h[..m];
      LogGrows(h, m, k);
    }
  }

  /** When exactly a trigger of a configured group (or of all groups) is served: at rest, some later pass
      reconciles the group if and only if some later pass had taken nothing from the channel, or the empty
      ID, or the group's own. A trigger that found no pass running and room in the channel is covered by
      `SentIdIsServed`; one that did not is left to what the others sent. */
  lemma TriggerServedIff(groups: seq<GroupId>, run: seq<State>, i: nat, w: nat, k: nat, g: GroupId)
    requires IsRun(groups, run) && i < |run| && run[0].workers.Keys == {w}
    requires k < |run[i].history| && run[i].history[k].Triggered? && run[i].history[k].group in {g, ALL_GROUPS}
    requires g in groups
    ensures (exists j :: k < j < |run[i].history| && run[i].history[j].PassStarted? && g in run[i].history[j].targets)
       <==> exists j ::
              k < j < |run[i].history| && run[i].history[j].PassStarted? && Covers(Taken(run[i].history[..j]), g)
  {
    hide Taken, Covers;
    var h := run[i].history;
    forall j | k < j < |h| && h[j].PassStarted?
      ensures g in h[j].targets <==> Covers(Taken(h[..j]), g)
    {
      PassCovers(groups, run, i, w, j, g);
    }
  }

  /** What a pass took from the channel makes it reconcile `g`. */
  predicate Covers(taken: seq<GroupId>, g: GroupId) {
    taken == [] || ALL_GROUPS in taken || g in taken
  }

  lemma PassCovers(groups: seq<GroupId>, run: seq<State>, i: nat, w: nat, j: nat, g: GroupId)
    requires IsRun(groups, run) && i < |run| && run[0].workers.Keys == {w}
    requires j < |run[i].history| && run[i].history[j].PassStarted? && g in groups
    ensures g in run[i].history[j].targets <==> Covers(Taken(run[i].history[..j]), g)
  {
    PassTargetsIff(groups, run, i, w, j, g);
  }

  lemma StepKeepsCancelled(groups: seq<GroupId>, s: State, s': State, step: Step)
    requires NextStep(groups, s, s', step)
    ensures s.cancelled ==> s'.cancelled
  {
    hide WorkerMove;
  }

  lemma {:induction false} HistoryGrows(groups: seq<GroupId>, run: seq<State>, t: nat, i: nat)
    requires IsRun(groups, run) && t <= i < |run|
    ensures run[t].history <= run[i].history && (run[t].cancelled ==> run[i].cancelled)
    decreases i
  {
    if t < i {
      hide NextStep;
      HistoryGrows(groups, run, t, i - 1);
      assert Next(groups, run[i - 1], run[i]);
      var step :| NextStep(groups, run[i - 1], run[i], step);
      StepLogs(groups, run[i - 1], run[i], step);
      StepKeepsCancelled(groups, run[i - 1], run[i], step);
    }
  }

  lemma ReceivedLater(h: seq<Event>, n: nat, m: nat)
    requires n <= |h| && m < |h| && h[m].Received?
    requires |ReceivedIds(h[..n])| <= |ReceivedIds(h[..m])|
    ensures n <= m
  {
    if m < n {
      assert h[..m + 1][..m] == h[..m];
      LogGrows(h, m + 1, n);
    }
  }

  lemma {:induction false} TakenWaits(h: seq<Event>, n: nat, j: nat, x: GroupId)
    requires n <= j <= |h| && x in Taken(h[..n])
    requires forall k :: n <= k < j ==> !h[k].PassStarted?
    ensures x in Taken(h[..j])
  {
    if n < j {
      TakenWaits(h, n, j - 1, x);
      assert h[..j][..j - 1] == h[..j - 1];
    }
  }

  /** The group's ID, or the empty one, is on its way to a pass that has not started: in the channel, or in
      the worker's request list. */
  predicate Ahead(s: State, w: nat, g: GroupId)
    requires w in s.workers
  {
    || g in s.shared.channel || ALL_GROUPS in s.shared.channel
    || g in Carried(s.workers[w]) || ALL_GROUPS in Carried(s.workers[w])
  }

  lemma ChannelIsServed(groups: seq<GroupId>, run: seq<State>, i: nat, w: nat, t: nat, q: nat, g: GroupId)
    returns (j: nat)
    requires IsRun(groups, run) && t <= i < |run| && run[0].workers.Keys == {w}
    requires !run[i].cancelled && Quiescent(run[i]) && g in groups
    requires q < |run[t].shared.channel| && run[t].shared.channel[q] in {g, ALL_GROUPS}
    ensures |run[t].history| <= j < |run[i].history| && run[i].history[j].PassStarted? && g in run[i].history[j].targets
  {
    var h, n := run[i].history, |run[t].history|;
    HistoryGrows(groups, run, t, i);
    ChannelInvHolds(groups, run, t, w);
    SentIdsAllServed(groups, run, i, w);
    assert h[..n] == run[t].history && h[..|h|] == h;
    LogGrows(h, n, |h|);
    var p := |ReceivedIds(h[..n])| + q;
    assert SentIds(h[..n])[p] == run[t].shared.channel[q];
    var m := ReceivedAt(h, p);
    ReceivedLater(h, n, m);
    PassAfter(h, m);
    var pass :| m < pass < |h| && h[pass].PassStarted?;
    j := FirstPassAfter(h, m, pass);
    ReceivedIdIsServed(groups, run, i, w, m, j, g);
  }

  lemma PassFrom(h: seq<Event>, n: nat, x: GroupId)
    requires n <= |h| && x in Taken(h[..n]) && Taken(h) == []
    ensures exists j :: n <= j < |h| && h[j].PassStarted?
  {
    assert h[..|h|] == h;
    if forall j :: n <= j < |h| ==> !h[j].PassStarted? {
      TakenWaits(h, n, |h|, x);
    }
  }

  lemma CarriedIsServed(groups: seq<GroupId>, run: seq<State>, i: nat, w: nat, t: nat, x: GroupId, g: GroupId)
    returns (j: nat)
    requires IsRun(groups, run) && t <= i < |run| && run[0].workers.Keys == {w}
    requires !run[i].cancelled && Quiescent(run[i]) && g in groups
    requires w in run[t].workers && x in Carried(run[t].workers[w]) && x in {g, ALL_GROUPS}
    ensures |run[t].history| <= j < |run[i].history| && run[i].history[j].PassStarted? && g in run[i].history[j].targets
  {
    var h, n := run[i].history, |run[t].history|;
    HistoryGrows(groups, run, t, i);
    ChannelInvHolds(groups, run, t, w);
    SentIdsAllServed(groups, run, i, w);
    assert h[..n] == run[t].history && n > 0;
    PassFrom(h, n, x);
    var pass :| n <= pass < |h| && h[pass].PassStarted?;
    j := FirstPassAfter(h, n - 1, pass);
    TakenWaits(h, n, j, x);
    PassTargetsIff(groups, run, i, w, j, g);
  }

  predicate Sends(e: Event, g: GroupId) {
    e.Sent? && e.group in {g, ALL_GROUPS}
  }

  /** When a trigger of a configured group is sure to be served, by what can be seen when it happens: the
      group's ID or the empty one is already ahead of it, or its own or a later one enters the channel, as
      it does when no pass runs and the send finds room. */
  lemma TriggerServedIf(groups: seq<GroupId>, run: seq<State>, i: nat, w: nat, t: nat, g: GroupId) returns (j: nat)
    requires IsRun(groups, run) && t < i < |run| && run[0].workers.Keys == {w}
    requires !run[i].cancelled && Quiescent(run[i]) && g in groups
    requires |run[t].history| < |run[i].history| && run[i].history[|run[t].history|].Triggered?
    requires
      || (w in run[t].workers && Ahead(run[t], w, g))
      || exists k :: |run[t].history| < k < |run[i].history| && Sends(run[i].history[k], g)
    ensures |run[t].history| < j < |run[i].history| && run[i].history[j].PassStarted? && g in run[i].history[j].targets
  {
    if k :| |run[t].history| < k < |run[i].history| && Sends(run[i].history[k], g) {
      j := SentIdIsServed(groups, run, i, w, k, g);
    } else if q :| 0 <= q < |run[t].shared.channel| && run[t].shared.channel[q] in {g, ALL_GROUPS} {
      j := ChannelIsServed(groups, run, i, w, t, q, g);
    } else {
      var x :| x in Carried(run[t].workers[w]) && x in {g, ALL_GROUPS};
      j := CarriedIsServed(groups, run, i, w, t, x, g);
    }
  }

  // ---------- group by group, a trigger can be lost ----------

  /** A state with the one worker 0. */
  function Solo(triggerSeq: nat, running: bool, channel: seq<GroupId>, sending: map<nat, GroupId>, pc: Pc,
                history: seq<Event>): State
  {
    State(Shared(triggerSeq, running, channel), sending, map[0 := pc], false, history)
  }

  ghost predicate Reachable(groups: seq<GroupId>, s: State) {
    exists run :: IsRun(groups, run) && run[|run| - 1] == s
  }

  lemma Extend(groups: seq<GroupId>, s: State, s': State, step: Step)
    requires Reachable(groups, s) && NextStep(groups, s, s', step)
    ensures Reachable(groups, s')
  {
    var run :| IsRun(groups, run) && run[|run| - 1] == s;
    var longer := run + [s'];
    forall i | 0 < i < |longer|
      ensures Next(groups, longer[i - 1], longer[i])
    {
      if i < |run| {
        assert Next(groups, run[i - 1], run[i]);
      }
    }
    assert IsRun(groups, longer) && longer[|longer| - 1] == s';
  }

  /** One step of the one worker. */
  lemma ExtendWork(groups: seq<GroupId>, q: nat, running: bool, channel: seq<GroupId>, sending: map<nat, GroupId>,
                   pc: Pc, history: seq<Event>)
    requires Reachable(groups, Solo(q, running, channel, sending, pc, history))
    ensures var move := WorkerMove(groups, Shared(q, running, channel), false, pc, Tick);
            move.Goes? ==>
              Reachable(groups, Solo(move.shared.triggerSeq, move.shared.running, move.shared.channel, sending,
                                     move.pc, if move.events == [] then history else history + move.events))
  {
    var s := Solo(q, running, channel, sending, pc, history);
    var move := WorkerMove(groups, s.shared, false, pc, Tick);
    if move.Goes? {
      var s' := Solo(move.shared.triggerSeq, move.shared.running, move.shared.channel, sending,
                     move.pc, if move.events == [] then history else history + move.events);
      assert history + move.events == s'.history;
      assert s'.workers == s.workers[0 := move.pc];
      Extend(groups, s, s', Work(0, Tick));
    }
  }

  lemma LostTriggerEnters(groups: seq<GroupId>)
    requires groups == ["a", "b"]
    ensures Reachable(groups, Solo(1, true, [], map[0 := "a"], Starting([]), [Triggered("a")]))
  {
    var s := Solo(0, false, [], map[], Booting, []);
    assert IsRun(groups, [s]) && [s][0] == s;
    ExtendWork(groups, 0, false, [], map[], Booting, []);
    Extend(groups, Solo(0, false, [], map[], Entering([]), []),
           Solo(1, false, [], map[0 := "a"], Entering([]), [Triggered("a")]),
           TriggerBump(0, "a"));
    ExtendWork(groups, 1, false, [], map[0 := "a"], Entering([]), [Triggered("a")]);
    ExtendWork(groups, 1, true, [], map[0 := "a"], Checking([]), [Triggered("a")]);
    ExtendWork(groups, 1, true, [], map[0 := "a"], Draining([], []), [Triggered("a")]);
  }

  lemma LostTriggerFirstPass(groups: seq<GroupId>)
    requires groups == ["a", "b"]
    requires Reachable(groups, Solo(1, true, [], map[0 := "a"], Starting([]), [Triggered("a")]))
    ensures Reachable(groups, Solo(1, true, ["a"], map[], Reconciling(1),
                                   [Triggered("a"), PassStarted(["a", "b"]), Sent("a")]))
  {
    ExtendWork(groups, 1, true, [], map[0 := "a"], Starting([]), [Triggered("a")]);
    ExtendWork(groups, 1, true, [], map[0 := "a"], Redraining([], 1, []), [Triggered("a")]);
    ExtendWork(groups, 1, true, [], map[0 := "a"], Confirming([], 1), [Triggered("a")]);
    Extend(groups, Solo(1, true, [], map[0 := "a"], Reconciling(1), [Triggered("a"), PassStarted(["a", "b"])]),
           Solo(1, true, ["a"], map[], Reconciling(1), [Triggered("a"), PassStarted(["a", "b"]), Sent("a")]),
           TriggerSend(0));
  }

  lemma LostTriggerRerun(groups: seq<GroupId>, h: seq<Event>)
    requires Reachable(groups, Solo(1, true, ["a"], map[], Reconciling(1), h))
    ensures Reachable(groups, Solo(2, true, ["a"], map[], Draining([], []), h + [Triggered("b")]))
  {
    var h' := h + [Triggered("b")];
    Extend(groups, Solo(1, true, ["a"], map[], Reconciling(1), h), Solo(2, true, ["a"], map[], Reconciling(1), h'),
           TriggerBump(1, "b"));
    ExtendWork(groups, 2, true, ["a"], map[], Reconciling(1), h');
    ExtendWork(groups, 2, true, ["a"], map[], Checking([]), h');
  }

  /** The first drain of a rerun finds one ID and makes it the whole request. */
  lemma DrainOne(groups: seq<GroupId>, q: nat, id: GroupId, h: seq<Event>)
    requires Reachable(groups, Solo(q, true, [id], map[], Draining([], []), h))
    ensures Reachable(groups, Solo(q, true, [], map[], Redraining([id], q, []), h + [Received(id)]))
  {
    ExtendWork(groups, q, true, [id], map[], Draining([], []), h);
    assert [id][1..] == [] && [] + [id] == [id];
    ExtendWork(groups, q, true, [], map[], Draining([], [id]), h + [Received(id)]);
    ExtendWork(groups, q, true, [], map[], Starting([id]), h + [Received(id)]);
  }

  lemma SelectedOneOfTwo()
    ensures Selected(["a", "b"], ["a"]) == ["a"]
  {
    assert ["a", "b"][1..] == ["b"] && ["b"][1..] == [];
    assert OnlyRequested(["b"], ["a"]) == [];
  }

  /** A pass whose second drain takes nothing, and that saw the newest trigger, ends the run. */
  lemma LastPassRests(groups: seq<GroupId>, q: nat, requested: seq<GroupId>, h: seq<Event>)
    requires Reachable(groups, Solo(q, true, [], map[], Redraining(requested, q, []), h))
    ensures Reachable(groups, Solo(q, false, [], map[], Selecting, h + [PassStarted(Selected(groups, requested))]))
  {
    ExtendWork(groups, q, true, [], map[], Redraining(requested, q, []), h);
    ExtendWork(groups, q, true, [], map[], Confirming(requested, q), h);
    ExtendWork(groups, q, true, [], map[], Reconciling(q), h + [PassStarted(Selected(groups, requested))]);
  }

  /** Group b is triggered while a pass runs, the rerun drains only group a's ID, and the daemon comes
      to rest. */
  lemma LostTriggerRun()
    ensures var h := [Triggered("a"), PassStarted(["a", "b"]), Sent("a")];
            Reachable(["a", "b"], Solo(2, false, [], map[], Selecting,
                                       h + [Triggered("b")] + [Received("a")] + [PassStarted(["a"])]))
  {
    LostTriggerEnters(["a", "b"]);
    LostTriggerFirstPass(["a", "b"]);
    var h := [Triggered("a"), PassStarted(["a", "b"]), Sent("a")];
    LostTriggerRerun(["a", "b"], h);
    DrainOne(["a", "b"], 2, "a", h + [Triggered("b")]);
    LastPassRests(["a", "b"], 2, ["a"], h + [Triggered("b")] + [Received("a")]);
    SelectedOneOfTwo();
  }

  lemma LostTriggerHistory(history: seq<Event>, j: nat)
    requires history == [Triggered("a"), PassStarted(["a", "b"]), Sent("a")] + [Triggered("b")] + [Received("a")]
                        + [PassStarted(["a"])]
    ensures |history| == 6 && history[3] == Triggered("b")
    ensures 3 < j < 6 && history[j].PassStarted? ==> history[j].targets == ["a"]
  {
  }

  /** "Some pass follows the trigger" cannot be sharpened to "some pass of the triggered group follows
      it". `PassTargetsIff` says exactly which passes include a group. */
  lemma GroupTriggerCanBeLost() returns (last: State)
    ensures Reachable(["a", "b"], last) && !last.cancelled && Quiescent(last)
    ensures |last.history| == 6 && last.history[3] == Triggered("b")
    ensures forall j :: 3 < j < 6 && last.history[j].PassStarted? ==> "b" !in last.history[j].targets
  {
    LostTriggerRun();
    var h := [Triggered("a"), PassStarted(["a", "b"]), Sent("a")];
    last := Solo(2, false, [], map[], Selecting, h + [Triggered("b")] + [Received("a")] + [PassStarted(["a"])]);
    forall j: nat | 3 < j < 6 && last.history[j].PassStarted?
      ensures "b" !in last.history[j].targets
    {
      LostTriggerHistory(last.history, j);
    }
    LostTriggerHistory(last.history, 0);
  }

  /** A rerun starts from an empty request list, so it covers every configured group exactly when its
      two drains take nothing, or take the empty ID, or name every group. */
  lemma RerunCoversAllIff(groups: seq<GroupId>, first: seq<GroupId>, second: seq<GroupId>)
    ensures (forall g :: g in groups ==> g in Selected(groups, Merge(Merge([], first), second)))
       <==> (first + second == [] || ALL_GROUPS in first + second || forall g :: g in groups ==> g in first + second)
  {
    var requested := Merge(Merge([], first), second);
    assert requested == first + second;
    forall g | g in groups
      ensures g in Selected(groups, requested) <==> requested == [] || ALL_GROUPS in requested || g in requested
    {
      SelectedIff(groups, requested, g);
    }
  }
}
