/** The registration-token and remove-token caches of a provider: one cached token, one fetch mutex,
    a double check. Both kinds run the same code on their own fields, so one kind is modelled. */
module TokenCache {
  import opened Wrappers

  /** Times are in nanoseconds. */
  const REFRESH_PADDING: int := 5 * 60 * 1_000_000_000

  /** `expiresAt.None?` is the zero time. */
  datatype Token = Token(value: string, expiresAt: Option<int>)

  const NO_TOKEN := Token("", None)

  predicate Usable(token: Token, now: int) {
    token.value != "" && token.expiresAt.Some? && now + REFRESH_PADDING < token.expiresAt.value
  }

  class CachedToken {
    var token: Token

    constructor ()
      ensures token == NO_TOKEN
    {
      token := NO_TOKEN;
    }

    method Get(now: int) returns (hit: Option<string>)
      ensures hit.Some? <==>
                && token.value != "" && token.expiresAt.Some?
                && token.expiresAt.value - now > 300_000_000_000
      ensures hit == if Usable(token, now) then Some(token.value) else None
    {
      if token.value == "" || token.expiresAt.None? {
        return None;
      }
      if now + REFRESH_PADDING < token.expiresAt.value {
        return Some(token.value);
      }
      return None;
    }

    method Put(value: string, expiresAt: Option<int>)
      modifies this
      ensures token == Token(value, expiresAt)
    {
      token := Token(value, expiresAt);
    }
  }

  // ---------- the interleaved protocol ----------

  /** `Missed` is a failed second check, made while holding the fetch mutex. */
  datatype Event =
    | Missed(now: int)
    | Created(token: Token)
    | Served(token: Token, now: int)
    | Failed

  datatype Pc = Checking | Locking | Rechecking | Creating | Storing(token: Token)

  predicate HoldsLock(pc: Pc) {
    pc.Rechecking? || pc.Creating? || pc.Storing?
  }

  datatype State = State(token: Token, calls: map<nat, Pc>, history: seq<Event>)

  ghost predicate Init(s: State) {
    s == State(NO_TOKEN, map[], [])
  }

  /** `answer` is what the API returns, if it is asked: a token or an error. */
  datatype Step = Begin(id: nat) | Run(id: nat, now: int, answer: Option<Token>)

  datatype Outcome =
    | Blocked
    | Goes(pc: Pc, events: seq<Event>)
    | Ends(token: Token, events: seq<Event>)

  function Move(pc: Pc, token: Token, lockFree: bool, now: int, answer: Option<Token>): Outcome {
    match pc
    case Checking =>
      if Usable(token, now) then Ends(token, [Served(token, now)]) else Goes(Locking, [])
    case Locking =>
      if lockFree then Goes(Rechecking, []) else Blocked
    case Rechecking =>
      if Usable(token, now) then Ends(token, [Served(token, now)]) else Goes(Creating, [Missed(now)])
    case Creating =>
      if answer.None? then Ends(token, [Failed]) else Goes(Storing(answer.value), [Created(answer.value)])
    case Storing(fetched) =>
      Ends(fetched, [])
  }

  ghost predicate LockFree(s: State) {
    forall id :: id in s.calls ==> !HoldsLock(s.calls[id])
  }

  ghost predicate NextStep(s: State, s': State, step: Step) {
    match step
    case Begin(id) =>
      id !in s.calls && s' == s.(calls := s.calls[id := Checking])
    case Run(id, now, answer) =>
      && id in s.calls
      && match Move(s.calls[id], s.token, LockFree(s), now, answer)
         case Blocked => false
         case Goes(pc, events) => s' == State(s.token, s.calls[id := pc], s.history + events)
         case Ends(token, events) => s' == State(token, s.calls - {id}, s.history + events)
  }

  ghost predicate Next(s: State, s': State) {
    exists step :: NextStep(s, s', step)
  }

  ghost predicate IsRun(run: seq<State>) {
    && run != []
    && Init(run[0])
    && forall i :: 0 < i < |run| ==> Next(run[i - 1], run[i])
  }

  /** The newest token the API created. */
  function LastCreated(history: seq<Event>): Token {
    if history == [] then NO_TOKEN
    else if history[|history| - 1].Created? then history[|history| - 1].token
    else LastCreated(history[..|history| - 1])
  }

  /** Since the newest token was created, some second check found it unusable. */
  predicate SeenUnusable(history: seq<Event>) {
    if history == [] then false
    else
      var last := history[|history| - 1];
      !last.Created?
      && ((last.Missed? && !Usable(LastCreated(history), last.now)) || SeenUnusable(history[..|history| - 1]))
  }

  ghost predicate Exclusive(calls: map<nat, Pc>) {
    forall a, b :: a in calls && b in calls && HoldsLock(calls[a]) && HoldsLock(calls[b]) ==> a == b
  }

  ghost predicate CallInv(history: seq<Event>, token: Token, pc: Pc) {
    match pc
    case Rechecking => token == LastCreated(history)
    case Creating => token == LastCreated(history) && SeenUnusable(history)
    case Storing(fetched) => fetched == LastCreated(history)
    case _ => true
  }

  ghost predicate HistoryInv(history: seq<Event>) {
    forall j :: 0 <= j < |history| ==>
      match history[j]
      case Created(_) => SeenUnusable(history[..j])
      case Served(token, now) => Usable(token, now) && Created(token) in history[..j]
      case _ => true
  }

  ghost predicate Inv(s: State) {
    && Exclusive(s.calls)
    && (forall id :: id in s.calls ==> CallInv(s.history, s.token, s.calls[id]))
    && (LockFree(s) ==> s.token == LastCreated(s.history))
    && (s.token == NO_TOKEN || Created(s.token) in s.history)
    && HistoryInv(s.history)
  }

  lemma HistoryLog(history: seq<Event>, e: Event)
    requires HistoryInv(history)
    requires e.Created? ==> SeenUnusable(history)
    requires e.Served? ==> Usable(e.token, e.now) && Created(e.token) in history
    ensures HistoryInv(history + [e])
    ensures LastCreated(history + [e]) == if e.Created? then e.token else LastCreated(history)
    ensures !e.Created? && SeenUnusable(history) ==> SeenUnusable(history + [e])
    ensures e.Missed? && !Usable(LastCreated(history), e.now) ==> SeenUnusable(history + [e])
  {
    var h := history + [e];
    assert h[..|history|] == history;
    forall j | 0 <= j < |h|
      ensures match h[j]
              case Created(_) => SeenUnusable(h[..j])
              case Served(token, now) => Usable(token, now) && Created(token) in h[..j]
              case _ => true
    {
      if j < |history| {
        assert h[..j] == history[..j];
      }
    }
  }

  lemma EventsLog(history: seq<Event>, events: seq<Event>)
    requires HistoryInv(history)
    requires events == [] || (events == [events[0]]
               && (events[0].Created? ==> SeenUnusable(history))
               && (events[0].Served? ==> Usable(events[0].token, events[0].now) && Created(events[0].token) in history))
    ensures HistoryInv(history + events)
    ensures LastCreated(history + events) ==
            if events != [] && events[0].Created? then events[0].token else LastCreated(history)
    ensures (events == [] || !events[0].Created?) && SeenUnusable(history) ==> SeenUnusable(history + events)
    ensures events != [] && events[0].Missed? && !Usable(LastCreated(history), events[0].now) ==>
              SeenUnusable(history + events)
  {
    hide HistoryInv, SeenUnusable, LastCreated, Usable;
    if events == [] {
      assert history + events == history;
    } else {
      HistoryLog(history, events[0]);
    }
  }

  lemma {:induction false} LastCreatedIsLogged(history: seq<Event>)
    ensures LastCreated(history) == NO_TOKEN || Created(LastCreated(history)) in history
  {
    if history != [] && !history[|history| - 1].Created? {
      LastCreatedIsLogged(history[..|history| - 1]);
    }
  }

  ghost predicate OutcomeOk(history: seq<Event>, token: Token, pc: Pc, lockFree: bool, out: Outcome) {
    match out
    case Blocked => true
    case Goes(pc', events) =>
      && HistoryInv(history + events)
      && CallInv(history + events, token, pc')
      && (HoldsLock(pc') ==> HoldsLock(pc) || lockFree)
      && (HoldsLock(pc) ==> HoldsLock(pc'))
      && (pc'.Storing? || LastCreated(history + events) == LastCreated(history))
      && (!HoldsLock(pc) ==> events == [])
    case Ends(token', events) =>
      && HistoryInv(history + events)
      && LastCreated(history + events) == LastCreated(history)
      && (SeenUnusable(history) ==> SeenUnusable(history + events))
      && (if HoldsLock(pc) then token' == LastCreated(history) else token' == token)
      && (token' == NO_TOKEN || Created(token') in history + events)
  }

  /** Only the holder of the mutex creates, and what it leaves behind is the newest token. */
  lemma MoveKeeps(history: seq<Event>, token: Token, pc: Pc, lockFree: bool, now: int, answer: Option<Token>)
    requires HistoryInv(history) && CallInv(history, token, pc)
    requires token == NO_TOKEN || Created(token) in history
    requires lockFree ==> token == LastCreated(history)
    ensures OutcomeOk(history, token, pc, lockFree, Move(pc, token, lockFree, now, answer))
  {
    hide HistoryInv, SeenUnusable, LastCreated;
    LastCreatedIsLogged(history);
    match Move(pc, token, lockFree, now, answer)
    case Blocked =>
    case Goes(_, events) => EventsLog(history, events);
    case Ends(_, events) => EventsLog(history, events);
  }

  lemma GoesKeeps(s: State, s': State, id: nat, pc: Pc, events: seq<Event>)
    requires Inv(s) && id in s.calls
    requires OutcomeOk(s.history, s.token, s.calls[id], LockFree(s), Goes(pc, events))
    requires s' == State(s.token, s.calls[id := pc], s.history + events)
    ensures Inv(s')
  {
    assert events == [] ==> s'.history == s.history;
    forall other | other in s'.calls
      ensures CallInv(s'.history, s'.token, s'.calls[other])
    {
      if other != id && HoldsLock(s.calls[other]) {
        assert !HoldsLock(s.calls[id]);
      }
    }
    if LockFree(s') {
      assert !HoldsLock(s'.calls[id]);
      assert !HoldsLock(s.calls[id]);
      forall other | other in s.calls
        ensures !HoldsLock(s.calls[other])
      {
        assert other != id ==> s'.calls[other] == s.calls[other];
      }
    }
  }

  lemma EndsKeeps(s: State, s': State, id: nat, token: Token, events: seq<Event>)
    requires Inv(s) && id in s.calls
    requires OutcomeOk(s.history, s.token, s.calls[id], LockFree(s), Ends(token, events))
    requires s' == State(token, s.calls - {id}, s.history + events)
    ensures Inv(s')
  {
    forall other | other in s'.calls
      ensures CallInv(s'.history, s'.token, s'.calls[other])
    {
      assert s'.calls[other] == s.calls[other];
      assert HoldsLock(s.calls[other]) ==> !HoldsLock(s.calls[id]);
    }
    if LockFree(s') && !HoldsLock(s.calls[id]) {
      forall other | other in s.calls
        ensures !HoldsLock(s.calls[other])
      {
        assert other != id ==> s'.calls[other] == s.calls[other];
      }
    }
  }

  lemma {:induction false} InvHolds(run: seq<State>, k: nat)
    requires IsRun(run) && k < |run|
    ensures Inv(run[k])
  {
    if k > 0 {
      InvHolds(run, k - 1);
      var s, s' := run[k - 1], run[k];
      var step :| NextStep(s, s', step);
      if step.Run? {
        var pc := s.calls[step.id];
        MoveKeeps(s.history, s.token, pc, LockFree(s), step.now, step.answer);
        match Move(pc, s.token, LockFree(s), step.now, step.answer)
        case Goes(pc', events) => GoesKeeps(s, s', step.id, pc', events);
        case Ends(token, events) => EndsKeeps(s, s', step.id, token, events);
      } else {
        assert LockFree(s') ==> LockFree(s) by {
          if LockFree(s') {
            forall other | other in s.calls
              ensures !HoldsLock(s.calls[other])
            {
              assert s'.calls[other] == s.calls[other];
            }
          }
        }
      }
    }
  }

  lemma {:induction false} SeenUnusableWitness(history: seq<Event>, i: nat) returns (m: nat)
    requires SeenUnusable(history)
    requires i < |history| && history[i].Created? && forall k :: i < k < |history| ==> !history[k].Created?
    ensures i < m < |history| && history[m].Missed? && !Usable(history[i].token, history[m].now)
  {
    var last := |history| - 1;
    LastCreatedAt(history, i);
    if history[last].Missed? && !Usable(LastCreated(history), history[last].now) {
      m := last;
    } else {
      m := SeenUnusableWitness(history[..last], i);
    }
  }

  lemma {:induction false} LastCreatedAt(history: seq<Event>, i: nat)
    requires i < |history| && history[i].Created? && forall k :: i < k < |history| ==> !history[k].Created?
    ensures LastCreated(history) == history[i].token
  {
    if i < |history| - 1 {
      LastCreatedAt(history[..|history| - 1], i);
    }
  }

  /** Token fetches coalesce: in every interleaving of any number of callers, between two consecutive
      successful API calls some caller found the earlier token unusable (empty, without expiry, or
      within five minutes of it) while nobody else could fetch. */
  lemma FetchOnlyWhenUnusable(run: seq<State>, k: nat, i: nat, j: nat) returns (m: nat)
    requires IsRun(run) && k < |run|
    requires i < j < |run[k].history| && run[k].history[i].Created? && run[k].history[j].Created?
    requires forall l :: i < l < j ==> !run[k].history[l].Created?
    ensures i < m < j && run[k].history[m].Missed?
    ensures var token := run[k].history[i].token;
            || token.value == "" || token.expiresAt.None?
            || token.expiresAt.value - run[k].history[m].now <= 300_000_000_000
  {
    InvHolds(run, k);
    m := SeenUnusableWitness(run[k].history[..j], i);
  }

  /** Either check, in any state: the call ends with the cached token exactly when the token is set and has
      more than five minutes left; only a second check that fails leads to the API. */
  lemma CheckServesIff(s: State, s': State, id: nat, now: int, answer: Option<Token>)
    requires NextStep(s, s', Run(id, now, answer)) && (s.calls[id].Checking? || s.calls[id].Rechecking?)
    ensures if s.token.value != "" && s.token.expiresAt.Some? && s.token.expiresAt.value - now > 300_000_000_000
            then id !in s'.calls && s'.history == s.history + [Served(s.token, now)] && s'.token == s.token
            else id in s'.calls && (s'.calls[id].Creating? <==> s.calls[id].Rechecking?)
  {
  }

  /** Every token served from the cache was created by the API before, and had more than five minutes
      left when it was checked. */
  lemma ServedTokenIsLive(run: seq<State>, k: nat, j: nat) returns (i: nat)
    requires IsRun(run) && k < |run|
    requires j < |run[k].history| && run[k].history[j].Served?
    ensures i < j && run[k].history[i] == Created(run[k].history[j].token)
    ensures var token := run[k].history[j].token;
            token.expiresAt.Some? && token.expiresAt.value - run[k].history[j].now > 300_000_000_000
  {
    InvHolds(run, k);
    var h := run[k].history;
    i :| 0 <= i < |h[..j]| && h[..j][i] == Created(h[j].token);
  }
}
