/** The disconnect handshake between one client task and the PPP task over the shared flag
    do_pppos_connect and the shared gsm_status, with the PPP callback free to act at any time. */
module Handshake {
  datatype Status = Disconnected | Connected | Idle | FirstInit

  /** The client: outside ppposDisconnect, in its delay after the IDLE test, in its first wait
      (until the flag is nonzero) or in its second (until it is zero). */
  datatype ClientPc = Outside | Delay | WaitNonzero | WaitZero

  /** The PPP task: absent, starting, initialising, in the modem loop, retrying after a lost link, in one
      of the stages of serving a disconnect request, then waiting for a reconnect request or leaving. */
  datatype TaskPc =
    | Absent | Starting | Initialising | Looping | Retrying
    | Closing | AwaitDown | Hanging | Storing
    | AwaitReconnect | Leaving

  /** What the PPP task does for a request. */
  datatype Act = PickUp | ClosePpp | SawDown | RunDisconnect | StoreIdleAndZero

  datatype State = State(
    status: Status,
    flag: int,            // do_pppos_connect
    clientPc: ClientPc,
    endTask: bool,        // the client's argument
    taskPc: TaskPc,
    taskEnd: int,         // the task's local end_task
    acts: seq<Act>,       // history: what the task did since the client's last request
    returned: bool)       // history: the client's last request has returned

  datatype Event =
    | ClientCall(endTask: bool)   // the IDLE test
    | ClientRequest               // the flag is written after the delay
    | ClientPoll                  // one read of the flag, in either wait
    | ClientInit                  // ppposInit: flag := 1, and a task if there is none
    | TaskStart
    | TaskInitialised
    | TaskInitFails
    | TaskLook                    // the locked test at the head of the modem loop
    | TaskRetry
    | TaskClose
    | TaskAwait
    | TaskHang
    | TaskStore
    | TaskReconnect
    | TaskExit
    | Callback(up: bool)

  /** One atomic step; an event whose task stands elsewhere changes nothing. */
  function Next(s: State, e: Event): State {
    match e
    case ClientCall(endTask) =>
      if !s.clientPc.Outside? || s.status.Idle? then s else s.(clientPc := Delay, endTask := endTask)
    case ClientRequest =>
      if !s.clientPc.Delay? then s
      else s.(flag := if s.endTask then -1 else 0, clientPc := WaitNonzero, acts := [], returned := false)
    case ClientPoll =>
      if s.clientPc.WaitNonzero? && s.flag != 0 then s.(clientPc := WaitZero)
      else if s.clientPc.WaitZero? && s.flag == 0 then s.(clientPc := Outside, returned := true)
      else s
    case ClientInit =>
      if !s.clientPc.Outside? then s
      else s.(flag := 1, taskPc := if s.taskPc.Absent? then Starting else s.taskPc)
    case TaskStart =>
      if s.taskPc.Starting? then s.(status := FirstInit, taskPc := Initialising) else s
    case TaskInitialised =>
      if s.taskPc.Initialising? then s.(status := Idle, taskPc := Looping) else s
    case TaskInitFails =>
      if s.taskPc.Starting? || s.taskPc.Initialising? then s.(taskPc := Leaving) else s
    case TaskLook =>
      if !s.taskPc.Looping? then s
      else if s.flag <= 0 then s.(taskEnd := s.flag, flag := 1, taskPc := Closing, acts := s.acts + [PickUp])
      else if s.status.Disconnected? then s.(taskPc := Retrying)
      else s
    case TaskRetry =>
      if s.taskPc.Retrying? then s.(status := Idle, taskPc := Initialising) else s
    case TaskClose =>
      if s.taskPc.Closing? then s.(taskPc := AwaitDown, acts := s.acts + [ClosePpp]) else s
    case TaskAwait =>
      if s.taskPc.AwaitDown? && s.status.Disconnected? then s.(taskPc := Hanging, acts := s.acts + [SawDown]) else s
    case TaskHang =>
      if s.taskPc.Hanging? then s.(taskPc := Storing, acts := s.acts + [RunDisconnect]) else s
    case TaskStore =>
      if !s.taskPc.Storing? then s
      else s.(status := Idle, flag := 0, acts := s.acts + [StoreIdleAndZero],
              taskPc := if s.taskEnd < 0 then Leaving else AwaitReconnect)
    case TaskReconnect =>
      if s.taskPc.AwaitReconnect? && s.flag != 0 then s.(taskPc := Initialising) else s
    case TaskExit =>
      if s.taskPc.Leaving? then s.(status := FirstInit, taskPc := Absent) else s
    case Callback(up) => s.(status := if up then Connected else Disconnected)
  }

  predicate Start(s: State) {
    && s.status.FirstInit? && s.flag == 1 && s.clientPc.Outside? && s.taskPc.Absent?
    && s.acts == [] && !s.returned
  }

  ghost function Run(s: State, events: seq<Event>): State {
    if events == [] then s else Next(Run(s, events[..|events| - 1]), events[|events| - 1])
  }

  const SERVED: seq<Act> := [PickUp, ClosePpp, SawDown, RunDisconnect, StoreIdleAndZero]

  /** The task is between picking a request up and storing its result. */
  predicate Serving(t: TaskPc) { t.Closing? || t.AwaitDown? || t.Hanging? || t.Storing? }

  /** How far the task has come with the request. */
  function Stage(t: TaskPc): nat {
    match t
    case Closing => 1
    case AwaitDown => 2
    case Hanging => 3
    case Storing => 4
    case _ => 0
  }

  predicate Waiting(c: ClientPc) { c.WaitNonzero? || c.WaitZero? }

  /** A request is not yet picked up, being served, or done; between requests nothing is served. */
  predicate Inv(s: State) {
    && -1 <= s.flag <= 1
    && (Waiting(s.clientPc) ==>
          || (s.acts == [] && !Serving(s.taskPc) && s.flag == (if s.endTask then -1 else 0))
          || (Serving(s.taskPc) && s.acts == SERVED[..Stage(s.taskPc)] && s.flag == 1)
          || (s.acts == SERVED && !Serving(s.taskPc) && s.flag == 0
              && (s.taskPc.AwaitReconnect? || s.taskPc.Leaving? || s.taskPc.Absent?)))
    && (!Waiting(s.clientPc) ==>
          && !Serving(s.taskPc)
          && (s.flag <= 0 ==> s.flag == 0 && (s.taskPc.AwaitReconnect? || s.taskPc.Leaving? || s.taskPc.Absent?)))
    && (s.clientPc.WaitZero? ==> s.acts != [] || s.flag != 0)
    && (s.returned ==> s.acts == SERVED)
  }

  lemma NextKeepsInv(s: State, e: Event)
    requires Inv(s)
    ensures Inv(Next(s, e))
  {
    if Serving(s.taskPc) {
      var n := Stage(s.taskPc);
      assert SERVED[..n] + [SERVED[n]] == SERVED[..n + 1];
    }
  }

  lemma {:induction false} RunKeepsInv(s: State, events: seq<Event>)
    requires Start(s)
    ensures Inv(Run(s, events))
  {
    if events != [] {
      RunKeepsInv(s, events[..|events| - 1]);
      NextKeepsInv(Run(s, events[..|events| - 1]), events[|events| - 1]);
    }
  }

  /** Main result: in every interleaving, whenever a request has returned the PPP task has since that
      request picked it up, closed PPP, seen the link down, run _disconnect and stored IDLE and 0, in
      this order; so no zero from before the request can end the wait. */
  lemma ReturnMeansServed(s: State, events: seq<Event>)
    requires Start(s) && Run(s, events).returned
    ensures Run(s, events).acts == SERVED
  {
    RunKeepsInv(s, events);
  }

  /** The step on which a request returns finds the flag at the zero that its own service stored. */
  lemma ReturningStep(s: State, events: seq<Event>, e: Event)
    requires Start(s)
    requires var before := Run(s, events); Waiting(before.clientPc) && Next(before, e).clientPc.Outside?
    ensures var before := Run(s, events); before.acts == SERVED && before.flag == 0 && !Serving(before.taskPc)
    ensures Next(Run(s, events), e).returned
  {
    RunKeepsInv(s, events);
  }

  // ---- the way of the task ----

  /** Where the task can go next: through its initialisation into the modem loop, from there to a new initialisation
      after a lost link or into the service of a request, and out when the initialisation fails or the request
      was to end it. */
  predicate CanBecome(s: State, next: TaskPc) {
    match s.taskPc
    case Absent => next.Starting? && s.clientPc.Outside?
    case Starting => next.Initialising? || next.Leaving?
    case Initialising => next.Looping? || next.Leaving?
    case Looping => if s.flag <= 0 then next.Closing? else next.Retrying? && s.status.Disconnected?
    case Retrying => next.Initialising?
    case Closing => next.AwaitDown?
    case AwaitDown => next.Hanging? && s.status.Disconnected?
    case Hanging => next.Storing?
    case Storing => if s.taskEnd < 0 then next.Leaving? else next.AwaitReconnect?
    case AwaitReconnect => next.Initialising? && s.flag != 0
    case Leaving => next.Absent?
  }

  /** The step by which it goes there. */
  function StepTo(t: TaskPc, next: TaskPc): Event {
    match t
    case Absent => ClientInit
    case Starting => if next.Leaving? then TaskInitFails else TaskStart
    case Initialising => if next.Leaving? then TaskInitFails else TaskInitialised
    case Looping => TaskLook
    case Retrying => TaskRetry
    case Closing => TaskClose
    case AwaitDown => TaskAwait
    case Hanging => TaskHang
    case Storing => TaskStore
    case AwaitReconnect => TaskReconnect
    case Leaving => TaskExit
  }

  /** A step moves the task exactly along this way, and is the one the way needs. */
  lemma TaskMovesIff(s: State, e: Event, next: TaskPc)
    requires next != s.taskPc
    ensures Next(s, e).taskPc == next <==> CanBecome(s, next) && e == StepTo(s.taskPc, next)
  {
  }

  // ---- what the status says ----

  /** What a step writes to the status, if anything: the callback the link's state, a task that starts or has gone
      "first initialisation", one that has initialised, gives up a link or has served a request "idle". */
  function StatusWritten(s: State, e: Event): Status {
    if e.Callback? then if e.up then Connected else Disconnected
    else if (e.TaskStart? && s.taskPc.Starting?) || (e.TaskExit? && s.taskPc.Leaving?) then FirstInit
    else if (e.TaskInitialised? && s.taskPc.Initialising?) || (e.TaskRetry? && s.taskPc.Retrying?)
            || (e.TaskStore? && s.taskPc.Storing?) then Idle
    else s.status
  }

  lemma NextStatus(s: State, e: Event)
    ensures Next(s, e).status == StatusWritten(s, e)
  {
  }

  /** The last event that could make the link count as up is a callback saying so. */
  ghost predicate UpSince(s: State, events: seq<Event>) {
    events != [] &&
    var n := |events| - 1;
    var before := Run(s, events[..n]);
    if events[n].Callback? then events[n].up
    else UpSince(s, events[..n]) && StatusWritten(before, events[n]) == before.status
  }

  /** Main result: in every run the status says "connected" exactly when the last word on it was the callback's that
      the link is up; no status is left over from an earlier connection or task. */
  lemma {:induction false} ConnectedIffUpSince(s: State, events: seq<Event>)
    requires Start(s)
    ensures Run(s, events).status.Connected? <==> UpSince(s, events)
  {
    if events != [] {
      var n := |events| - 1;
      ConnectedIffUpSince(s, events[..n]);
      NextStatus(Run(s, events[..n]), events[n]);
    }
  }

  /** After a service, and until a callback or a new initialisation, a further request is not needed: the status is
      "idle" and the call returns at its test. */
  lemma ServedThenIdle(s: State, events: seq<Event>, endTask: bool)
    requires Start(s) && Run(s, events).taskPc.Storing?
    ensures var stored := Next(Run(s, events), TaskStore);
            && stored.status.Idle? && stored.flag == 0 && stored.acts == SERVED
            && Next(stored, ClientCall(endTask)) == stored
  {
    RunKeepsInv(s, events);
    NextKeepsInv(Run(s, events), TaskStore);
  }

  // ---- when a request returns at all ----

  /** Nobody is left to pick the request up: the client waits for a nonzero flag that only it could write,
      or the flag holds a request and the task is leaving or gone. */
  predicate Lost(s: State) {
    || (s.clientPc.WaitNonzero? && s.flag == 0
        && (s.taskPc.AwaitReconnect? || s.taskPc.Leaving? || s.taskPc.Absent?))
    || (Waiting(s.clientPc) && s.flag != 0 && (s.taskPc.Leaving? || s.taskPc.Absent?))
  }

  ghost predicate Reaches(s: State, t: State) { exists events :: Run(s, events) == t }

  lemma ReachesItself(s: State)
    ensures Reaches(s, s)
  {
    assert Run(s, []) == s;
  }

  lemma ReachesNext(s: State, t: State, e: Event)
    requires Reaches(s, t)
    ensures Reaches(s, Next(t, e))
  {
    var events :| Run(s, events) == t;
    assert (events + [e])[..|events|] == events;
    assert Run(s, events + [e]) == Next(t, e);
  }

  lemma ReachesInv(s: State, t: State)
    requires Start(s) && Reaches(s, t)
    ensures Inv(t)
  {
    var events :| Run(s, events) == t;
    RunKeepsInv(s, events);
  }

  lemma NextKeepsLost(s: State, e: Event)
    requires Inv(s) && Lost(s)
    ensures Lost(Next(s, e))
  {
  }

  lemma {:induction false} RunKeepsLost(s: State, events: seq<Event>)
    requires Inv(s) && Lost(s)
    ensures Inv(Run(s, events)) && Lost(Run(s, events))
  {
    if events != [] {
      var front, last := events[..|events| - 1], events[|events| - 1];
      RunKeepsLost(s, front);
      NextKeepsInv(Run(s, front), last);
      NextKeepsLost(Run(s, front), last);
    }
  }

  /** How many steps the task is away from the head of the modem loop. */
  function StepsToLoop(t: TaskPc): nat {
    match t
    case Starting => 2
    case Retrying => 2
    case AwaitReconnect => 2
    case Initialising => 1
    case _ => 0
  }

  /** The step that brings the task nearer to the head of the modem loop, and there picks up the request. */
  function TowardsPickUp(t: TaskPc): Event {
    match t
    case Starting => TaskStart
    case Retrying => TaskRetry
    case AwaitReconnect => TaskReconnect
    case Initialising => TaskInitialised
    case _ => TaskLook
  }

  /** A request that is pending and not lost can always be picked up. */
  lemma GetsPickedUp(s: State, t: State) returns (u: State)
    requires Reaches(s, t) && Inv(t) && Waiting(t.clientPc) && !Lost(t) && t.flag <= 0 && t.acts == []
    ensures Reaches(s, u) && Inv(u) && Serving(u.taskPc) && u.clientPc == t.clientPc && u.taskEnd == t.flag
    decreases StepsToLoop(t.taskPc)
  {
    var e := TowardsPickUp(t.taskPc);
    ReachesNext(s, t, e);
    NextKeepsInv(t, e);
    u := Next(t, e);
    if !t.taskPc.Looping? {
      u := GetsPickedUp(s, u);
    }
  }

  /** The step that brings the service of a request forward, once the link is down. */
  function TowardsStore(t: TaskPc): Event {
    match t
    case Closing => TaskClose
    case AwaitDown => TaskAwait
    case Hanging => TaskHang
    case _ => TaskStore
  }

  /** A service that has begun can always end, without a step of the client. */
  lemma GetsServed(s: State, t: State) returns (u: State)
    requires Reaches(s, t) && Inv(t) && Waiting(t.clientPc) && Serving(t.taskPc)
    ensures Reaches(s, u) && Inv(u) && u.clientPc == t.clientPc && u.flag == 0 && u.acts == SERVED
    ensures u.taskPc == if t.taskEnd < 0 then Leaving else AwaitReconnect
    decreases 4 - Stage(t.taskPc)
  {
    var down, e := Next(t, Callback(false)), TowardsStore(t.taskPc);
    ReachesNext(s, t, Callback(false));
    NextKeepsInv(t, Callback(false));
    ReachesNext(s, down, e);
    NextKeepsInv(down, e);
    u := Next(down, e);
    if !t.taskPc.Storing? {
      u := GetsServed(s, u);
    }
  }

  /** A waiting client whose request is not lost can still return. */
  lemma CanReturn(s: State) returns (u: State)
    requires Inv(s) && Waiting(s.clientPc) && !Lost(s)
    ensures Reaches(s, u) && u.clientPc.Outside?
  {
    ReachesItself(s);
    u := s;
    if s.acts == [] {
      u := GetsPickedUp(s, u);
    }
    ReachesNext(s, u, ClientPoll);
    NextKeepsInv(u, ClientPoll);
    u := Next(u, ClientPoll);
    if !u.clientPc.Outside? {
      u := GetsServed(s, u);
      ReachesNext(s, u, ClientPoll);
      u := Next(u, ClientPoll);
    }
  }

  /** Main result: from any reachable state a waiting client can still return exactly when its request is
      not lost; once it is, every continuation leaves the client waiting. */
  lemma ReturnsUnlessLost(s: State, events: seq<Event>)
    requires Start(s) && Waiting(Run(s, events).clientPc)
    ensures var now := Run(s, events);
            (exists later :: Reaches(now, later) && later.clientPc.Outside?) <==> !Lost(now)
  {
    RunKeepsInv(s, events);
    var now := Run(s, events);
    if Lost(now) {
      forall later | Reaches(now, later) ensures !later.clientPc.Outside? {
        var more :| Run(now, more) == later;
        RunKeepsLost(now, more);
      }
    } else {
      var later := CanReturn(now);
    }
  }

  /** The price of polling: as long as the client is in its first wait its request can still get lost,
      because all of the service fits between two of its looks at the flag. */
  lemma FirstWaitCanLose(s: State, events: seq<Event>)
    requires Start(s) && Run(s, events).clientPc.WaitNonzero?
    ensures exists later :: Reaches(Run(s, events), later) && Lost(later)
  {
    RunKeepsInv(s, events);
    var now := Run(s, events);
    ReachesItself(now);
    if !Lost(now) {
      var later := now;
      if now.acts == [] {
        later := GetsPickedUp(now, later);
      }
      later := GetsServed(now, later);
    }
  }

  // ---- calling again: ppposInit ----

  predicate ByClient(e: Event) { e.ClientCall? || e.ClientRequest? || e.ClientPoll? || e.ClientInit? }

  /** t follows from s by steps of the task and the callback alone. */
  ghost predicate ReachesAlone(s: State, t: State) {
    exists events :: (forall e <- events :: !ByClient(e)) && Run(s, events) == t
  }

  lemma ReachesAloneNext(s: State, t: State, e: Event)
    requires ReachesAlone(s, t) && !ByClient(e)
    ensures ReachesAlone(s, Next(t, e))
  {
    var events :| (forall e <- events :: !ByClient(e)) && Run(s, events) == t;
    assert (events + [e])[..|events|] == events;
    assert Run(s, events + [e]) == Next(t, e);
  }

  /** The modem loop runs with the link up and no request pending. */
  predicate Online(s: State) { s.taskPc.Looping? && s.status.Connected? && s.flag == 1 }

  /** A task that has been asked to connect and is not leaving can come up by itself. */
  lemma GetsOnline(s: State, t: State) returns (u: State)
    requires ReachesAlone(s, t) && Inv(t) && t.clientPc.Outside? && t.flag == 1
    requires !t.taskPc.Absent? && !t.taskPc.Leaving?
    ensures ReachesAlone(s, u) && Online(u)
    decreases StepsToLoop(t.taskPc)
  {
    if t.taskPc.Looping? {
      ReachesAloneNext(s, t, Callback(true));
      u := Next(t, Callback(true));
    } else {
      var e := TowardsPickUp(t.taskPc);
      ReachesAloneNext(s, t, e);
      NextKeepsInv(t, e);
      u := GetsOnline(s, Next(t, e));
    }
  }

  lemma {:induction false} LeavesForGood(s: State, events: seq<Event>)
    requires (s.taskPc.Leaving? || s.taskPc.Absent?) && forall e <- events :: !ByClient(e)
    ensures var t := Run(s, events); t.taskPc.Leaving? || t.taskPc.Absent?
  {
    if events != [] {
      var front, e := events[..|events| - 1], events[|events| - 1];
      LeavesForGood(s, front);
      assert e in events;
      assert !ByClient(e);
    }
  }

  /** Main result: from every reachable state with the client outside, ppposInit asks for a connection, and after it
      task and callback alone can bring the link up exactly when the task was not just leaving. */
  lemma {:induction false} InitComesUpUnlessLeaving(s: State, events: seq<Event>)
    requires Start(s) && Run(s, events).clientPc.Outside?
    ensures var now := Run(s, events); var asked := Next(now, ClientInit);
            && asked.flag == 1 && asked.clientPc.Outside?
            && ((exists later :: ReachesAlone(asked, later) && Online(later)) <==> !now.taskPc.Leaving?)
  {
    RunKeepsInv(s, events);
    var asked := Next(Run(s, events), ClientInit);
    NextKeepsInv(Run(s, events), ClientInit);
    if asked.taskPc.Leaving? {
      forall later | ReachesAlone(asked, later) ensures !Online(later) {
        var more :| (forall e <- more :: !ByClient(e)) && Run(asked, more) == later;
        LeavesForGood(asked, more);
      }
    } else {
      assert Run(asked, []) == asked;
      var later := GetsOnline(asked, asked);
    }
  }

  lemma {:induction false} ReachesOn(s: State, t: State, more: seq<Event>)
    requires Reaches(s, t)
    ensures Reaches(s, Run(t, more))
  {
    if more != [] {
      ReachesOn(s, t, more[..|more| - 1]);
      ReachesNext(s, Run(t, more[..|more| - 1]), more[|more| - 1]);
    }
  }

  /** A task that is leaving goes, and then the next call starts a new one: from every reachable state with the client
      outside the link can come up again. */
  lemma {:induction false} CanComeUpAgain(s: State, events: seq<Event>)
    requires Start(s) && Run(s, events).clientPc.Outside?
    ensures exists later :: Reaches(Run(s, events), later) && Online(later)
  {
    var now := Run(s, events);
    RunKeepsInv(s, events);
    ReachesItself(now);
    var t := now;
    if now.taskPc.Leaving? {
      ReachesNext(now, t, TaskExit);
      NextKeepsInv(t, TaskExit);
      t := Next(t, TaskExit);
    }
    ReachesNext(now, t, ClientInit);
    NextKeepsInv(t, ClientInit);
    t := Next(t, ClientInit);
    assert Run(t, []) == t;
    var later := GetsOnline(t, t);
    var more :| (forall e <- more :: !ByClient(e)) && Run(t, more) == later;
    ReachesOn(now, t, more);
  }

  /** Since the task last stored its zero, the last call to write the flag was a ppposInit or a request to end the
      task. */
  ghost predicate AskedSince(s: State, events: seq<Event>) {
    events != [] &&
    var front, e := events[..|events| - 1], events[|events| - 1];
    var before := Run(s, front);
    if e.ClientInit? && before.clientPc.Outside? then true
    else if e.ClientRequest? && before.clientPc.Delay? then before.endTask
    else if e.TaskStore? && before.taskPc.Storing? then false
    else AskedSince(s, front)
  }

  lemma WaitStep(s: State, e: Event)
    requires Inv(s) && Next(s, e).taskPc.AwaitReconnect?
    ensures s.taskPc.AwaitReconnect? || (e.TaskStore? && s.taskPc.Storing?)
    ensures Next(s, e).flag != 0 <==>
            if e.ClientInit? && s.clientPc.Outside? then true
            else if e.ClientRequest? && s.clientPc.Delay? then s.endTask
            else if e.TaskStore? && s.taskPc.Storing? then false
            else s.flag != 0
  {
  }

  lemma {:induction false} WaitsForAFlag(s: State, events: seq<Event>)
    requires Start(s) && Run(s, events).taskPc.AwaitReconnect?
    ensures Run(s, events).flag != 0 <==> AskedSince(s, events)
  {
    if events != [] {
      var front, e := events[..|events| - 1], events[|events| - 1];
      RunKeepsInv(s, front);
      WaitStep(Run(s, front), e);
      if Run(s, front).taskPc.AwaitReconnect? {
        WaitsForAFlag(s, front);
      }
    }
  }

  /** Main result: in every run the task's wait for a reconnect request ends exactly when such a call has been made
      since the service that it waits after. */
  lemma {:induction false} ReconnectsIffAsked(s: State, events: seq<Event>)
    requires Start(s) && Run(s, events).taskPc.AwaitReconnect?
    ensures var t := Next(Run(s, events), TaskReconnect);
            if AskedSince(s, events) then t.taskPc.Initialising? else t == Run(s, events)
  {
    WaitsForAFlag(s, events);
  }

  // ---- each way to lose a request, from the start ----

  /** The request of a client whose PPP task does not exist. */
  lemma LostWithoutATask(s: State, endTask: bool)
    requires Start(s)
    ensures exists t :: Reaches(s, t) && Lost(t) && t.clientPc.WaitNonzero? && t.taskPc.Absent? &&
                        t.flag == if endTask then -1 else 0
  {
    ReachesItself(s);
    ReachesNext(s, s, ClientCall(endTask));
    ReachesNext(s, Next(s, ClientCall(endTask)), ClientRequest);
    assert Lost(Next(Next(s, ClientCall(endTask)), ClientRequest));
  }

  /** From the start, with the link up: the task in its modem loop, the client in its delay. */
  lemma ReachesDelay(s: State, endTask: bool) returns (t: State)
    requires Start(s)
    ensures Reaches(s, t) && t.status.Connected? && t.flag == 1 && t.taskPc.Looping? && t.acts == []
    ensures t.clientPc.Delay? && t.endTask == endTask
  {
    ReachesItself(s);
    t := s;
    ReachesNext(s, t, ClientInit);
    t := Next(t, ClientInit);
    ReachesNext(s, t, TaskStart);
    t := Next(t, TaskStart);
    ReachesNext(s, t, TaskInitialised);
    t := Next(t, TaskInitialised);
    ReachesNext(s, t, Callback(true));
    t := Next(t, Callback(true));
    ReachesNext(s, t, ClientCall(endTask));
    t := Next(t, ClientCall(endTask));
  }

  /** Then the link drops, the task starts again, and its initialisation fails. */
  lemma ReachesLeaving(s: State, endTask: bool) returns (t: State)
    requires Start(s)
    ensures Reaches(s, t) && t.taskPc.Leaving? && t.clientPc.Delay? && t.endTask == endTask
  {
    t := ReachesDelay(s, endTask);
    ReachesNext(s, t, Callback(false));
    t := Next(t, Callback(false));
    ReachesNext(s, t, TaskLook);
    t := Next(t, TaskLook);
    ReachesNext(s, t, TaskRetry);
    t := Next(t, TaskRetry);
    ReachesNext(s, t, TaskInitFails);
    t := Next(t, TaskInitFails);
  }

  /** The request of a client whose task goes away during its delay. */
  lemma LostToALeavingTask(s: State, endTask: bool)
    requires Start(s)
    ensures exists t :: Reaches(s, t) && Lost(t) && t.clientPc.WaitNonzero? && t.taskPc.Leaving? &&
                        t.flag == if endTask then -1 else 0
  {
    var t := ReachesLeaving(s, endTask);
    ReachesNext(s, t, ClientRequest);
    assert Lost(Next(t, ClientRequest));
  }

  /** The whole service passes before the client's first look: served in full, and lost. */
  lemma LostThoughServed(s: State, endTask: bool)
    requires Start(s)
    ensures exists t :: Reaches(s, t) && Lost(t) && t.acts == SERVED &&
                        t.taskPc == if endTask then Leaving else AwaitReconnect
  {
    var t := ReachesDelay(s, endTask);
    ReachesNext(s, t, ClientRequest);
    t := Next(t, ClientRequest);
    ReachesInv(s, t);
    t := GetsPickedUp(s, t);
    t := GetsServed(s, t);
    assert Lost(t);
  }

  // ---- the code ----

  lemma OthersLeaveClient(s: State, e: Event)
    requires !ByClient(e)
    ensures var n := Next(s, e); n.clientPc == s.clientPc && n.endTask == s.endTask && n.returned == s.returned
  {
  }

  predicate ByTask(e: Event) { !ByClient(e) && !e.Callback? }

  lemma OthersLeaveTask(s: State, e: Event)
    requires !ByTask(e)
    ensures var n := Next(s, e); s.taskPc.Absent? || (n.taskPc == s.taskPc && n.taskEnd == s.taskEnd)
  {
  }

  /** How the task comes out of serving a request: to its exit, to a new initialisation, or not yet. */
  datatype ServiceEnd = ToExit | ToInit | Unfinished

  /** How a call of ppposInit ends: the link is up, the task is gone, or the schedule ends first. */
  datatype InitOutcome = LinkUp | TaskGone | StillTrying

  /** How a call of ppposDisconnect stands when the schedule ends: not needed, returned, or still waiting. */
  datatype Outcome = Skipped | Returned | StillWaiting

  /** The shared variables with where each side stands, and the steps taken so far. What the other side and
      the callback do between two sections under the mutex is an arbitrary list of steps. */
  class Link {
    var s: State
    ghost var start: State
    ghost var log: seq<Event>

    /** All that happened is a run of the state machine. */
    ghost predicate Valid()
      reads this
    {
      Start(start) && s == Run(start, log) && Inv(s)
    }

    constructor ()
      ensures Valid()
    {
      s := State(FirstInit, 1, Outside, false, Absent, 0, [], false);
      start, log := State(FirstInit, 1, Outside, false, Absent, 0, [], false), [];
    }

    /** Records the step e, just taken from `before`. */
    ghost method Log(e: Event, before: State)
      requires Start(start) && before == Run(start, log) && Inv(before) && s == Next(before, e)
      modifies this`log
      ensures Valid() && log == old(log) + [e]
    {
      assert (log + [e])[..|log|] == log;
      log := log + [e];
      NextKeepsInv(before, e);
    }

    /** The task and the callback run while the client is outside the mutex. */
    method WhileClientSleeps(events: seq<Event>)
      requires Valid() && forall e <- events :: !ByClient(e)
      modifies this
      ensures Valid() && start == old(start) && old(log) <= log
      ensures s.clientPc == old(s.clientPc) && s.endTask == old(s.endTask)
    {
      for k := 0 to |events|
        invariant Valid() && start == old(start) && old(log) <= log
        invariant s.clientPc == old(s.clientPc) && s.endTask == old(s.endTask)
      {
        ghost var before := s;
        s := Next(s, events[k]);
        OthersLeaveClient(before, events[k]);
        Log(events[k], before);
      }
    }

    /** ppposInit, with what the others do in each delay of its wait: the flag is set, a missing task is started, and
        then status and task are looked at until the link is up or the task is gone. A task just created
        counts as started. */
    method PpposInit(between: seq<seq<Event>>) returns (outcome: InitOutcome)
      requires Valid() && s.clientPc.Outside?
      requires forall events <- between, e <- events :: !ByClient(e)
      modifies this
      ensures Valid() && start == old(start) && old(log) + [ClientInit] <= log && s.clientPc.Outside?
      ensures match outcome
              case LinkUp => s.status.Connected? && !s.taskPc.Absent?
              case TaskGone => s.taskPc.Absent?
              case StillTrying => between == [] || (!s.status.Connected? && !s.taskPc.Absent?)
    {
      ghost var before := s;
      s := s.(flag := 1, taskPc := if s.taskPc.Absent? then Starting else s.taskPc);
      Log(ClientInit, before);
      outcome := StillTrying;
      var k := 0;
      while outcome == StillTrying && k < |between|
        invariant 0 <= k <= |between| && Valid() && start == old(start) && old(log) + [ClientInit] <= log
        invariant s.clientPc.Outside?
        invariant match outcome
                  case LinkUp => s.status.Connected? && !s.taskPc.Absent?
                  case TaskGone => s.taskPc.Absent?
                  case StillTrying => k == 0 || (!s.status.Connected? && !s.taskPc.Absent?)
      {
        WhileClientSleeps(between[k]);
        if s.taskPc.Absent? {
          outcome := TaskGone;
        } else if s.status == Connected {
          outcome := LinkUp;
        }
        k := k + 1;
      }
    }

    /** One turn of either wait: a read of the flag. */
    method Poll() returns (gstat: int)
      requires Valid() && Waiting(s.clientPc)
      modifies this
      ensures Valid() && start == old(start) && old(log) <= log
      ensures gstat == old(s.flag) && s == Next(old(s), ClientPoll) && |log| > |old(log)|
    {
      ghost var before := s;
      gstat := s.flag;
      if s.clientPc.WaitNonzero? && gstat != 0 {
        s := s.(clientPc := WaitZero);
      } else if s.clientPc.WaitZero? && gstat == 0 {
        s := s.(clientPc := Outside, returned := true);
      }
      Log(ClientPoll, before);
    }

    /** The test and the request at the head of ppposDisconnect. */
    method Request(end: bool, delay: seq<Event>)
      requires Valid() && s.clientPc.Outside? && s.status != Idle
      requires forall e <- delay :: !ByClient(e)
      modifies this
      ensures Valid() && start == old(start) && old(log) <= log
      ensures s.clientPc.WaitNonzero? && s.endTask == end
    {
      ghost var before := s;
      s := s.(clientPc := Delay, endTask := end);
      Log(ClientCall(end), before);
      WhileClientSleeps(delay);
      before := s;
      s := s.(flag := if end then -1 else 0, clientPc := WaitNonzero, acts := [], returned := false);
      Log(ClientRequest, before);
    }

    /** The first wait, until the flag is nonzero or the schedule ends; answers the last read and how much of
        the schedule is used up. */
    method WaitNonzeroFlag(between: seq<seq<Event>>) returns (gstat: int, k: nat)
      requires Valid() && s.clientPc.WaitNonzero?
      requires forall events <- between, e <- events :: !ByClient(e)
      modifies this
      ensures Valid() && start == old(start) && old(log) <= log && k <= |between|
      ensures s.clientPc == if gstat == 0 then WaitNonzero else WaitZero
      ensures gstat == 0 ==> k == |between|
      ensures s.endTask == old(s.endTask) && |log| >= |old(log)| + k
    {
      gstat, k := 0, 0;
      while gstat == 0 && k < |between|
        invariant k <= |between| && Valid() && start == old(start) && old(log) <= log
        invariant s.clientPc == if gstat == 0 then WaitNonzero else WaitZero
        invariant s.endTask == old(s.endTask) && |log| >= |old(log)| + k
      {
        gstat := Poll();
        WhileClientSleeps(between[k]);
        k := k + 1;
      }
    }

    /** The second wait, until the flag is zero or the schedule ends. */
    method WaitZeroFlag(between: seq<seq<Event>>) returns (gstat: int)
      requires Valid() && s.clientPc.WaitZero?
      requires forall events <- between, e <- events :: !ByClient(e)
      modifies this
      ensures Valid() && start == old(start) && old(log) <= log
      ensures if gstat == 0 then s.clientPc.Outside? && s.acts == SERVED else s.clientPc.WaitZero?
      ensures s.endTask == old(s.endTask) && (gstat != 0 ==> |log| >= |old(log)| + |between|)
    {
      gstat := 1;
      var k := 0;
      while gstat != 0 && k < |between|
        invariant 0 <= k <= |between| && Valid() && start == old(start) && old(log) <= log
        invariant if gstat == 0 then s.clientPc.Outside? && s.returned else s.clientPc.WaitZero?
        invariant s.endTask == old(s.endTask) && |log| >= |old(log)| + k
      {
        WhileClientSleeps(between[k]);
        gstat := Poll();
        k := k + 1;
      }
    }

    /** ppposDisconnect, with what the others do in its delay and around each turn of its two waits. When it
        returns after its request, the request has been served in full; when it still waits, it has looked
        at the flag in each turn that the schedule has. */
    method PpposDisconnect(end: bool, delay: seq<Event>, between: seq<seq<Event>>) returns (outcome: Outcome)
      requires Valid() && s.clientPc.Outside?
      requires forall e <- delay :: !ByClient(e)
      requires forall events <- between, e <- events :: !ByClient(e)
      modifies this
      ensures Valid() && start == old(start) && old(log) <= log
      ensures outcome == Skipped <==> old(s.status) == Idle
      ensures outcome == Skipped ==> s == old(s)
      ensures outcome == Returned ==> s.clientPc.Outside? && s.acts == SERVED
      ensures outcome == StillWaiting ==> Waiting(s.clientPc) && |log| >= |old(log)| + |between|
      ensures outcome != Skipped ==> s.endTask == end
    {
      if s.status == Idle {
        return Skipped;
      }
      Request(end, delay);
      var gstat, k := WaitNonzeroFlag(between);
      if gstat == 0 {
        return StillWaiting;
      }
      gstat := WaitZeroFlag(between[k..]);
      outcome := if gstat == 0 then Returned else StillWaiting;
    }

    /** The client and the callback run while the task is outside the mutex. */
    method WhileTaskWorks(events: seq<Event>)
      requires Valid() && !s.taskPc.Absent? && forall e <- events :: !ByTask(e)
      modifies this
      ensures Valid() && start == old(start) && old(log) <= log
      ensures s.taskPc == old(s.taskPc) && s.taskEnd == old(s.taskEnd)
    {
      for k := 0 to |events|
        invariant Valid() && start == old(start) && old(log) <= log
        invariant s.taskPc == old(s.taskPc) && s.taskEnd == old(s.taskEnd)
      {
        ghost var before := s;
        s := Next(s, events[k]);
        OthersLeaveTask(before, events[k]);
        Log(events[k], before);
      }
    }

    /** The pick-up under the mutex, and the call that closes PPP. */
    method PickUpAndClose()
      requires Valid() && s.taskPc.Looping? && s.flag <= 0
      modifies this
      ensures Valid() && start == old(start) && old(log) <= log
      ensures s.taskPc.AwaitDown? && s.taskEnd == old(s.flag)
    {
      ghost var before := s;
      s := s.(taskEnd := s.flag, flag := 1, taskPc := Closing, acts := s.acts + [PickUp]);
      Log(TaskLook, before);
      before := s;
      s := s.(taskPc := AwaitDown, acts := s.acts + [ClosePpp]);
      Log(TaskClose, before);
    }

    /** The wait for the link to go down; answers whether it is down. */
    method AwaitLinkDown(between: seq<seq<Event>>) returns (down: bool)
      requires Valid() && s.taskPc.AwaitDown?
      requires forall events <- between, e <- events :: !ByTask(e)
      modifies this
      ensures Valid() && start == old(start) && old(log) <= log
      ensures s.taskEnd == old(s.taskEnd) && if down then s.taskPc.Hanging? else s.taskPc.AwaitDown?
    {
      var k := 0;
      while s.status != Disconnected && k < |between|
        invariant 0 <= k <= |between| && Valid() && start == old(start) && old(log) <= log
        invariant s.taskPc.AwaitDown? && s.taskEnd == old(s.taskEnd)
      {
        WhileTaskWorks(between[k]);
        k := k + 1;
      }
      down := s.status == Disconnected;
      if down {
        ghost var before := s;
        s := s.(taskPc := Hanging, acts := s.acts + [SawDown]);
        Log(TaskAwait, before);
      }
    }

    /** _disconnect, then the store of IDLE and 0 under the mutex. */
    method HangUpAndStore(hanging: seq<Event>)
      requires Valid() && s.taskPc.Hanging?
      requires forall e <- hanging :: !ByTask(e)
      modifies this
      ensures Valid() && start == old(start) && old(log) <= log
      ensures s.taskEnd == old(s.taskEnd) && s.taskPc == if s.taskEnd < 0 then Leaving else AwaitReconnect
      ensures s.status.Idle? && s.flag == 0 && s.acts == SERVED
    {
      WhileTaskWorks(hanging);
      ghost var before := s;
      s := s.(taskPc := Storing, acts := s.acts + [RunDisconnect]);
      Log(TaskHang, before);
      before := s;
      s := s.(status := Idle, flag := 0, acts := s.acts + [StoreIdleAndZero],
              taskPc := if s.taskEnd < 0 then Leaving else AwaitReconnect);
      Log(TaskStore, before);
    }

    /** The wait for a reconnect request. */
    method AwaitRequest(between: seq<seq<Event>>) returns (requested: bool)
      requires Valid() && s.taskPc.AwaitReconnect?
      requires forall events <- between, e <- events :: !ByTask(e)
      modifies this
      ensures Valid() && start == old(start) && old(log) <= log
      ensures if requested then s.taskPc.Initialising? && s.flag != 0 else s.taskPc.AwaitReconnect? && s.flag == 0
    {
      var k := 0;
      while s.flag == 0 && k < |between|
        invariant 0 <= k <= |between| && Valid() && start == old(start) && old(log) <= log
        invariant s.taskPc.AwaitReconnect?
      {
        WhileTaskWorks(between[k]);
        k := k + 1;
      }
      requested := s.flag != 0;
      if requested {
        ghost var before := s;
        s := s.(taskPc := Initialising);
        Log(TaskReconnect, before);
      }
    }

    /** The request branch of the modem loop, with what the others do in each of its waits: it exits only for
        a request to end the task, and goes back to the initialisation only for a nonzero flag. */
    method ServeRequest(closing: seq<seq<Event>>, hanging: seq<Event>, waiting: seq<seq<Event>>)
      returns (end: ServiceEnd)
      requires Valid() && s.taskPc.Looping? && s.flag <= 0
      requires forall events <- closing, e <- events :: !ByTask(e)
      requires forall e <- hanging :: !ByTask(e)
      requires forall events <- waiting, e <- events :: !ByTask(e)
      modifies this
      ensures Valid() && start == old(start) && old(log) <= log
      ensures end == ToExit ==> old(s.flag) < 0 && s.taskPc.Leaving? && s.flag == 0 && s.acts == SERVED
      ensures end == ToInit ==> old(s.flag) == 0 && s.taskPc.Initialising? && s.flag != 0
    {
      PickUpAndClose();
      var down := AwaitLinkDown(closing);
      if !down {
        return Unfinished;
      }
      HangUpAndStore(hanging);
      if s.taskEnd < 0 {
        return ToExit;
      }
      var requested := AwaitRequest(waiting);
      end := if requested then ToInit else Unfinished;
    }
  }
}
