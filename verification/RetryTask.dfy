/** The publishing task: it takes a packet from the outgoing queue, publishes it on the data topic and,
    with a GPS fix, on the GPS topic, and retries over write failures, disconnects and reconnects. */
module RetryTask {
  import opened Bytes

  const RECONNECT_TIMEOUT_MS := 10000

  datatype Phase = Init | Connected | WaitTimeout

  /** What the world answers during one turn of the task's loop. */
  datatype Turn<P> = Turn(
    pppUp: bool,             // ppposInit
    connects: bool,          // transport_connect
    accepted: bool,          // the MQTT CONNECT exchange
    disconnects: bool,       // ppposDisconnect after a failed one of these returns
    dataWritten: int,        // transport_write for the data topic
    gpsWritten: int,         // transport_write for the GPS topic
    received: int,           // transport_read in mqtt_process_receive
    pingWritten: int,        // transport_write for a PINGREQ
    head: Option<P>,         // xQueueReceive
    now: int,                // platform_tick_get_ms where it is tested
    later: int)              // and where it is stored

  datatype Config = Config(autoReconnect: bool, keepAliveSeconds: int)

  /** The connection's part of the task: what the transport's troubles change. */
  datatype Link = Link(
    running: bool,           // client->run; false from the start without a transport
    hung: bool,              // inside a ppposDisconnect that never returns
    phase: Phase, attempt: int, keepAliveTick: int, reconnectTick: int, waitTimeoutMs: int)

  /** The packet's part of the task. */
  datatype Job<P> = Job(
    msgId: int,              // result of the last publish on the data topic
    msgId2: int,             // result of the last publish on the GPS topic
    gps: bool,               // mensaje.GPS
    packet: P,               // pxRxedMessage
    dequeued: seq<P>,        // history: packets taken from the queue
    dataLog: seq<P>,         // history: writes the transport accepted on the data topic
    gpsLog: seq<P>)          // history: and on the GPS topic

  datatype State<P> = State(link: Link, job: Job<P>)

  function Abort<P>(l: Link, t: Turn<P>): Link {
    l.(phase := WaitTimeout, waitTimeoutMs := RECONNECT_TIMEOUT_MS, reconnectTick := t.later)
  }

  /** An abort after which the task also drops the PPP link. */
  function GiveUp<P>(l: Link, t: Turn<P>): Link { Abort(l, t).(hung := !t.disconnects) }

  function PublishData<P>(j: Job<P>, t: Turn<P>): Job<P> {
    if t.dataWritten > 0 then j.(msgId := 0, dataLog := j.dataLog + [j.packet]) else j.(msgId := -1)
  }

  function PublishGps<P>(j: Job<P>, t: Turn<P>): Job<P> {
    if t.gpsWritten > 0 then j.(msgId2 := 0, gpsLog := j.gpsLog + [j.packet]) else j.(msgId2 := -1)
  }

  /** mqtt_process_receive and the keep-alive ping that end every publishing turn. */
  function Receive<P>(l: Link, t: Turn<P>, c: Config): Link {
    if t.received < 0 then Abort(l, t)
    else if t.now - l.keepAliveTick > c.keepAliveSeconds * 1000 / 2 then
      if t.pingWritten <= 0 then Abort(l, t) else l.(keepAliveTick := t.later)
    else l
  }

  predicate Retrying<P>(j: Job<P>) { j.msgId < 0 || (j.msgId2 < 0 && j.gps) }

  function Take<P>(j: Job<P>, p: P, fix: P -> bool): Job<P> {
    j.(packet := p, gps := fix(p), dequeued := j.dequeued + [p])
  }

  /** What a connected turn does to the packet; `fix` tells whether a packet formats with a GPS fix. */
  function NextJob<P>(j: Job<P>, t: Turn<P>, fix: P -> bool): Job<P> {
    var retry := j.(gps := fix(j.packet));
    if j.msgId < 0 && j.msgId2 < 0 && j.gps then PublishGps(PublishData(retry, t), t)
    else if j.msgId2 < 0 && j.gps then PublishGps(retry, t)
    else if j.msgId < 0 then PublishData(retry, t)
    else
      match t.head
      case None => j.(msgId := 0, msgId2 := 0)
      case Some(p) =>
        var sent := PublishData(Take(j, p, fix), t);
        if fix(p) then PublishGps(sent, t) else sent
  }

  /** And to the connection: an idle turn does not touch it. */
  function NextLink<P>(l: Link, j: Job<P>, t: Turn<P>, c: Config): Link {
    if Retrying(j) then Receive(l.(attempt := l.attempt + 1), t, c)
    else if t.head.None? then l.(attempt := 1)
    else Receive(l.(attempt := 1), t, c)
  }

  /** A turn without a connection. */
  function Reconnect<P>(l: Link, t: Turn<P>, c: Config): Link {
    if !t.pppUp then l.(phase := Init, reconnectTick := t.later)
    else if l.phase.Init? then
      if !t.connects then GiveUp(l, t)
      else if !t.accepted then GiveUp(l, t).(attempt := if t.disconnects then l.attempt + 1 else l.attempt)
      else l.(phase := Connected)
    else if !c.autoReconnect then l.(running := false)
    else if t.now - l.reconnectTick > l.waitTimeoutMs then l.(phase := Init, reconnectTick := t.later)
    else l
  }

  function Next<P>(s: State<P>, t: Turn<P>, c: Config, fix: P -> bool): State<P> {
    if !s.link.running || s.link.hung then s
    else if t.pppUp && s.link.phase.Connected? then State(NextLink(s.link, s.job, t, c), NextJob(s.job, t, fix))
    else s.(link := Reconnect(s.link, t, c))
  }

  /** The task begins with nothing taken and both results zero; the message buffer is uninitialised, and
      without a transport it never runs. */
  predicate Start<P>(s: State<P>) {
    && s.link.phase.Init? && !s.link.hung
    && s.job.msgId == 0 && s.job.msgId2 == 0
    && s.job.dequeued == [] && s.job.dataLog == [] && s.job.gpsLog == []
  }

  ghost function Run<P>(s: State<P>, turns: seq<Turn<P>>, c: Config, fix: P -> bool): State<P> {
    if turns == [] then s else Next(Run(s, turns[..|turns| - 1], c, fix), turns[|turns| - 1], c, fix)
  }

  /** The packets with a fix, in order. */
  function Fixed<P>(ps: seq<P>, fix: P -> bool): seq<P> {
    if ps == [] then []
    else Fixed(ps[..|ps| - 1], fix) + if fix(ps[|ps| - 1]) then [ps[|ps| - 1]] else []
  }

  /** All packets taken when the last publish succeeded, else all but the last. */
  function Settled<P>(dequeued: seq<P>, result: int): seq<P> {
    if result >= 0 || dequeued == [] then dequeued else dequeued[..|dequeued| - 1]
  }

  /** The packet in hand is the last one taken. */
  ghost predicate InHand<P>(j: Job<P>, fix: P -> bool) {
    j.dequeued != [] && j.packet == j.dequeued[|j.dequeued| - 1] && j.gps == fix(j.packet)
  }

  /** Each topic has every packet it should have exactly once and in order, except that the last one
      taken is missing while its publish result is negative. */
  ghost predicate Inv<P>(j: Job<P>, fix: P -> bool) {
    && j.dataLog == Settled(j.dequeued, j.msgId)
    && j.gpsLog == Fixed(Settled(j.dequeued, j.msgId2), fix)
    && (if j.dequeued == [] then j.msgId >= 0 && j.msgId2 >= 0 else InHand(j, fix))
    && (j.msgId2 < 0 ==> j.gps)
  }

  lemma DataSettles<P>(j: Job<P>, t: Turn<P>, fix: P -> bool)
    requires InHand(j, fix) && j.dataLog == j.dequeued[..|j.dequeued| - 1]
    ensures var k := PublishData(j, t); k.dataLog == Settled(j.dequeued, k.msgId)
  {
    assert j.dequeued == j.dequeued[..|j.dequeued| - 1] + [j.packet];
  }

  /** The write on the GPS topic completes what the write on the data topic left right. */
  lemma GpsCompletes<P>(j: Job<P>, t: Turn<P>, fix: P -> bool)
    requires InHand(j, fix) && j.gps && j.dataLog == Settled(j.dequeued, j.msgId)
    requires j.gpsLog == Fixed(j.dequeued[..|j.dequeued| - 1], fix)
    ensures Inv(PublishGps(j, t), fix)
  {
    var k := PublishGps(j, t);
    assert InHand(k, fix) && k.dataLog == j.dataLog;
    if t.gpsWritten > 0 {
      assert k.gpsLog == Fixed(j.dequeued, fix);
    }
  }

  lemma RetryBothKeepsInv<P>(j: Job<P>, t: Turn<P>, fix: P -> bool)
    requires Inv(j, fix) && j.msgId < 0 && j.msgId2 < 0
    ensures Inv(PublishGps(PublishData(j, t), t), fix)
  {
    DataSettles(j, t, fix);
    GpsCompletes(PublishData(j, t), t, fix);
  }

  lemma RetryGpsKeepsInv<P>(j: Job<P>, t: Turn<P>, fix: P -> bool)
    requires Inv(j, fix) && j.msgId >= 0 && j.msgId2 < 0
    ensures Inv(PublishGps(j, t), fix)
  {
    GpsCompletes(j, t, fix);
  }

  lemma RetryDataKeepsInv<P>(j: Job<P>, t: Turn<P>, fix: P -> bool)
    requires Inv(j, fix) && j.msgId < 0 && j.msgId2 >= 0
    ensures Inv(PublishData(j, t), fix)
  {
    DataSettles(j, t, fix);
  }

  lemma RetryKeepsInv<P>(j: Job<P>, t: Turn<P>, fix: P -> bool)
    requires Inv(j, fix) && Retrying(j)
    ensures Inv(NextJob(j, t, fix), fix)
  {
    assert j.(gps := fix(j.packet)) == j;
    if j.msgId2 >= 0 {
      RetryDataKeepsInv(j, t, fix);
    } else if j.msgId >= 0 {
      RetryGpsKeepsInv(j, t, fix);
    } else {
      RetryBothKeepsInv(j, t, fix);
    }
  }

  /** A packet just taken, with everything before it settled. */
  ghost predicate Fresh<P>(j: Job<P>, fix: P -> bool) {
    && InHand(j, fix) && j.msgId2 >= 0
    && j.dataLog == j.dequeued[..|j.dequeued| - 1]
    && j.gpsLog == Fixed(j.dequeued[..|j.dequeued| - 1], fix)
  }

  lemma TakenIsFresh<P>(j: Job<P>, p: P, fix: P -> bool)
    requires Inv(j, fix) && !Retrying(j)
    ensures Fresh(Take(j, p, fix), fix)
  {
    assert (j.dequeued + [p])[..|j.dequeued|] == j.dequeued;
  }

  lemma FreshWithoutFix<P>(j: Job<P>, t: Turn<P>, fix: P -> bool)
    requires Fresh(j, fix) && !j.gps
    ensures Inv(PublishData(j, t), fix)
  {
    DataSettles(j, t, fix);
    assert Fixed(j.dequeued, fix) == j.gpsLog;
  }

  lemma FreshWithFix<P>(j: Job<P>, t: Turn<P>, fix: P -> bool)
    requires Fresh(j, fix) && j.gps
    ensures Inv(PublishGps(PublishData(j, t), t), fix)
  {
    DataSettles(j, t, fix);
    GpsCompletes(PublishData(j, t), t, fix);
  }

  lemma FreshSettles<P>(j: Job<P>, t: Turn<P>, fix: P -> bool)
    requires Fresh(j, fix)
    ensures var sent := PublishData(j, t); Inv(if j.gps then PublishGps(sent, t) else sent, fix)
  {
    if j.gps {
      FreshWithFix(j, t, fix);
    } else {
      FreshWithoutFix(j, t, fix);
    }
  }

  lemma TakeKeepsInv<P>(j: Job<P>, t: Turn<P>, fix: P -> bool)
    requires Inv(j, fix) && !Retrying(j)
    ensures Inv(NextJob(j, t, fix), fix)
  {
    if t.head.Some? {
      TakenIsFresh(j, t.head.value, fix);
      FreshSettles(Take(j, t.head.value, fix), t, fix);
    }
  }

  lemma NextKeepsInv<P>(s: State<P>, t: Turn<P>, c: Config, fix: P -> bool)
    requires Inv(s.job, fix)
    ensures Inv(Next(s, t, c, fix).job, fix)
  {
    if Retrying(s.job) {
      RetryKeepsInv(s.job, t, fix);
    } else {
      TakeKeepsInv(s.job, t, fix);
    }
  }

  /** Main result: over every run with any failures, the accepted data writes are the packets taken, in
      order and once each, and the accepted GPS writes are those among them with a fix; at most the
      last packet taken is still missing on a topic. */
  lemma {:induction false} EachPacketOnce<P>(s: State<P>, turns: seq<Turn<P>>, c: Config, fix: P -> bool)
    requires Start(s)
    ensures Inv(Run(s, turns, c, fix).job, fix)
  {
    if turns != [] {
      var front := turns[..|turns| - 1];
      EachPacketOnce(s, front, c, fix);
      NextKeepsInv(Run(s, front, c, fix), turns[|turns| - 1], c, fix);
    }
  }

  /** A packet is taken only when every earlier one has been accepted on every topic it belongs to. */
  lemma TakenOnlyWhenSettled<P>(s: State<P>, turns: seq<Turn<P>>, t: Turn<P>, c: Config, fix: P -> bool)
    requires Start(s)
    requires var before := Run(s, turns, c, fix); Next(before, t, c, fix).job.dequeued != before.job.dequeued
    ensures var j := Run(s, turns, c, fix).job;
            j.dataLog == j.dequeued && j.gpsLog == Fixed(j.dequeued, fix)
  {
    EachPacketOnce(s, turns, c, fix);
  }

  /** A connected turn whose writes succeed settles the packet in hand, or takes and settles the next. */
  lemma GoodTurnSettles<P>(j: Job<P>, t: Turn<P>, fix: P -> bool)
    requires Inv(j, fix) && t.dataWritten > 0 && t.gpsWritten > 0
    ensures var k := NextJob(j, t, fix);
            && k.dataLog == k.dequeued && k.gpsLog == Fixed(k.dequeued, fix)
            && k.dequeued == j.dequeued + if Retrying(j) || t.head.None? then [] else [t.head.value]
  {
    if Retrying(j) {
      RetryKeepsInv(j, t, fix);
    } else {
      TakeKeepsInv(j, t, fix);
    }
  }

  /** Which writes a connected turn makes: on the data topic a retry after a failed data write or the packet just taken,
      on the GPS topic a retry after a failed GPS write or a packet just taken that has a fix. */
  predicate WritesData<P>(j: Job<P>, t: Turn<P>) { j.msgId < 0 || (!Retrying(j) && t.head.Some?) }

  predicate WritesGps<P>(j: Job<P>, t: Turn<P>, fix: P -> bool) {
    if Retrying(j) then j.msgId2 < 0 && j.gps else t.head.Some? && fix(t.head.value)
  }

  /** The packet that a connected turn ends with. */
  function Current<P>(j: Job<P>, t: Turn<P>): P {
    if !Retrying(j) && t.head.Some? then t.head.value else j.packet
  }

  /** In every run a write counts as accepted exactly when the transport answers a positive count, and then the result
      is zero; otherwise it is -1, and the write is tried again. */
  lemma WritesAfter<P>(s: State<P>, turns: seq<Turn<P>>, t: Turn<P>, c: Config, fix: P -> bool)
    requires Start(s)
    ensures var before := Run(s, turns, c, fix); var j, k := before.job, Next(before, t, c, fix).job;
            if before.link.running && !before.link.hung && before.link.phase.Connected? && t.pppUp then
              && k.packet == Current(j, t)
              && k.dataLog == j.dataLog + (if WritesData(j, t) && t.dataWritten > 0 then [k.packet] else [])
              && k.gpsLog == j.gpsLog + (if WritesGps(j, t, fix) && t.gpsWritten > 0 then [k.packet] else [])
              && (WritesData(j, t) ==> k.msgId == if t.dataWritten > 0 then 0 else -1)
              && (WritesGps(j, t, fix) ==> k.msgId2 == if t.gpsWritten > 0 then 0 else -1)
            else k == j
  {
    EachPacketOnce(s, turns, c, fix);
  }

  // ---- connecting and reconnecting ----

  /** The turn connects: PPP is up, the transport connects and the broker accepts. */
  predicate Shakes<P>(t: Turn<P>) { t.pppUp && t.connects && t.accepted }

  /** The turn of a connected task has nothing to send. */
  predicate IdleTurn<P>(j: Job<P>, t: Turn<P>) { j.msgId >= 0 && (j.msgId2 >= 0 || !j.gps) && t.head.None? }

  /** More than half the keep-alive period is over. */
  predicate PingDue<P>(l: Link, t: Turn<P>, c: Config) {
    t.now > l.keepAliveTick + c.keepAliveSeconds * 1000 / 2
  }

  /** The turn leaves a connected task connected: PPP is up, and a turn that is not idle had no failed read and
      wrote the ping if it was due. */
  predicate Keeps<P>(s: State<P>, t: Turn<P>, c: Config) {
    t.pppUp && (IdleTurn(s.job, t) || (t.received >= 0 && (PingDue(s.link, t, c) ==> t.pingWritten > 0)))
  }

  predicate WaitIsOver<P>(l: Link, t: Turn<P>) { t.now > l.reconnectTick + l.waitTimeoutMs }

  /** Which phase a turn of a running task ends in, and whether it is the last turn. */
  lemma PhaseAfter<P>(s: State<P>, t: Turn<P>, c: Config, fix: P -> bool)
    requires s.link.running && !s.link.hung
    ensures var l, m := s.link, Next(s, t, c, fix).link;
            && (m.phase.Connected? <==> if l.phase.Connected? then Keeps(s, t, c) else l.phase.Init? && Shakes(t))
            && (m.phase.Init? <==> !t.pppUp || (l.phase.WaitTimeout? && c.autoReconnect && WaitIsOver(l, t)))
            && (m.running <==> !(t.pppUp && l.phase.WaitTimeout? && !c.autoReconnect))
            && (m.hung <==> t.pppUp && l.phase.Init? && !(t.connects && t.accepted) && !t.disconnects)
  {
  }

  /** The clock readings a turn stores: the reconnect tick when the phase changes other than by connecting, with
      the reconnect timeout when it is an abort, and the keep-alive tick when a ping was due and written. */
  lemma TicksAfter<P>(s: State<P>, t: Turn<P>, c: Config, fix: P -> bool)
    requires s.link.running && !s.link.hung
    ensures var l, m := s.link, Next(s, t, c, fix).link;
            && (m.phase.WaitTimeout? && !l.phase.WaitTimeout? ==>
                  m.waitTimeoutMs == RECONNECT_TIMEOUT_MS && m.reconnectTick == t.later)
            && (m.phase.Init? ==> m.reconnectTick == t.later && m.waitTimeoutMs == l.waitTimeoutMs)
            && (m.phase == l.phase && t.pppUp ==>
                  m.reconnectTick == l.reconnectTick && m.waitTimeoutMs == l.waitTimeoutMs)
            && m.keepAliveTick ==
               if l.phase.Connected? && Keeps(s, t, c) && !IdleTurn(s.job, t) && PingDue(l, t, c) then t.later
               else l.keepAliveTick
  {
  }

  /** The number of the attempt, which goes out with each packet: 1 for a packet just taken, one more for each
      retry and for each refused handshake. */
  lemma AttemptAfter<P>(s: State<P>, t: Turn<P>, c: Config, fix: P -> bool)
    requires s.link.running && !s.link.hung
    ensures var l, m := s.link, Next(s, t, c, fix).link;
            && (l.phase.Connected? && t.pppUp ==> m.attempt == if Retrying(s.job) then l.attempt + 1 else 1)
            && (!(l.phase.Connected? && t.pppUp) ==>
                  m.attempt == l.attempt +
                    if l.phase.Init? && t.pppUp && t.connects && !t.accepted && t.disconnects then 1 else 0)
  {
  }

  /** A task that does not run, or hangs, does nothing more; and it stops only while it waits. */
  lemma {:induction false} StoppedForGood<P>(s: State<P>, turns: seq<Turn<P>>, c: Config, fix: P -> bool)
    requires !s.link.running || s.link.hung
    ensures Run(s, turns, c, fix) == s
  {
    if turns != [] {
      StoppedForGood(s, turns[..|turns| - 1], c, fix);
    }
  }

  lemma {:induction false} RunsUnlessWaiting<P>(s: State<P>, turns: seq<Turn<P>>, c: Config, fix: P -> bool)
    requires Start(s) && s.link.running
    ensures var l := Run(s, turns, c, fix).link; l.phase.WaitTimeout? || (l.running && !l.hung)
  {
    if turns != [] {
      RunsUnlessWaiting(s, turns[..|turns| - 1], c, fix);
    }
  }

  ghost predicate ConnectedAt<P>(s: State<P>, turns: seq<Turn<P>>, k: nat, c: Config, fix: P -> bool)
    requires k <= |turns|
  {
    Run(s, turns[..k], c, fix).link.phase.Connected?
  }

  ghost predicate Handshake<P>(s: State<P>, turns: seq<Turn<P>>, k: nat, c: Config, fix: P -> bool)
    requires k < |turns|
  {
    Run(s, turns[..k], c, fix).link.phase.Init? && Shakes(turns[k])
  }

  ghost predicate GoodTurn<P>(s: State<P>, turns: seq<Turn<P>>, i: nat, c: Config, fix: P -> bool)
    requires i < |turns|
  {
    Keeps(Run(s, turns[..i], c, fix), turns[i], c)
  }

  lemma RunStep<P>(s: State<P>, turns: seq<Turn<P>>, k: nat, c: Config, fix: P -> bool)
    requires k < |turns|
    ensures Run(s, turns[..k + 1], c, fix) == Next(Run(s, turns[..k], c, fix), turns[k], c, fix)
  {
    assert turns[..k + 1][..k] == turns[..k];
  }

  /** After each turn of a run the task is connected exactly when the turn kept the connection or made it. */
  lemma TurnBefore<P>(s: State<P>, turns: seq<Turn<P>>, k: nat, c: Config, fix: P -> bool)
    requires Start(s) && s.link.running && k < |turns|
    ensures ConnectedAt(s, turns, k + 1, c, fix) <==>
            if ConnectedAt(s, turns, k, c, fix) then GoodTurn(s, turns, k, c, fix)
            else Handshake(s, turns, k, c, fix)
  {
    RunStep(s, turns, k, c, fix);
    RunsUnlessWaiting(s, turns[..k], c, fix);
    var before := Run(s, turns[..k], c, fix);
    if before.link.running && !before.link.hung {
      PhaseAfter(before, turns[k], c, fix);
    }
  }

  /** The connection that stands at the end was made in turn k and kept by every turn since. */
  ghost predicate MadeAt<P>(s: State<P>, turns: seq<Turn<P>>, k: nat, c: Config, fix: P -> bool) {
    && k < |turns| && Handshake(s, turns, k, c, fix)
    && forall i :: k < i < |turns| ==> GoodTurn(s, turns, i, c, fix)
  }

  lemma {:induction false} MadeMeansConnected<P>(s: State<P>, turns: seq<Turn<P>>, k: nat, n: nat, c: Config,
                                                 fix: P -> bool)
    requires Start(s) && s.link.running && MadeAt(s, turns, k, c, fix) && k < n <= |turns|
    ensures ConnectedAt(s, turns, n, c, fix)
    decreases n
  {
    TurnBefore(s, turns, n - 1, c, fix);
    if n > k + 1 {
      MadeMeansConnected(s, turns, k, n - 1, c, fix);
      assert GoodTurn(s, turns, n - 1, c, fix);
    }
  }

  lemma {:induction false} ConnectedWasMade<P>(s: State<P>, turns: seq<Turn<P>>, c: Config, fix: P -> bool)
    returns (k: nat)
    requires Start(s) && s.link.running && ConnectedAt(s, turns, |turns|, c, fix)
    ensures MadeAt(s, turns, k, c, fix)
  {
    assert turns[..0] == [];
    k := |turns| - 1;
    TurnBefore(s, turns, k, c, fix);
    while ConnectedAt(s, turns, k, c, fix)
      invariant k < |turns| && ConnectedAt(s, turns, k + 1, c, fix)
      invariant if ConnectedAt(s, turns, k, c, fix) then k > 0 && GoodTurn(s, turns, k, c, fix)
                else Handshake(s, turns, k, c, fix)
      invariant forall i :: k < i < |turns| ==> GoodTurn(s, turns, i, c, fix)
      decreases k
    {
      k := k - 1;
      TurnBefore(s, turns, k, c, fix);
    }
  }

  /** Main result: over every run a task is connected exactly when it has a transport, some turn in the initial
      phase shook hands, and every turn since then kept the connection. */
  lemma {:induction false} ConnectedSinceHandshake<P>(s: State<P>, turns: seq<Turn<P>>, c: Config, fix: P -> bool)
    requires Start(s)
    ensures ConnectedAt(s, turns, |turns|, c, fix) <==>
            s.link.running && exists k: nat :: MadeAt(s, turns, k, c, fix)
  {
    if !s.link.running {
      StoppedForGood(s, turns[..|turns|], c, fix);
    } else if ConnectedAt(s, turns, |turns|, c, fix) {
      var k := ConnectedWasMade(s, turns, c, fix);
    } else {
      forall k: nat ensures !MadeAt(s, turns, k, c, fix) {
        if MadeAt(s, turns, k, c, fix) {
          MadeMeansConnected(s, turns, k, |turns|, c, fix);
        }
      }
    }
  }

  /** After an abort at time `since` the task waits: with PPP up, it does not try to connect again
      before a turn whose clock is past the reconnect timeout. */
  lemma {:induction false} BackOff<P>(s: State<P>, turns: seq<Turn<P>>, since: int, c: Config, fix: P -> bool)
    requires s.link.phase.WaitTimeout?
    requires s.link.reconnectTick == since && s.link.waitTimeoutMs == RECONNECT_TIMEOUT_MS
    requires forall t :: t in turns ==> t.pppUp && t.now - since <= RECONNECT_TIMEOUT_MS
    ensures var l := Run(s, turns, c, fix).link;
            l.phase.WaitTimeout? && l.reconnectTick == since && l.waitTimeoutMs == RECONNECT_TIMEOUT_MS
  {
    if turns != [] {
      BackOff(s, turns[..|turns| - 1], since, c, fix);
    }
  }

  /** Whenever the task waits, it waits for the reconnect timeout. */
  lemma {:induction false} WaitsTheTimeout<P>(s: State<P>, turns: seq<Turn<P>>, c: Config, fix: P -> bool)
    requires Start(s)
    ensures var l := Run(s, turns, c, fix).link; l.phase.WaitTimeout? ==> l.waitTimeoutMs == RECONNECT_TIMEOUT_MS
  {
    if turns != [] {
      WaitsTheTimeout(s, turns[..|turns| - 1], c, fix);
    }
  }

  /** In every run a successful handshake followed by a turn with PPP up and both writes accepted settles the packet
      in hand, or takes the next one and settles that. */
  lemma HandshakeThenGoodTurn<P>(s: State<P>, turns: seq<Turn<P>>, h: Turn<P>, g: Turn<P>, c: Config, fix: P -> bool)
    requires Start(s) && s.link.running && Run(s, turns, c, fix).link.phase.Init? && Shakes(h)
    requires g.pppUp && g.dataWritten > 0 && g.gpsWritten > 0
    ensures var before := Run(s, turns, c, fix).job;
            var after := Next(Next(Run(s, turns, c, fix), h, c, fix), g, c, fix).job;
            && after.dequeued == before.dequeued + (if Retrying(before) || g.head.None? then [] else [g.head.value])
            && after.dataLog == after.dequeued && after.gpsLog == Fixed(after.dequeued, fix)
  {
    EachPacketOnce(s, turns, c, fix);
    RunsUnlessWaiting(s, turns, c, fix);
    GoodTurnSettles(Run(s, turns, c, fix).job, g, fix);
  }

  // ---- a task that runs can always go on ----

  /** A turn in which everything works. */
  function Working<P>(head: Option<P>): Turn<P> { Turn(true, true, true, true, 1, 1, 0, 1, head, 0, 0) }

  /** A turn that finds PPP down. */
  function PppDown<P>(): Turn<P> { Working<P>(None).(pppUp := false) }

  predicate Ready<P>(s: State<P>) { s.link.running && !s.link.hung && s.link.phase.Connected? }

  lemma Reconnects<P>(s: State<P>, c: Config, fix: P -> bool)
    requires s.link.running && !s.link.hung
    ensures var t := Next(Next(s, PppDown(), c, fix), Working(None), c, fix); Ready(t) && t.job == s.job
  {
  }

  /** A working turn of a connected task stays connected and settles what it has in hand, or takes the head and
      settles that. */
  lemma WorkingTurn<P>(s: State<P>, head: Option<P>, c: Config, fix: P -> bool)
    requires Ready(s) && Inv(s.job, fix)
    ensures var t := Next(s, Working(head), c, fix);
            && Ready(t) && Inv(t.job, fix) && !Retrying(t.job)
            && t.job.dataLog == t.job.dequeued && t.job.gpsLog == Fixed(t.job.dequeued, fix)
            && t.job.dequeued == s.job.dequeued + if Retrying(s.job) || head.None? then [] else [head.value]
  {
    GoodTurnSettles(s.job, Working(head), fix);
    NextKeepsInv(s, Working(head), c, fix);
    PhaseAfter(s, Working(head), c, fix);
  }

  /** The four turns that bring any running task to deliver p. */
  function Recovery<P>(p: P): seq<Turn<P>> { [PppDown(), Working(None), Working(None), Working(Some(p))] }

  lemma RunFour<P>(s: State<P>, turns: seq<Turn<P>>, c: Config, fix: P -> bool)
    requires |turns| == 4
    ensures var two := Next(Next(s, turns[0], c, fix), turns[1], c, fix);
            Run(s, turns, c, fix) == Next(Next(two, turns[2], c, fix), turns[3], c, fix)
  {
    assert turns[..0] == [] && turns[..4] == turns;
    RunStep(s, turns, 0, c, fix);
    RunStep(s, turns, 1, c, fix);
    RunStep(s, turns, 2, c, fix);
    RunStep(s, turns, 3, c, fix);
  }

  /** Main result: from every reachable state a task that runs and does not hang can still deliver the packet it has
      in hand and any next one, whatever went wrong before; any other task never takes a packet again. */
  lemma {:induction false} DeliversIffRunning<P>(s: State<P>, turns: seq<Turn<P>>, p: P, c: Config, fix: P -> bool)
    requires Start(s)
    ensures var now := Run(s, turns, c, fix);
            if now.link.running && !now.link.hung then
              var j := Run(now, Recovery(p), c, fix).job;
              && j.dequeued == now.job.dequeued + [p]
              && j.dataLog == j.dequeued && j.gpsLog == Fixed(j.dequeued, fix)
            else forall more :: Run(now, more, c, fix) == now
  {
    var now := Run(s, turns, c, fix);
    EachPacketOnce(s, turns, c, fix);
    if now.link.running && !now.link.hung {
      RunFour(now, Recovery(p), c, fix);
      Reconnects(now, c, fix);
      var up := Next(Next(now, PppDown(), c, fix), Working(None), c, fix);
      WorkingTurn(up, None, c, fix);
      WorkingTurn(Next(up, Working(None), c, fix), Some(p), c, fix);
    } else {
      forall more ensures Run(now, more, c, fix) == now {
        StoppedForGood(now, more, c, fix);
      }
    }
  }

  // ---- the code ----

  class MqttTask<P> {
    const config: Config
    const fix: P -> bool
    var running: bool
    var hung: bool
    var phase: Phase
    var msgId: int
    var msgId2: int
    var gps: bool
    var packet: P
    var attempt: int
    var keepAliveTick: int
    var reconnectTick: int
    var waitTimeoutMs: int
    ghost var dequeued: seq<P>
    ghost var dataLog: seq<P>
    ghost var gpsLog: seq<P>

    ghost function LinkView(): Link
      reads this
    {
      Link(running, hung, phase, attempt, keepAliveTick, reconnectTick, waitTimeoutMs)
    }

    ghost function JobView(): Job<P>
      reads this
    {
      Job(msgId, msgId2, gps, packet, dequeued, dataLog, gpsLog)
    }

    ghost function View(): State<P>
      reads this
    {
      State(LinkView(), JobView())
    }

    constructor (config: Config, fix: P -> bool, garbage: P, garbageGps: bool, transport: bool, now: int)
      ensures Start(View()) && this.config == config && this.fix == fix
    {
      this.config, this.fix := config, fix;
      running, hung, phase, msgId, msgId2, attempt := transport, false, Init, 0, 0, 0;
      packet, gps := garbage, garbageGps;
      keepAliveTick, reconnectTick, waitTimeoutMs := now, now, 0;
      dequeued, dataLog, gpsLog := [], [], [];
    }

    method AbortConnection(t: Turn<P>)
      modifies this
      ensures JobView() == old(JobView()) && LinkView() == Abort(old(LinkView()), t)
    {
      waitTimeoutMs := RECONNECT_TIMEOUT_MS;
      reconnectTick := t.later;
      phase := WaitTimeout;
    }

    /** The abort and the ppposDisconnect that follow a failed connect or handshake. */
    method GiveUpConnecting(t: Turn<P>)
      modifies this
      ensures JobView() == old(JobView()) && LinkView() == GiveUp(old(LinkView()), t)
    {
      AbortConnection(t);
      hung := !t.disconnects;
    }

    method SendData(t: Turn<P>)
      requires phase.Connected?
      modifies this
      ensures LinkView() == old(LinkView()) && JobView() == PublishData(old(JobView()), t)
    {
      if t.dataWritten > 0 {
        dataLog := dataLog + [packet];
        msgId := 0;
      } else {
        msgId := -1;
      }
    }

    method SendGps(t: Turn<P>)
      requires phase.Connected?
      modifies this
      ensures LinkView() == old(LinkView()) && JobView() == PublishGps(old(JobView()), t)
    {
      if t.gpsWritten > 0 {
        gpsLog := gpsLog + [packet];
        msgId2 := 0;
      } else {
        msgId2 := -1;
      }
    }

    method ReceiveAndPing(t: Turn<P>)
      modifies this
      ensures JobView() == old(JobView()) && LinkView() == Receive(old(LinkView()), t, config)
    {
      if t.received < 0 {
        AbortConnection(t);
        return;
      }
      if t.now - keepAliveTick > config.keepAliveSeconds * 1000 / 2 {
        if t.pingWritten <= 0 {
          AbortConnection(t);
          return;
        }
        keepAliveTick := t.later;
      }
    }

    /** The sends of the three retry branches. */
    method RetrySends(t: Turn<P>)
      requires phase.Connected? && Retrying(JobView())
      modifies this
      ensures LinkView() == old(LinkView()) && JobView() == NextJob(old(JobView()), t, fix)
    {
      if msgId < 0 && msgId2 < 0 && gps {
        gps := fix(packet);
        SendData(t);
        SendGps(t);
      } else if msgId2 < 0 && gps {
        gps := fix(packet);
        SendGps(t);
      } else {
        gps := fix(packet);
        SendData(t);
      }
    }

    /** The sends of a packet just taken. */
    method FirstSends(p: P, t: Turn<P>)
      requires phase.Connected?
      modifies this
      ensures LinkView() == old(LinkView())
      ensures var sent := PublishData(Take(old(JobView()), p, fix), t);
              JobView() == if fix(p) then PublishGps(sent, t) else sent
    {
      packet := p;
      dequeued := dequeued + [p];
      gps := fix(p);
      SendData(t);
      if gps {
        SendGps(t);
      }
    }

    method PublishTurn(t: Turn<P>)
      requires phase.Connected?
      modifies this
      ensures LinkView() == NextLink(old(LinkView()), old(JobView()), t, config)
      ensures JobView() == NextJob(old(JobView()), t, fix)
    {
      if msgId < 0 || (msgId2 < 0 && gps) {
        attempt := attempt + 1;
        RetrySends(t);
        ReceiveAndPing(t);
      } else {
        attempt := 1;
        if t.head.Some? {
          FirstSends(t.head.value, t);
          ReceiveAndPing(t);
        } else {
          msgId := 0;
          msgId2 := 0;
        }
      }
    }

    method Turn(t: Turn<P>)
      requires running && !hung
      modifies this
      ensures View() == Next(old(View()), t, config, fix)
    {
      if !t.pppUp {
        phase := Init;
        reconnectTick := t.later;
        return;
      }
      match phase {
        case Init =>
          if !t.connects {
            GiveUpConnecting(t);
          } else if !t.accepted {
            GiveUpConnecting(t);
            if !hung {
              attempt := attempt + 1;
            }
          } else {
            phase := Connected;
          }
        case Connected =>
          PublishTurn(t);
        case WaitTimeout =>
          if !config.autoReconnect {
            running := false;
          } else if t.now - reconnectTick > waitTimeoutMs {
            phase := Init;
            reconnectTick := t.later;
          }
      }
    }

    /** esp_mqtt_task over any sequence of answers. */
    method Task(turns: seq<Turn<P>>)
      requires Start(View())
      modifies this
      ensures View() == Run(old(View()), turns, config, fix)
      ensures Inv(JobView(), fix)
    {
      for k := 0 to |turns|
        invariant View() == Run(old(View()), turns[..k], config, fix)
      {
        assert turns[..k + 1][..k] == turns[..k];
        if running && !hung {
          Turn(turns[k]);
        }
      }
      assert turns[..|turns|] == turns;
      EachPacketOnce(old(View()), turns, config, fix);
    }
  }
}
