/** From assembly to the wire: the pipeline and the publishing task as one state machine, joined at the
    outgoing queue. */
module Delivery {
  import opened Bytes
  import P = Pipeline
  import R = RetryTask

  /** What the two machines are run with. */
  datatype Setup<!T, !M> = Setup(assembly: P.Assembly<T, M>, config: R.Config, fix: T -> bool)

  datatype State<T> = State(pipe: P.State<T>, task: R.State<T>)

  /** A step of another task, or a turn of the publishing task, whose queue answer is OutQueue's. */
  datatype Step<T, M> = Other(event: P.Event<M>) | Publishing(turn: R.Turn<T>)

  /** The turn reaches its queue receive: connected, with no packet to retry. */
  predicate Receives<T>(r: R.State<T>, t: R.Turn<T>) {
    r.link.running && !r.link.hung && t.pppUp && r.link.phase.Connected? && !R.Retrying(r.job)
  }

  function Head<T>(q: seq<T>): Option<T> { if |q| == 0 then None else Some(q[0]) }

  function Next<T, M>(c: Setup<T, M>, s: State<T>, step: Step<T, M>): State<T> {
    match step
    case Other(e) => if e.MqttReceive? then s else s.(pipe := P.Next(c.assembly, s.pipe, e))
    case Publishing(t) =>
      State(if Receives(s.task, t) then P.Next(c.assembly, s.pipe, P.MqttReceive) else s.pipe,
            R.Next(s.task, t.(head := Head(s.pipe.outQueue)), c.config, c.fix))
  }

  predicate Start<T>(s: State<T>) { P.Start(s.pipe) && R.Start(s.task) }

  ghost function Run<T, M>(c: Setup<T, M>, s: State<T>, steps: seq<Step<T, M>>): State<T> {
    if steps == [] then s else Next(c, Run(c, s, steps[..|steps| - 1]), steps[|steps| - 1])
  }

  ghost predicate Inv<T(!new)>(s: State<T>, fix: T -> bool) {
    P.Inv(s.pipe) && R.Inv(s.task.job, fix) && s.pipe.dequeued == s.task.job.dequeued
  }

  lemma OtherKeepsHistory<T, M>(c: P.Assembly<T, M>, s: P.State<T>, e: P.Event<M>)
    requires !e.MqttReceive?
    ensures P.Next(c, s, e).dequeued == s.dequeued
  {
  }

  /** A turn that receives takes the head of OutQueue, if there is one, and no other turn takes anything. */
  lemma TurnTakesTheHead<T, M>(c: Setup<T, M>, s: State<T>, t: R.Turn<T>)
    requires s.pipe.dequeued == s.task.job.dequeued
    ensures var u := Next<T, M>(c, s, Publishing(t)); var q := s.pipe.outQueue;
            && u.pipe.dequeued == u.task.job.dequeued
            && (if Receives(s.task, t) && |q| > 0 then
                  u.pipe.outQueue == q[1..] && u.pipe.dequeued == s.pipe.dequeued + [q[0]]
                else u.pipe == s.pipe)
  {
  }

  lemma NextKeepsInv<T(!new), M>(c: Setup<T, M>, s: State<T>, step: Step<T, M>)
    requires Inv(s, c.fix)
    ensures Inv(Next(c, s, step), c.fix)
  {
    match step {
      case Other(e) =>
        P.NextKeepsInv(c.assembly, s.pipe, e);
        if !e.MqttReceive? {
          OtherKeepsHistory(c.assembly, s.pipe, e);
        }
      case Publishing(t) =>
        P.NextKeepsInv(c.assembly, s.pipe, P.MqttReceive);
        R.NextKeepsInv(s.task, t.(head := Head(s.pipe.outQueue)), c.config, c.fix);
        TurnTakesTheHead(c, s, t);
    }
  }

  lemma {:induction false} RunKeepsInv<T(!new), M>(c: Setup<T, M>, s: State<T>, steps: seq<Step<T, M>>)
    requires Start(s)
    ensures Inv(Run(c, s, steps), c.fix)
  {
    if steps == [] {
      P.RunKeepsInv(c.assembly, s.pipe, []);
    } else {
      RunKeepsInv(c, s, steps[..|steps| - 1]);
      NextKeepsInv(c, Run(c, s, steps[..|steps| - 1]), steps[|steps| - 1]);
    }
  }

  /** The packet taken from the queue but not yet accepted on the data topic, if there is one. */
  function Unsent<T>(j: R.Job<T>): seq<T> {
    if j.msgId >= 0 || |j.dequeued| == 0 then [] else [j.packet]
  }

  lemma SentAndUnsent<T>(j: R.Job<T>, fix: T -> bool)
    requires R.Inv(j, fix)
    ensures j.dequeued == j.dataLog + Unsent(j)
  {
    if j.msgId < 0 {
      assert j.dequeued == j.dequeued[..|j.dequeued| - 1] + [j.packet];
    }
  }

  /** Main result: over every schedule of all tasks and every behaviour of the network, each emitted packet
      is in exactly one place: accepted once on the data topic, in the publishing task's hand, in a
      queue, on the file, in the hand of the parse or card task, or dropped. In particular no packet
      is ever accepted more often than it was emitted. */
  lemma {:induction false} EmittedIsAccountedFor<T(!new), M>(c: Setup<T, M>, s: State<T>, steps: seq<Step<T, M>>)
    requires Start(s)
    ensures var end, job := Run(c, s, steps).pipe, Run(c, s, steps).task.job;
            && (forall p :: multiset(job.dataLog)[p] <= multiset(end.emitted)[p])
            && multiset(end.emitted)
               == multiset(job.dataLog) + multiset(Unsent(job)) + multiset(end.outQueue)
                  + multiset(end.storeQueue) + multiset(end.file)
                  + multiset(P.InParse(end)) + multiset(P.InHand(end)) + multiset(end.dropped)
            && |Unsent(job)| <= 1
  {
    RunKeepsInv(c, s, steps);
    var end := Run(c, s, steps);
    P.BalancedIsConserved(end.pipe);
    SentAndUnsent(end.task.job, c.fix);
  }

  /** In every joint run a successful handshake, followed by a turn with PPP up and both writes accepted, takes the
      head of OutQueue and has it accepted, unless it first has a packet in hand to settle. */
  lemma HandshakeThenHead<T(!new), M>(c: Setup<T, M>, s: State<T>, steps: seq<Step<T, M>>, h: R.Turn<T>, g: R.Turn<T>)
    requires Start(s) && var now := Run(c, s, steps); now.task.link.running && now.task.link.phase.Init?
    requires R.Shakes(h) && g.pppUp && g.dataWritten > 0 && g.gpsWritten > 0
    requires var now := Run(c, s, steps); !now.task.link.hung && |now.pipe.outQueue| > 0
    ensures var now := Run(c, s, steps); var q, was := now.pipe.outQueue, now.task.job.dequeued;
            var later := Next<T, M>(c, Next<T, M>(c, now, Publishing(h)), Publishing(g));
            && later.task.job.dataLog == later.task.job.dequeued
            && (if R.Retrying(now.task.job) then later.pipe.outQueue == q && later.task.job.dataLog == was
                else later.pipe.outQueue == q[1..] && later.task.job.dataLog == was + [q[0]])
  {
    var now := Run(c, s, steps);
    RunKeepsInv(c, s, steps);
    TurnTakesTheHead<T, M>(c, now, h);
    var up := Next<T, M>(c, now, Publishing(h));
    TurnTakesTheHead<T, M>(c, up, g);
    R.GoodTurnSettles(up.task.job, g.(head := Head(up.pipe.outQueue)), c.fix);
  }

  // ---- nothing gets stuck ----

  ghost predicate Reaches<T(!new), M(!new)>(c: Setup<T, M>, s: State<T>, t: State<T>) {
    exists steps :: Run(c, s, steps) == t
  }

  lemma ReachesItself<T(!new), M(!new)>(c: Setup<T, M>, s: State<T>)
    ensures Reaches(c, s, s)
  {
    assert Run<T, M>(c, s, []) == s;
  }

  /** One more step, which keeps what every run keeps. */
  lemma Extend<T(!new), M(!new)>(c: Setup<T, M>, s: State<T>, t: State<T>, step: Step<T, M>) returns (u: State<T>)
    requires Reaches(c, s, t) && Inv(t, c.fix)
    ensures u == Next(c, t, step) && Reaches(c, s, u) && Inv(u, c.fix)
  {
    u := Next(c, t, step);
    NextKeepsInv(c, t, step);
    var steps :| Run(c, s, steps) == t;
    assert (steps + [step])[..|steps|] == steps;
    assert Run(c, s, steps + [step]) == u;
  }

  /** The publishing task is connected and has nothing to retry, and OutQueue is empty. */
  predicate Clear<T>(t: State<T>) { R.Ready(t.task) && !R.Retrying(t.task.job) && |t.pipe.outQueue| == 0 }

  /** All but OutQueue and what was taken from it is the same. */
  ghost predicate SameElsewhere<T>(s: P.State<T>, t: P.State<T>) {
    t == s.(outQueue := t.outQueue, dequeued := t.dequeued)
  }

  /** A working turn settles the packet in hand, or takes the head of OutQueue and settles that. */
  lemma WorkingStep<T(!new), M>(c: Setup<T, M>, t: State<T>)
    requires Inv(t, c.fix) && R.Ready(t.task)
    ensures var u := Next<T, M>(c, t, Publishing(R.Working(None))); var q := t.pipe.outQueue;
            && R.Ready(u.task) && !R.Retrying(u.task.job) && SameElsewhere(t.pipe, u.pipe)
            && u.pipe.outQueue == if R.Retrying(t.task.job) || |q| == 0 then q else q[1..]
  {
    TurnTakesTheHead<T, M>(c, t, R.Working(None));
    R.WorkingTurn(t.task, Head(t.pipe.outQueue), c.config, c.fix);
  }

  /** Working turns settle the packet in hand and then empty OutQueue. */
  lemma DrainOut<T(!new), M(!new)>(c: Setup<T, M>, s: State<T>, t: State<T>) returns (u: State<T>)
    requires Reaches(c, s, t) && Inv(t, c.fix) && R.Ready(t.task)
    ensures Reaches(c, s, u) && Inv(u, c.fix) && Clear(u) && SameElsewhere(t.pipe, u.pipe)
    decreases |t.pipe.outQueue|, R.Retrying(t.task.job)
  {
    u := t;
    if !Clear(t) {
      u := Extend<T, M>(c, s, t, Publishing(R.Working(None)));
      WorkingStep(c, t);
      u := DrainOut(c, s, u);
    }
  }

  /** A step of another task that leaves OutQueue empty. */
  lemma ClearStep<T(!new), M(!new)>(c: Setup<T, M>, s: State<T>, t: State<T>, e: P.Event<M>) returns (u: State<T>)
    requires Reaches(c, s, t) && Inv(t, c.fix) && Clear(t) && !e.MqttReceive?
    requires |P.Next(c.assembly, t.pipe, e).outQueue| == 0
    ensures Reaches(c, s, u) && Inv(u, c.fix) && Clear(u) && u.pipe == P.Next(c.assembly, t.pipe, e)
  {
    u := Extend<T, M>(c, s, t, Other(e));
  }

  /** The end of the card task's send, and the delivery of what it sent. */
  lemma SendRefill<T(!new), M(!new)>(c: Setup<T, M>, s: State<T>, t: State<T>) returns (u: State<T>)
    requires Reaches(c, s, t) && Inv(t, c.fix) && Clear(t) && t.pipe.cardPc.Resending?
    ensures Reaches(c, s, u) && Inv(u, c.fix) && Clear(u)
    ensures SameElsewhere(t.pipe.(cardPc := P.Receiving), u.pipe)
  {
    u := Extend<T, M>(c, s, t, Other(P.CardResend(true)));
    u := DrainOut(c, s, u);
  }

  /** All but the card task and what it moves is the same. */
  ghost predicate SameForParse<T>(s: P.State<T>, t: P.State<T>) {
    && t.packet == s.packet && t.ready == s.ready && t.parsePc == s.parsePc
    && t.emitted == s.emitted && t.dropped == s.dropped
  }

  /** The card task has nothing to do: nothing is spilled, stored or in its hand. */
  predicate AtRest<T>(s: P.State<T>) { |s.storeQueue| == 0 && |s.file| == 0 && s.cardPc.Refill? }

  /** How far the card task is from rest. */
  function Load<T>(s: P.State<T>): nat {
    6 * |s.storeQueue| + 4 * |s.file| +
    match s.cardPc
    case Pushing => 6
    case Resending => 3
    case Receiving => 2
    case Refill => 1
    case Popping => 0
  }

  lemma TestAndReceive<T(!new), M(!new)>(c: Setup<T, M>, s: State<T>, t: State<T>) returns (u: State<T>)
    requires Reaches(c, s, t) && Inv(t, c.fix) && Clear(t)
    requires t.pipe.cardPc.Refill? && |t.pipe.file| == 0 && |t.pipe.storeQueue| > 0
    ensures Reaches(c, s, u) && Inv(u, c.fix) && Clear(u) && SameForParse(t.pipe, u.pipe)
    ensures Load(u.pipe) < Load(t.pipe)
  {
    u := ClearStep<T, M>(c, s, t, P.CardRefill);
    u := ClearStep<T, M>(c, s, u, P.CardReceive(true));
  }

  lemma ReceivingMoves<T(!new), M(!new)>(c: Setup<T, M>, s: State<T>, t: State<T>) returns (u: State<T>)
    requires Reaches(c, s, t) && Inv(t, c.fix) && Clear(t) && !AtRest(t.pipe) && t.pipe.cardPc.Receiving?
    ensures Reaches(c, s, u) && Inv(u, c.fix) && Clear(u) && SameForParse(t.pipe, u.pipe)
    ensures Load(u.pipe) < Load(t.pipe)
  {
    u := ClearStep<T, M>(c, s, t, P.CardReceive(true));
  }

  /** The card task's next step, or steps, towards its rest. */
  lemma CardMoves<T(!new), M(!new)>(c: Setup<T, M>, s: State<T>, t: State<T>) returns (u: State<T>)
    requires Reaches(c, s, t) && Inv(t, c.fix) && Clear(t) && !AtRest(t.pipe)
    ensures Reaches(c, s, u) && Inv(u, c.fix) && Clear(u) && SameForParse(t.pipe, u.pipe)
    ensures Load(u.pipe) < Load(t.pipe)
  {
    match t.pipe.cardPc {
      case Receiving => u := ReceivingMoves(c, s, t);
      case Pushing => u := ClearStep<T, M>(c, s, t, P.CardPush);
      case Popping => u := ClearStep<T, M>(c, s, t, P.CardPop);
      case Resending => u := SendRefill(c, s, t);
      case Refill =>
        if |t.pipe.file| > 0 {
          u := ClearStep<T, M>(c, s, t, P.CardRefill);
        } else {
          u := TestAndReceive(c, s, t);
        }
    }
  }

  lemma DrainCard<T(!new), M(!new)>(c: Setup<T, M>, s: State<T>, t: State<T>) returns (u: State<T>)
    requires Reaches(c, s, t) && Inv(t, c.fix) && Clear(t)
    ensures Reaches(c, s, u) && Inv(u, c.fix) && Clear(u) && AtRest(u.pipe) && SameForParse(t.pipe, u.pipe)
    decreases Load(t.pipe)
  {
    u := t;
    if !AtRest(t.pipe) {
      u := CardMoves(c, s, t);
      u := DrainCard(c, s, u);
    }
  }

  /** An emission that has begun ends, without a drop. */
  lemma EndEmission<T(!new), M(!new)>(c: Setup<T, M>, s: State<T>, t: State<T>) returns (u: State<T>)
    requires Reaches(c, s, t) && Inv(t, c.fix) && Clear(t) && AtRest(t.pipe)
    ensures Reaches(c, s, u) && Inv(u, c.fix) && Clear(u) && P.InParse(u.pipe) == []
    ensures u.pipe.emitted == t.pipe.emitted && u.pipe.dropped == t.pipe.dropped
  {
    u := t;
    if t.pipe.parsePc.SendingOut? {
      u := Extend<T, M>(c, s, t, Other(P.ParseSendOut));
      u := DrainOut(c, s, u);
    } else if t.pipe.parsePc.SendingStore? {
      u := ClearStep<T, M>(c, s, t, P.ParseSendStore);
    }
  }

  lemma Connects<T(!new), M(!new)>(c: Setup<T, M>, s: State<T>) returns (u: State<T>)
    requires Inv(s, c.fix) && s.task.link.running && !s.task.link.hung
    ensures Reaches(c, s, u) && Inv(u, c.fix) && R.Ready(u.task) && u.pipe == s.pipe
  {
    ReachesItself(c, s);
    u := Extend<T, M>(c, s, s, Publishing(R.PppDown()));
    u := Extend<T, M>(c, s, u, Publishing(R.Working(None)));
    R.Reconnects(s.task, c.config, c.fix);
  }

  /** Everything is on the wire: what was emitted and not dropped has been accepted, each once. */
  ghost predicate AllArrived<T>(s: State<T>) {
    && multiset(s.pipe.emitted) == multiset(s.task.job.dataLog) + multiset(s.pipe.dropped)
    && s.task.job.dataLog == s.task.job.dequeued
  }

  lemma EmptyMeansArrived<T(!new)>(s: State<T>, fix: T -> bool)
    requires Inv(s, fix) && Clear(s) && AtRest(s.pipe) && P.InParse(s.pipe) == []
    ensures AllArrived(s) && s.task.job.gpsLog == R.Fixed(s.task.job.dataLog, fix)
  {
    P.BalancedIsConserved(s.pipe);
    assert multiset(s.pipe.outQueue) == multiset(s.pipe.storeQueue) == multiset(s.pipe.file) == multiset{};
    assert multiset(P.InParse(s.pipe)) == multiset(P.InHand(s.pipe)) == multiset{};
  }

  /** Main result: from every reachable state in which the publishing task runs and does not hang, there is a
      continuation without another emission or drop after which every packet emitted so far and not dropped
      has been accepted, once on the data topic and once on the GPS topic if it has a fix. Nothing gets stuck
      in a queue, on the file or in a task's hand. */
  lemma {:induction false} EverythingCanArrive<T(!new), M(!new)>(c: Setup<T, M>, s: State<T>, steps: seq<Step<T, M>>)
    requires Start(s) && var now := Run(c, s, steps); now.task.link.running && !now.task.link.hung
    ensures var now := Run(c, s, steps);
            exists later :: Reaches(c, now, later) && AllArrived(later)
                            && later.task.job.gpsLog == R.Fixed(later.task.job.dataLog, c.fix)
                            && later.pipe.emitted == now.pipe.emitted && later.pipe.dropped == now.pipe.dropped
  {
    var now := Run(c, s, steps);
    RunKeepsInv(c, s, steps);
    var t := Connects(c, now);
    t := DrainOut(c, now, t);
    t := DrainCard(c, now, t);
    t := EndEmission(c, now, t);
    t := DrainCard(c, now, t);
    EmptyMeansArrived(t, c.fix);
  }
}
