/** The store-and-forward pipeline as a state machine: the parse, card and MQTT tasks take atomic steps in
    any order over two bounded queues and the file stack. What a packet is and how messages change it are
    parameters, so what is proved here holds whatever the packets contain. */
module Pipeline {
  import opened Bytes
  import opened Stacks

  const QUEUE_LENGTH := 5

  /** How a message changes the packet under assembly, and what a send attempt leaves of it. */
  datatype Assembly<!T, !M> = Assembly(absorb: (T, M) -> T, reset: T -> T)

  /** Where the parse task stands: waiting, testing packetREADY, or inside one of its two sends. */
  datatype ParsePc = Waiting | Testing | SendingOut | SendingStore

  /** Where the card task stands: the refill test, the pop, the blocking send of the popped packet,
      the blocking receive, or the push of the received packet. */
  datatype CardPc = Refill | Popping | Resending | Receiving | Pushing

  datatype State<T> = State(
    packet: T,              // the packet under assembly
    ready: bool,            // packetREADY
    parsePc: ParsePc,
    outQueue: seq<T>,
    storeQueue: seq<T>,
    file: seq<T>,           // the file stack, newest last
    cardPc: CardPc,
    hand: T,                // the card task's `message`
    cardDepth: int,         // the card task's `stackdepth`
    fileDepth: int,         // fStack_depth
    emitted: seq<T>,        // history: packets that reached a send attempt
    dequeued: seq<T>,       // history: packets the MQTT task took
    dropped: seq<T>)        // history: packets no container took

  datatype Event<M> =
    | QueryReady                    // the query task raises packetREADY
    | ParseReceive(message: M)
    | ParseTest
    | ParseSendOut
    | ParseSendStore
    | CardRefill
    | CardPop
    | CardResend(timeout: bool)     // one look at OutQueue; timeout tells whether the 100 ms are over
    | CardReceive(timeout: bool)    // one look at storeQueue
    | CardPush
    | MqttReceive

  /** One atomic step; an event whose task stands elsewhere changes nothing. */
  function Next<T, M>(c: Assembly<T, M>, s: State<T>, e: Event<M>): State<T> {
    match e
    case QueryReady => s.(ready := true)
    case ParseReceive(m) =>
      if s.parsePc.Waiting? then s.(packet := c.absorb(s.packet, m), parsePc := Testing) else s
    case ParseTest =>
      if !s.parsePc.Testing? then s
      else if s.ready then s.(parsePc := SendingOut, emitted := s.emitted + [s.packet])
      else s.(parsePc := Waiting)
    case ParseSendOut =>
      if !s.parsePc.SendingOut? then s
      else if |s.outQueue| < QUEUE_LENGTH then
        s.(outQueue := s.outQueue + [s.packet], packet := c.reset(s.packet), ready := false, parsePc := Waiting)
      else s.(parsePc := SendingStore)
    case ParseSendStore =>
      if !s.parsePc.SendingStore? then s
      else if |s.storeQueue| < QUEUE_LENGTH then
        s.(storeQueue := s.storeQueue + [s.packet], packet := c.reset(s.packet), ready := false, parsePc := Waiting)
      else
        s.(dropped := s.dropped + [s.packet], packet := c.reset(s.packet), ready := false, parsePc := Waiting)
    case CardRefill =>
      if !s.cardPc.Refill? then s
      else if |s.outQueue| < QUEUE_LENGTH && s.cardDepth > 0 then s.(cardPc := Popping)
      else s.(cardPc := Receiving)
    case CardPop =>
      if !s.cardPc.Popping? then s
      else if s.fileDepth > 0 && |s.file| > 0 then
        s.(hand := s.file[|s.file| - 1], file := s.file[..|s.file| - 1], fileDepth := s.fileDepth - 1,
           cardDepth := s.cardDepth - 1, cardPc := Resending)
      else s.(cardDepth := s.cardDepth - 1, cardPc := Resending)
    case CardResend(timeout) =>
      if !s.cardPc.Resending? then s
      else if |s.outQueue| < QUEUE_LENGTH then s.(outQueue := s.outQueue + [s.hand], cardPc := Receiving)
      else if timeout then s.(dropped := s.dropped + [s.hand], cardPc := Receiving)
      else s
    case CardReceive(timeout) =>
      if !s.cardPc.Receiving? then s
      else if |s.storeQueue| > 0 then
        s.(hand := s.storeQueue[0], storeQueue := s.storeQueue[1..], cardPc := Pushing)
      else if timeout then s.(cardPc := Refill)
      else s
    case CardPush =>
      if !s.cardPc.Pushing? then s
      else s.(file := s.file + [s.hand], fileDepth := s.fileDepth + 1, cardDepth := s.cardDepth + 1,
              cardPc := Refill)
    case MqttReceive =>
      if |s.outQueue| == 0 then s
      else s.(dequeued := s.dequeued + [s.outQueue[0]], outQueue := s.outQueue[1..])
  }

  predicate Start<T>(s: State<T>) {
    && !s.ready && s.parsePc.Waiting? && s.cardPc.Refill?
    && |s.outQueue| == |s.storeQueue| == |s.file| == 0
    && s.cardDepth == s.fileDepth == 0
    && |s.emitted| == |s.dequeued| == |s.dropped| == 0
  }

  /** The state after a schedule. */
  ghost function Run<T, M>(c: Assembly<T, M>, s: State<T>, events: seq<Event<M>>): State<T> {
    if events == [] then s else Next(c, Run(c, s, events[..|events| - 1]), events[|events| - 1])
  }

  // ---- what every run keeps ----

  function InParse<T>(s: State<T>): seq<T> {
    if s.parsePc.SendingOut? || s.parsePc.SendingStore? then [s.packet] else []
  }

  function InHand<T>(s: State<T>): seq<T> {
    if s.cardPc.Resending? || s.cardPc.Pushing? then [s.hand] else []
  }

  /** Every packet ever emitted is in exactly one place. */
  ghost predicate Conserved<T>(s: State<T>) {
    multiset(s.emitted) ==
    multiset(s.dequeued) + multiset(s.outQueue) + multiset(s.storeQueue) + multiset(s.file)
    + multiset(InParse(s)) + multiset(InHand(s)) + multiset(s.dropped)
  }

  predicate Bounded<T>(s: State<T>) { |s.outQueue| <= QUEUE_LENGTH && |s.storeQueue| <= QUEUE_LENGTH }

  predicate DepthsAgree<T>(s: State<T>) {
    && s.cardDepth == s.fileDepth == |s.file|
    && (s.cardPc.Popping? ==> s.cardDepth > 0)
  }

  /** How often p occurs in q. */
  ghost function Count<T>(q: seq<T>, p: T): nat { multiset(q)[p] }

  lemma Appended<T>(q: seq<T>, x: T, p: T)
    ensures Count(q + [x], p) == Count(q, p) + if x == p then 1 else 0
  {
  }

  lemma HeadOff<T>(q: seq<T>, p: T)
    requires |q| > 0
    ensures Count(q, p) == Count(q[1..], p) + if q[0] == p then 1 else 0
  {
    assert q == [q[0]] + q[1..];
  }

  lemma LastOff<T>(q: seq<T>, p: T)
    requires |q| > 0
    ensures Count(q, p) == Count(q[..|q| - 1], p) + if q[|q| - 1] == p then 1 else 0
  {
    assert q == q[..|q| - 1] + [q[|q| - 1]];
  }

  /** Conservation of one packet. */
  ghost predicate Balanced<T>(s: State<T>, p: T) {
    Count(s.emitted, p) ==
    Count(s.dequeued, p) + Count(s.outQueue, p) + Count(s.storeQueue, p) + Count(s.file, p)
    + (if (s.parsePc.SendingOut? || s.parsePc.SendingStore?) && s.packet == p then 1 else 0)
    + (if (s.cardPc.Resending? || s.cardPc.Pushing?) && s.hand == p then 1 else 0)
    + Count(s.dropped, p)
  }

  ghost predicate Inv<T(!new)>(s: State<T>) { (forall p :: Balanced(s, p)) && Bounded(s) && DepthsAgree(s) }

  lemma BalancedIsConserved<T(!new)>(s: State<T>)
    requires forall p :: Balanced(s, p)
    ensures Conserved(s)
  {
    var all := multiset(s.dequeued) + multiset(s.outQueue) + multiset(s.storeQueue) + multiset(s.file)
               + multiset(InParse(s)) + multiset(InHand(s)) + multiset(s.dropped);
    forall p ensures multiset(s.emitted)[p] == all[p] {
      assert Balanced(s, p);
    }
  }

  lemma MessageBalances<T, M>(c: Assembly<T, M>, s: State<T>, m: M, p: T)
    requires Balanced(s, p)
    ensures Balanced(Next(c, s, ParseReceive(m)), p)
  {
    var absorbed := c.absorb(s.packet, m);
    if s.parsePc.Waiting? {
      assert Balanced(s.(packet := absorbed, parsePc := Testing), p);
    }
  }

  lemma RefillBalances<T, M>(c: Assembly<T, M>, s: State<T>, p: T)
    requires Balanced(s, p)
    ensures Balanced(Next<T, M>(c, s, CardRefill), p)
  {
    if s.cardPc.Refill? {
      assert Balanced(s.(cardPc := Popping), p) && Balanced(s.(cardPc := CardPc.Receiving), p);
    }
  }

  lemma TestBalances<T, M>(c: Assembly<T, M>, s: State<T>, p: T)
    requires Balanced(s, p)
    ensures Balanced(Next(c, s, ParseTest), p)
  {
    Appended(s.emitted, s.packet, p);
  }

  lemma FirstSendBalances<T, M>(c: Assembly<T, M>, s: State<T>, p: T)
    requires Balanced(s, p)
    ensures Balanced(Next(c, s, ParseSendOut), p)
  {
    var rest := c.reset(s.packet);
    if s.parsePc.SendingOut? {
      if |s.outQueue| < QUEUE_LENGTH {
        Appended(s.outQueue, s.packet, p);
        assert Next(c, s, ParseSendOut)
            == s.(outQueue := s.outQueue + [s.packet], packet := rest, ready := false, parsePc := Waiting);
      } else {
        assert Balanced(s.(parsePc := SendingStore), p);
      }
    }
  }

  lemma SecondSendBalances<T, M>(c: Assembly<T, M>, s: State<T>, p: T)
    requires Balanced(s, p)
    ensures Balanced(Next(c, s, ParseSendStore), p)
  {
    if |s.storeQueue| < QUEUE_LENGTH {
      Appended(s.storeQueue, s.packet, p);
    } else {
      Appended(s.dropped, s.packet, p);
    }
  }

  lemma PopBalances<T, M>(c: Assembly<T, M>, s: State<T>, p: T)
    requires Balanced(s, p) && DepthsAgree(s)
    ensures Balanced(Next(c, s, CardPop), p)
  {
    if s.cardPc.Popping? {
      LastOff(s.file, p);
    }
  }

  lemma ResendBalances<T, M>(c: Assembly<T, M>, s: State<T>, timeout: bool, p: T)
    requires Balanced(s, p)
    ensures Balanced(Next(c, s, CardResend(timeout)), p)
  {
    var t := Next<T, M>(c, s, CardResend(timeout));
    if s.cardPc.Resending? {
      if |s.outQueue| < QUEUE_LENGTH {
        Appended(s.outQueue, s.hand, p);
        assert t == s.(outQueue := s.outQueue + [s.hand], cardPc := Receiving);
      } else if timeout {
        Appended(s.dropped, s.hand, p);
        assert t == s.(dropped := s.dropped + [s.hand], cardPc := Receiving);
      }
    }
  }

  lemma ReceiveBalances<T, M>(c: Assembly<T, M>, s: State<T>, timeout: bool, p: T)
    requires Balanced(s, p)
    ensures Balanced(Next(c, s, CardReceive(timeout)), p)
  {
    if |s.storeQueue| > 0 {
      HeadOff(s.storeQueue, p);
    }
  }

  lemma PushBalances<T, M>(c: Assembly<T, M>, s: State<T>, p: T)
    requires Balanced(s, p)
    ensures Balanced(Next(c, s, CardPush), p)
  {
    Appended(s.file, s.hand, p);
  }

  lemma MqttBalances<T, M>(c: Assembly<T, M>, s: State<T>, p: T)
    requires Balanced(s, p)
    ensures Balanced(Next(c, s, MqttReceive), p)
  {
    if |s.outQueue| > 0 {
      HeadOff(s.outQueue, p);
      Appended(s.dequeued, s.outQueue[0], p);
    }
  }

  lemma NextBalances<T, M>(c: Assembly<T, M>, s: State<T>, e: Event<M>, p: T)
    requires Balanced(s, p) && DepthsAgree(s)
    ensures Balanced(Next(c, s, e), p)
  {
    match e
    case QueryReady => assert Balanced(s.(ready := true), p);
    case ParseReceive(m) => MessageBalances(c, s, m, p);
    case ParseTest => TestBalances(c, s, p);
    case ParseSendOut => FirstSendBalances(c, s, p);
    case ParseSendStore => SecondSendBalances(c, s, p);
    case CardRefill => RefillBalances(c, s, p);
    case CardPop => PopBalances(c, s, p);
    case CardResend(timeout) => ResendBalances(c, s, timeout, p);
    case CardReceive(timeout) => ReceiveBalances(c, s, timeout, p);
    case CardPush => PushBalances(c, s, p);
    case MqttReceive => MqttBalances(c, s, p);
  }

  lemma NextKeepsBounds<T, M>(c: Assembly<T, M>, s: State<T>, e: Event<M>)
    requires Bounded(s) && DepthsAgree(s)
    ensures Bounded(Next(c, s, e)) && DepthsAgree(Next(c, s, e))
  {
  }

  lemma NextKeepsInv<T(!new), M>(c: Assembly<T, M>, s: State<T>, e: Event<M>)
    requires Inv(s)
    ensures Inv(Next(c, s, e))
  {
    NextKeepsBounds(c, s, e);
    forall p ensures Balanced(Next(c, s, e), p) {
      NextBalances(c, s, e, p);
    }
  }

  lemma {:induction false} RunKeepsInv<T(!new), M>(c: Assembly<T, M>, s: State<T>, events: seq<Event<M>>)
    requires Start(s)
    ensures Inv(Run(c, s, events))
  {
    if events != [] {
      RunKeepsInv(c, s, events[..|events| - 1]);
      NextKeepsInv(c, Run(c, s, events[..|events| - 1]), events[|events| - 1]);
    }
  }

  /** Main result: over every interleaving no packet is lost or duplicated, the queues stay within their
      length, and the card task's private depth is the file's. */
  lemma {:induction false} EveryRunIsSafe<T(!new), M>(c: Assembly<T, M>, s: State<T>, events: seq<Event<M>>)
    requires Start(s)
    ensures var end := Run(c, s, events); Bounded(end) && DepthsAgree(end) && Conserved(end)
  {
    RunKeepsInv(c, s, events);
    BalancedIsConserved(Run(c, s, events));
  }

  /** Every packet that is or may come to be stored or sent satisfies ok. */
  ghost predicate Everywhere<T(!new)>(s: State<T>, ok: T -> bool) {
    && ok(s.packet)
    && (forall p <- s.outQueue :: ok(p))
    && (forall p <- s.storeQueue :: ok(p))
    && (forall p <- s.file :: ok(p))
    && (forall p <- InHand(s) :: ok(p))
  }

  ghost predicate KeptByAssembly<T(!new), M(!new)>(c: Assembly<T, M>, ok: T -> bool) {
    && (forall p, m :: ok(p) ==> ok(c.absorb(p, m)))
    && (forall p :: ok(p) ==> ok(c.reset(p)))
  }

  lemma NextKeepsEverywhere<T(!new), M(!new)>(c: Assembly<T, M>, s: State<T>, e: Event<M>, ok: T -> bool)
    requires KeptByAssembly(c, ok) && Everywhere(s, ok) && DepthsAgree(s)
    ensures Everywhere(Next(c, s, e), ok)
  {
  }

  /** What holds of the first packet under assembly, and is kept by messages and by send attempts, holds in
      every run of every packet in a queue, on the file or in the card task's hand. */
  lemma {:induction false} EverywhereInEveryRun<T(!new), M(!new)>(c: Assembly<T, M>, s: State<T>,
                                                                  events: seq<Event<M>>, ok: T -> bool)
    requires Start(s) && ok(s.packet) && KeptByAssembly(c, ok)
    ensures Everywhere(Run(c, s, events), ok)
  {
    if events != [] {
      var front := events[..|events| - 1];
      EverywhereInEveryRun(c, s, front, ok);
      RunKeepsInv(c, s, front);
      NextKeepsEverywhere(c, Run(c, s, front), events[|events| - 1], ok);
    }
  }

  // ---- why packets are dropped ----

  /** The state before step k of a run. */
  ghost function At<T, M>(c: Assembly<T, M>, s: State<T>, events: seq<Event<M>>, k: nat): State<T>
    requires k <= |events|
  {
    Run(c, s, events[..k])
  }

  lemma AtStep<T, M>(c: Assembly<T, M>, s: State<T>, events: seq<Event<M>>, k: nat)
    requires k < |events|
    ensures At(c, s, events, k + 1) == Next(c, At(c, s, events, k), events[k])
  {
    assert events[..k + 1][..k] == events[..k];
  }

  /** The parse task tries OutQueue and finds it full. */
  predicate FindsOutFull<T, M>(s: State<T>, e: Event<M>) {
    e.ParseSendOut? && s.parsePc.SendingOut? && |s.outQueue| == QUEUE_LENGTH
  }

  /** The parse task's second send finds storeQueue full. */
  predicate ParseDrops<T, M>(s: State<T>, e: Event<M>) {
    e.ParseSendStore? && s.parsePc.SendingStore? && |s.storeQueue| == QUEUE_LENGTH
  }

  /** The card task's send times out on a full OutQueue. */
  predicate CardDrops<T, M>(s: State<T>, e: Event<M>) {
    e.CardResend? && e.timeout && s.cardPc.Resending? && |s.outQueue| == QUEUE_LENGTH
  }

  lemma StepDropsIff<T, M>(c: Assembly<T, M>, s: State<T>, e: Event<M>)
    requires Bounded(s)
    ensures Next(c, s, e).dropped != s.dropped <==> ParseDrops(s, e) || CardDrops(s, e)
  {
  }

  lemma EnteringSecondSend<T, M>(c: Assembly<T, M>, s: State<T>, e: Event<M>)
    requires Bounded(s) && Next(c, s, e).parsePc.SendingStore? && !s.parsePc.SendingStore?
    ensures FindsOutFull(s, e)
  {
  }

  ghost predicate InSecondSend<T, M>(c: Assembly<T, M>, s: State<T>, events: seq<Event<M>>, i: nat) {
    i <= |events| && At(c, s, events, i).parsePc.SendingStore?
  }

  /** A parse task in its second send came there by finding OutQueue full, and has not moved since. */
  lemma {:induction false} SecondSendNeedsFullOut<T(!new), M>(c: Assembly<T, M>, s: State<T>,
                                                              events: seq<Event<M>>, k: nat) returns (j: nat)
    requires Start(s) && InSecondSend(c, s, events, k)
    ensures j < k && FindsOutFull(At(c, s, events, j), events[j])
    ensures forall i :: j < i <= k ==> InSecondSend(c, s, events, i)
  {
    j := k - 1;
    while InSecondSend(c, s, events, j)
      invariant 0 <= j < k
      invariant forall i :: j < i <= k ==> InSecondSend(c, s, events, i)
      decreases j
    {
      j := j - 1;
    }
    assert InSecondSend(c, s, events, j + 1);
    AtStep(c, s, events, j);
    RunKeepsInv(c, s, events[..j]);
    EnteringSecondSend(c, At(c, s, events, j), events[j]);
  }

  /** Main result: a step of a run drops a packet exactly when it is the parse task's second send on a full
      storeQueue or the card task's send that times out on a full OutQueue; and the parse task was in
      its second send because its first one had found OutQueue full. */
  lemma DropCause<T(!new), M>(c: Assembly<T, M>, s: State<T>, events: seq<Event<M>>, k: nat)
    requires Start(s) && k < |events|
    ensures var before := At(c, s, events, k);
            && (At(c, s, events, k + 1).dropped != before.dropped
                <==> ParseDrops(before, events[k]) || CardDrops(before, events[k]))
            && (ParseDrops(before, events[k]) ==>
                  exists j: nat :: j < k && FindsOutFull(At(c, s, events, j), events[j])
                                   && forall i :: j < i <= k ==> InSecondSend(c, s, events, i))
  {
    AtStep(c, s, events, k);
    RunKeepsInv(c, s, events[..k]);
    StepDropsIff(c, At(c, s, events, k), events[k]);
    if ParseDrops(At(c, s, events, k), events[k]) {
      var j := SecondSendNeedsFullOut(c, s, events, k);
    }
  }

  // ---- both kinds of drop can be reached ----

  ghost predicate Reaches<T(!new), M(!new)>(c: Assembly<T, M>, s: State<T>, t: State<T>) {
    exists events :: Run(c, s, events) == t
  }

  lemma ReachesNext<T(!new), M(!new)>(c: Assembly<T, M>, s: State<T>, t: State<T>, e: Event<M>)
    requires Reaches(c, s, t)
    ensures Reaches(c, s, Next(c, t, e))
  {
    var events :| Run(c, s, events) == t;
    assert (events + [e])[..|events|] == events;
    assert Run(c, s, events + [e]) == Next(c, t, e);
  }

  /** A new packet reaches its first send. */
  lemma Assembled<T(!new), M(!new)>(c: Assembly<T, M>, s: State<T>, t: State<T>, m: M) returns (u: State<T>)
    requires Reaches(c, s, t) && t.parsePc.Waiting?
    ensures Reaches(c, s, u)
    ensures u.parsePc.SendingOut? && u == t.(packet := u.packet, ready := true, parsePc := SendingOut,
                                             emitted := u.emitted)
  {
    ReachesNext(c, s, t, QueryReady);
    u := Next(c, t, QueryReady);
    ReachesNext(c, s, u, ParseReceive(m));
    u := Next(c, u, ParseReceive(m));
    ReachesNext(c, s, u, ParseTest);
    u := Next(c, u, ParseTest);
  }

  /** Emissions fill OutQueue. */
  lemma FillOut<T(!new), M(!new)>(c: Assembly<T, M>, s: State<T>, t: State<T>, m: M) returns (u: State<T>)
    requires Reaches(c, s, t) && t.parsePc.Waiting? && |t.outQueue| <= QUEUE_LENGTH
    ensures Reaches(c, s, u) && |u.outQueue| == QUEUE_LENGTH
    ensures u == t.(packet := u.packet, ready := u.ready, outQueue := u.outQueue, emitted := u.emitted)
    decreases QUEUE_LENGTH - |t.outQueue|
  {
    u := t;
    if |t.outQueue| < QUEUE_LENGTH {
      u := Assembled(c, s, t, m);
      ReachesNext(c, s, u, ParseSendOut);
      u := Next(c, u, ParseSendOut);
      u := FillOut(c, s, u, m);
    }
  }

  /** With OutQueue full, a new packet reaches its second send. */
  lemma ReachesSecondSend<T(!new), M(!new)>(c: Assembly<T, M>, s: State<T>, t: State<T>, m: M)
    returns (u: State<T>)
    requires Reaches(c, s, t) && t.parsePc.Waiting? && |t.outQueue| == QUEUE_LENGTH
    ensures Reaches(c, s, u)
    ensures u == t.(packet := u.packet, ready := true, parsePc := SendingStore, emitted := u.emitted)
  {
    u := Assembled(c, s, t, m);
    ReachesNext(c, s, u, ParseSendOut);
    u := Next(c, u, ParseSendOut);
  }

  /** With OutQueue full, an emission goes to storeQueue. */
  lemma EmitToStore<T(!new), M(!new)>(c: Assembly<T, M>, s: State<T>, t: State<T>, m: M) returns (u: State<T>)
    requires Reaches(c, s, t) && t.parsePc.Waiting? && |t.outQueue| == QUEUE_LENGTH
    requires |t.storeQueue| < QUEUE_LENGTH
    ensures Reaches(c, s, u) && |u.storeQueue| == |t.storeQueue| + 1
    ensures u.parsePc == t.parsePc && u.outQueue == t.outQueue
    ensures u.cardPc == t.cardPc && u.cardDepth == t.cardDepth
  {
    u := ReachesSecondSend(c, s, t, m);
    ReachesNext(c, s, u, ParseSendStore);
    u := Next(c, u, ParseSendStore);
  }

  lemma FillStore<T(!new), M(!new)>(c: Assembly<T, M>, s: State<T>, t: State<T>, m: M) returns (u: State<T>)
    requires Reaches(c, s, t) && t.parsePc.Waiting? && |t.outQueue| == QUEUE_LENGTH
    requires |t.storeQueue| <= QUEUE_LENGTH
    ensures Reaches(c, s, u) && |u.storeQueue| == QUEUE_LENGTH
    ensures u.parsePc == t.parsePc && u.outQueue == t.outQueue
    decreases QUEUE_LENGTH - |t.storeQueue|
  {
    u := t;
    if |t.storeQueue| < QUEUE_LENGTH {
      u := EmitToStore(c, s, t, m);
      u := FillStore(c, s, u, m);
    }
  }

  /** From every start, whatever the messages are: the parse task can find both queues full. */
  lemma ParseTaskCanDrop<T(!new), M(!new)>(c: Assembly<T, M>, s: State<T>, m: M)
    requires Start(s)
    ensures exists t :: Reaches(c, s, t) && ParseDrops<T, M>(t, ParseSendStore)
  {
    assert Run<T, M>(c, s, []) == s;
    var t := FillOut(c, s, s, m);
    t := FillStore(c, s, t, m);
    t := ReachesSecondSend(c, s, t, m);
    assert ParseDrops<T, M>(t, ParseSendStore);
  }

  /** A packet is spilled and pushed to the file. */
  lemma ReachesStored<T(!new), M(!new)>(c: Assembly<T, M>, s: State<T>, m: M) returns (t: State<T>)
    requires Start(s)
    ensures Reaches(c, s, t) && t.parsePc.Waiting? && |t.outQueue| == QUEUE_LENGTH
    ensures t.cardPc.Refill? && t.cardDepth == 1
  {
    assert Run<T, M>(c, s, []) == s;
    t := FillOut(c, s, s, m);
    t := EmitToStore(c, s, t, m);
    ReachesNext(c, s, t, CardRefill);
    t := Next(c, t, CardRefill);
    ReachesNext(c, s, t, CardReceive(false));
    t := Next(c, t, CardReceive(false));
    ReachesNext(c, s, t, CardPush);
    t := Next(c, t, CardPush);
  }

  /** Then one is taken from OutQueue, and the card task passes its test and pops. */
  lemma ReachesResend<T(!new), M(!new)>(c: Assembly<T, M>, s: State<T>, m: M) returns (t: State<T>)
    requires Start(s)
    ensures Reaches(c, s, t) && t.cardPc.Resending? && t.parsePc.Waiting? && |t.outQueue| == QUEUE_LENGTH - 1
  {
    t := ReachesStored(c, s, m);
    ReachesNext(c, s, t, MqttReceive);
    t := Next(c, t, MqttReceive);
    ReachesNext(c, s, t, CardRefill);
    t := Next(c, t, CardRefill);
    ReachesNext(c, s, t, CardPop);
    t := Next(c, t, CardPop);
  }

  /** And OutQueue can fill up between the card task's test and the end of its send. */
  lemma CardTaskCanDrop<T(!new), M(!new)>(c: Assembly<T, M>, s: State<T>, m: M)
    requires Start(s)
    ensures exists t :: Reaches(c, s, t) && CardDrops<T, M>(t, CardResend(true))
  {
    var t := ReachesResend(c, s, m);
    t := FillOut(c, s, t, m);
    assert CardDrops<T, M>(t, CardResend(true));
  }

  // ---- order ----

  /** Nothing waits anywhere but in OutQueue, in emission order. */
  ghost predicate PlainQueue<T>(s: State<T>) {
    && s.dequeued + s.outQueue + InParse(s) == s.emitted
    && |s.storeQueue| == |s.file| == |s.dropped| == 0 && s.cardDepth == 0
    && !s.parsePc.SendingStore? && (s.cardPc.Refill? || s.cardPc.Receiving?)
  }

  lemma NextKeepsPlainQueue<T, M>(c: Assembly<T, M>, s: State<T>, e: Event<M>)
    requires PlainQueue(s) && Bounded(s) && !FindsOutFull(s, e)
    ensures PlainQueue(Next(c, s, e))
  {
    if e.MqttReceive? && |s.outQueue| > 0 {
      assert s.outQueue == [s.outQueue[0]] + s.outQueue[1..];
    }
  }

  /** While no send to OutQueue ever finds it full, the pipeline is a plain queue: packets come out
      in the order they were emitted, and nothing is stored or dropped. */
  lemma {:induction false} NoBacklogMeansFifo<T(!new), M>(c: Assembly<T, M>, s: State<T>, events: seq<Event<M>>)
    requires Start(s)
    requires forall j :: 0 <= j < |events| ==> !FindsOutFull(At(c, s, events, j), events[j])
    ensures PlainQueue(Run(c, s, events))
  {
    if events != [] {
      var n := |events| - 1;
      var front := events[..n];
      forall j | 0 <= j < n ensures !FindsOutFull(At(c, s, front, j), front[j]) {
        assert front[..j] == events[..j];
        assert !FindsOutFull(At(c, s, events, j), events[j]);
      }
      NoBacklogMeansFifo(c, s, front);
      RunKeepsInv(c, s, front);
      assert !FindsOutFull(At(c, s, events, n), events[n]);
      NextKeepsPlainQueue(c, Run(c, s, front), events[n]);
    }
  }

  /** What a step does to the file stack, spills to storeQueue, and sends on or gives up as a refill. */
  function StepOps<T, M>(s: State<T>, e: Event<M>): seq<Op<T>> {
    if e.CardPop? && s.cardPc.Popping? then [Pop]
    else if e.CardPush? && s.cardPc.Pushing? then [Push(s.hand)]
    else []
  }

  function StepSpills<T, M>(s: State<T>, e: Event<M>): seq<T> {
    if e.ParseSendStore? && s.parsePc.SendingStore? && |s.storeQueue| < QUEUE_LENGTH then [s.packet] else []
  }

  function StepRefills<T, M>(s: State<T>, e: Event<M>): seq<T> {
    if e.CardResend? && s.cardPc.Resending? && (|s.outQueue| < QUEUE_LENGTH || e.timeout) then [s.hand] else []
  }

  /** The same over a run. */
  ghost function FileOps<T, M>(c: Assembly<T, M>, s: State<T>, events: seq<Event<M>>): seq<Op<T>> {
    if events == [] then []
    else
      var n := |events| - 1;
      FileOps(c, s, events[..n]) + StepOps(Run(c, s, events[..n]), events[n])
  }

  ghost function Spilled<T, M>(c: Assembly<T, M>, s: State<T>, events: seq<Event<M>>): seq<T> {
    if events == [] then []
    else
      var n := |events| - 1;
      Spilled(c, s, events[..n]) + StepSpills(Run(c, s, events[..n]), events[n])
  }

  ghost function Refilled<T, M>(c: Assembly<T, M>, s: State<T>, events: seq<Event<M>>): seq<T> {
    if events == [] then []
    else
      var n := |events| - 1;
      Refilled(c, s, events[..n]) + StepRefills(Run(c, s, events[..n]), events[n])
  }

  /** The packet between the pop and the end of its send, and the one between its receipt and its push. */
  function Popped<T>(s: State<T>): seq<T> { if s.cardPc.Resending? then [s.hand] else [] }

  function ToPush<T>(s: State<T>): seq<T> { if s.cardPc.Pushing? then [s.hand] else [] }

  /** The file holds what a stack holds after ops, the pops answered what was refilled or waits to be, and
      the pushes took what was spilled, oldest first. */
  ghost predicate InOrder<T>(s: State<T>, ops: seq<Op<T>>, spilled: seq<T>, refilled: seq<T>) {
    && RunStack([], ops).0 == s.file
    && Answers(RunStack([], ops).1) == refilled + Popped(s)
    && Pushes(ops) + ToPush(s) + s.storeQueue == spilled
  }

  lemma PopInOrder<T, M>(c: Assembly<T, M>, s: State<T>, ops: seq<Op<T>>, spilled: seq<T>, refilled: seq<T>)
    requires DepthsAgree(s) && s.cardPc.Popping? && InOrder(s, ops, spilled, refilled)
    ensures InOrder(Next<T, M>(c, s, CardPop), ops + [Pop], spilled, refilled)
  {
    RunSnoc([], ops, Pop);
    PushesSnoc(ops, Pop);
    AnswersSnoc(RunStack([], ops).1, Apply(s.file, Pop).1);
  }

  lemma PushInOrder<T, M>(c: Assembly<T, M>, s: State<T>, ops: seq<Op<T>>, spilled: seq<T>, refilled: seq<T>)
    requires s.cardPc.Pushing? && InOrder(s, ops, spilled, refilled)
    ensures InOrder(Next<T, M>(c, s, CardPush), ops + [Push(s.hand)], spilled, refilled)
  {
    RunSnoc([], ops, Push(s.hand));
    PushesSnoc(ops, Push(s.hand));
    AnswersSnoc(RunStack([], ops).1, Apply(s.file, Push(s.hand)).1);
  }

  lemma SpillInOrder<T, M>(c: Assembly<T, M>, s: State<T>, ops: seq<Op<T>>, spilled: seq<T>, refilled: seq<T>)
    requires s.parsePc.SendingStore? && |s.storeQueue| < QUEUE_LENGTH && InOrder(s, ops, spilled, refilled)
    ensures InOrder(Next<T, M>(c, s, ParseSendStore), ops, spilled + [s.packet], refilled)
  {
    assert Pushes(ops) + ToPush(s) + (s.storeQueue + [s.packet]) == spilled + [s.packet];
  }

  lemma ReceiveInOrder<T, M>(c: Assembly<T, M>, s: State<T>, timeout: bool,
                             ops: seq<Op<T>>, spilled: seq<T>, refilled: seq<T>)
    requires InOrder(s, ops, spilled, refilled)
    ensures InOrder(Next<T, M>(c, s, CardReceive(timeout)), ops, spilled, refilled)
  {
    if s.cardPc.Receiving? && |s.storeQueue| > 0 {
      assert s.storeQueue == [s.storeQueue[0]] + s.storeQueue[1..];
    }
  }

  lemma InOrderStill<T>(s: State<T>, t: State<T>, ops: seq<Op<T>>, spilled: seq<T>, before: seq<T>, after: seq<T>)
    requires InOrder(s, ops, spilled, before)
    requires t.file == s.file && t.storeQueue == s.storeQueue && ToPush(t) == ToPush(s)
    requires after + Popped(t) == before + Popped(s)
    ensures InOrder(t, ops, spilled, after)
  {
  }

  lemma ResendMoves<T, M>(c: Assembly<T, M>, s: State<T>, timeout: bool)
    ensures var t := Next<T, M>(c, s, CardResend(timeout));
            && t.file == s.file && t.storeQueue == s.storeQueue && ToPush(t) == ToPush(s)
            && StepRefills<T, M>(s, CardResend(timeout)) + Popped(t) == Popped(s)
  {
  }

  lemma ResendInOrder<T, M>(c: Assembly<T, M>, s: State<T>, timeout: bool,
                            ops: seq<Op<T>>, spilled: seq<T>, refilled: seq<T>)
    requires InOrder(s, ops, spilled, refilled)
    ensures InOrder(Next(c, s, CardResend(timeout)), ops, spilled, refilled + StepRefills<T, M>(s, CardResend(timeout)))
  {
    var t, more := Next<T, M>(c, s, CardResend(timeout)), StepRefills<T, M>(s, CardResend(timeout));
    ResendMoves(c, s, timeout);
    assert refilled + more + Popped(t) == refilled + (more + Popped(t));
    InOrderStill(s, t, ops, spilled, refilled, refilled + more);
  }

  lemma OthersMoveNothing<T, M>(c: Assembly<T, M>, s: State<T>, e: Event<M>)
    requires !e.CardPop? && !e.CardPush? && !e.CardResend? && !e.CardReceive? && !e.ParseSendStore?
    ensures var t := Next(c, s, e);
            && t.file == s.file && t.storeQueue == s.storeQueue
            && Popped(t) == Popped(s) && ToPush(t) == ToPush(s)
  {
  }

  lemma StepInOrder<T, M>(c: Assembly<T, M>, s: State<T>, e: Event<M>,
                          ops: seq<Op<T>>, spilled: seq<T>, refilled: seq<T>)
    requires DepthsAgree(s) && InOrder(s, ops, spilled, refilled)
    ensures InOrder(Next(c, s, e), ops + StepOps(s, e), spilled + StepSpills(s, e), refilled + StepRefills(s, e))
  {
    assert ops + [] == ops && spilled + [] == spilled && refilled + [] == refilled;
    match e {
      case CardPop => if s.cardPc.Popping? { PopInOrder(c, s, ops, spilled, refilled); }
      case CardPush => if s.cardPc.Pushing? { PushInOrder(c, s, ops, spilled, refilled); }
      case CardResend(timeout) => ResendInOrder(c, s, timeout, ops, spilled, refilled);
      case CardReceive(timeout) => ReceiveInOrder(c, s, timeout, ops, spilled, refilled);
      case ParseSendStore =>
        if s.parsePc.SendingStore? && |s.storeQueue| < QUEUE_LENGTH {
          SpillInOrder(c, s, ops, spilled, refilled);
        }
      case _ =>
        OthersMoveNothing(c, s, e);
        InOrderStill(s, Next(c, s, e), ops, spilled, refilled, refilled);
    }
  }

  /** Main result: over every interleaving the file behaves as a stack on which exactly the spilled packets
      are pushed, in the order they were spilled, and what the card task sends on or gives up is, in
      order, what the pops of that stack answer. */
  lemma {:induction false} RefillsComeFromTheStack<T(!new), M>(c: Assembly<T, M>, s: State<T>,
                                                               events: seq<Event<M>>)
    requires Start(s)
    ensures InOrder(Run(c, s, events), FileOps(c, s, events), Spilled(c, s, events), Refilled(c, s, events))
  {
    if events != [] {
      var n := |events| - 1;
      RefillsComeFromTheStack(c, s, events[..n]);
      RunKeepsInv(c, s, events[..n]);
      StepInOrder(c, Run(c, s, events[..n]), events[n],
                  FileOps(c, s, events[..n]), Spilled(c, s, events[..n]), Refilled(c, s, events[..n]));
    }
  }
}
