/** The parse and card tasks as code over the shared queues and the real file stack. Whatever steps the
    other tasks take in between, what they do is a run of the state machine, so its invariants carry over; in
    particular every push meets the file stack's demand of a nonzero last byte. */
module CollectorTasks {
  import opened Bytes
  import opened Packets
  import opened FileStacks
  import opened PacketAssembly
  import P = Pipeline

  lemma MiscIsNonzero(p: Packet)
    requires HasMisc(p)
    ensures p.fields != 0
  {
  }

  /** The records that packets are stored as. */
  ghost function Stored(ps: seq<Packet>): (rs: seq<Record>)
    requires forall p <- ps :: p.fields != 0
    ensures |rs| == |ps|
    ensures forall i :: 0 <= i < |ps| ==> rs[i] == ToBytes(ps[i])
  {
    if ps == [] then [] else Stored(ps[..|ps| - 1]) + [ToBytes(ps[|ps| - 1])]
  }

  /** The records are the images of the packets. */
  ghost predicate Holds(rs: seq<Record>, file: seq<Packet>) {
    (forall p <- file :: p.fields != 0) && rs == Stored(file)
  }

  lemma HoldsFewer(rs: seq<Record>, file: seq<Packet>)
    requires Holds(rs, file) && file != []
    ensures var n := |file| - 1;
            |rs| == n + 1 && Holds(rs[..n], file[..n]) && FromBytes(rs[n]) == file[n]
  {
    BytesRoundTrip(file[|file| - 1]);
  }

  lemma HoldsMore(rs: seq<Record>, file: seq<Packet>, p: Packet)
    requires Holds(rs, file) && HasMisc(p)
    ensures p.fields != 0 && Holds(rs + [ToBytes(p)], file + [p])
  {
    MiscIsNonzero(p);
    assert (file + [p])[..|file|] == file;
  }

  lemma FileUntouched(s: State, e: Event)
    requires !e.CardPop? && !e.CardPush?
    ensures P.Next(CODE, s, e).file == s.file
  {
  }

  datatype Task = CardTask | ParseTask

  /** Whether an event is a step of the task. */
  predicate By(t: Task, e: Event) {
    match t
    case CardTask => e.CardRefill? || e.CardPop? || e.CardResend? || e.CardReceive? || e.CardPush?
    case ParseTask => e.ParseReceive? || e.ParseTest? || e.ParseSendOut? || e.ParseSendStore?
  }

  /** Where the task stands in s it also stands in t, with the same locals. */
  predicate SameFor(task: Task, s: State, t: State) {
    match task
    case CardTask => t.cardPc == s.cardPc && t.hand == s.hand
    case ParseTask => t.parsePc == s.parsePc && t.packet == s.packet
  }

  lemma OthersLeaveTask(task: Task, s: State, e: Event)
    requires !By(task, e)
    ensures SameFor(task, s, P.Next(CODE, s, e))
  {
  }

  /** How many turns of its loop the card task has begun. */
  ghost function Refills(log: seq<Event>): nat {
    if log == [] then 0 else Refills(log[..|log| - 1]) + if log[|log| - 1].CardRefill? then 1 else 0
  }

  /** The messages the parse task has taken. */
  ghost function Taken(log: seq<Event>): seq<Message> {
    if log == [] then []
    else Taken(log[..|log| - 1]) + if log[|log| - 1].ParseReceive? then [log[|log| - 1].message] else []
  }

  lemma LogSnoc(log: seq<Event>, e: Event)
    ensures Refills(log + [e]) == Refills(log) + if e.CardRefill? then 1 else 0
    ensures Taken(log + [e]) == Taken(log) + if e.ParseReceive? then [e.message] else []
  {
    assert (log + [e])[..|log|] == log;
  }

  /** What `me` has done by itself is the same in both logs. */
  ghost predicate NothingBy(me: Task, before: seq<Event>, after: seq<Event>) {
    match me
    case CardTask => Refills(after) == Refills(before)
    case ParseTask => Taken(after) == Taken(before)
  }

  /** What the other tasks do between and during the calls of one turn of the card task. */
  datatype CardTurn = CardTurn(afterTest: seq<Event>, sending: seq<seq<Event>>, afterSend: seq<Event>,
                               receiving: seq<seq<Event>>, beforePush: seq<Event>)

  /** A message for the parse task, and what the others do while it waits for it and handles it. */
  datatype ParseTurn = ParseTurn(before: seq<Event>, message: Message, afterMessage: seq<Event>,
                                 afterTest: seq<Event>, afterSend: seq<Event>)

  function Messages(turns: seq<ParseTurn>): seq<Message> {
    if turns == [] then [] else Messages(turns[..|turns| - 1]) + [turns[|turns| - 1].message]
  }

  lemma MessagesSnoc(turns: seq<ParseTurn>, k: nat)
    requires k < |turns|
    ensures Messages(turns[..k + 1]) == Messages(turns[..k]) + [turns[k].message]
  {
    assert turns[..k + 1][..k] == turns[..k];
  }

  /** Queues, flags and the tasks' locals, the file stack, and the steps taken so far. */
  class Collector {
    var s: State
    const stack: FileStack
    ghost const start: State
    ghost var log: seq<Event>

    /** The file stack is sound and holds the packets of the state machine's file. */
    ghost predicate Linked()
      reads this, stack
    {
      stack.Valid() && Holds(stack.records, s.file)
    }

    ghost predicate Valid()
      reads this, stack
    {
      Linked() && Start(start) && s == P.Run(CODE, start, log)
    }

    constructor (initial: Packet)
      ensures Valid() && fresh(stack)
    {
      var packet: Packet := initial.(fields := MISC_FIELD);
      var first: State := P.State(packet, false, P.Waiting, [], [], [], P.Refill, initial, 0, 0, [], [], []);
      s, start, log := first, first, [];
      stack := new FileStack();
    }

    lemma Safe()
      requires Valid()
      ensures P.DepthsAgree(s) && P.Everywhere(s, HasMisc)
    {
      P.EveryRunIsSafe(CODE, start, log);
      MiscEverywhere(start, log);
    }

    lemma DepthIsTheStacks()
      requires Valid()
      ensures s.cardDepth == stack.depth
    {
      Safe();
    }

    /** Records the step e, just taken from `before`. */
    ghost method Log(e: Event, before: State)
      requires before == P.Run(CODE, start, log) && s == P.Next(CODE, before, e)
      modifies this`log
      ensures s == P.Run(CODE, start, log) && log == old(log) + [e]
      ensures Refills(log) == Refills(old(log)) + if e.CardRefill? then 1 else 0
      ensures Taken(log) == Taken(old(log)) + if e.ParseReceive? then [e.message] else []
    {
      LogSnoc(log, e);
      assert (log + [e])[..|log|] == log;
      log := log + [e];
    }

    /** The pop through the real file stack. */
    method CardPop()
      requires Valid() && s.cardPc.Popping?
      modifies this, stack
      ensures Valid() && log == old(log) + [P.CardPop] && NothingBy(CardTask, old(log), log)
      ensures s == P.Next(CODE, old(s), P.CardPop)
    {
      Safe();
      HoldsFewer(stack.records, s.file);
      ghost var before := s;
      var data := stack.Pop(ToBytes(s.hand));
      s := s.(hand := FromBytes(data), file := s.file[..|s.file| - 1], fileDepth := stack.depth,
              cardDepth := s.cardDepth - 1, cardPc := P.Resending);
      Log(P.CardPop, before);
    }

    /** The push through the real file stack: the MISC bit makes the last byte of the record nonzero. */
    method CardPush()
      requires Valid() && s.cardPc.Pushing?
      modifies this, stack
      ensures Valid() && log == old(log) + [P.CardPush] && NothingBy(CardTask, old(log), log)
      ensures s == P.Next(CODE, old(s), P.CardPush)
    {
      Safe();
      assert s.hand in P.InHand(s);
      HoldsMore(stack.records, s.file, s.hand);
      ghost var before := s;
      stack.Push(ToBytes(s.hand));
      s := s.(file := s.file + [s.hand], fileDepth := stack.depth, cardDepth := s.cardDepth + 1, cardPc := P.Refill);
      Log(P.CardPush, before);
    }

    /** A step that leaves the file stack alone. */
    method QueueStep(e: Event)
      requires Valid() && !e.CardPop? && !e.CardPush?
      modifies this
      ensures Valid() && log == old(log) + [e] && s == P.Next(CODE, old(s), e)
    {
      ghost var before := s;
      FileUntouched(s, e);
      s := P.Next(CODE, s, e);
      Log(e, before);
    }

    method Step(e: Event)
      requires Valid()
      modifies this, stack
      ensures Valid() && old(log) <= log && s == P.Next(CODE, old(s), e)
      ensures !By(CardTask, e) ==> NothingBy(CardTask, old(log), log)
      ensures !By(ParseTask, e) ==> NothingBy(ParseTask, old(log), log)
    {
      if e.CardPop? && s.cardPc.Popping? {
        LogSnoc(log, e);
        CardPop();
      } else if e.CardPush? && s.cardPc.Pushing? {
        LogSnoc(log, e);
        CardPush();
      } else if !e.CardPop? && !e.CardPush? {
        LogSnoc(log, e);
        QueueStep(e);
      }
    }

    /** Any schedule of the tasks, over the real file stack, is a run of the state machine. */
    method Schedule(events: seq<Event>)
      requires Valid()
      modifies this, stack
      ensures Valid() && old(log) <= log && s == P.Run(CODE, old(s), events)
    {
      for k := 0 to |events|
        invariant Valid() && old(log) <= log && s == P.Run(CODE, old(s), events[..k])
      {
        assert events[..k + 1][..k] == events[..k];
        Step(events[k]);
      }
      assert events[..|events|] == events;
    }

    /** While `me` is between or inside its calls the others take their steps among the events. */
    method Others(me: Task, events: seq<Event>)
      requires Valid()
      modifies this, stack
      ensures Valid() && old(log) <= log && SameFor(me, old(s), s) && NothingBy(me, old(log), log)
    {
      for k := 0 to |events|
        invariant Valid() && old(log) <= log && SameFor(me, old(s), s) && NothingBy(me, old(log), log)
      {
        if !By(me, events[k]) {
          OthersLeaveTask(me, s, events[k]);
          Step(events[k]);
        }
      }
    }

    // ---- the card task ----

    /** The last look of xQueueSend at OutQueue: the popped packet is sent unless OutQueue is full. */
    method LastTry() returns (sent: bool)
      requires Valid() && s.cardPc.Resending?
      modifies this
      ensures Valid() && log == old(log) + [P.CardResend(true)] && s.cardPc.Receiving?
      ensures NothingBy(CardTask, old(log), log)
      ensures sent <==> |old(s.outQueue)| < P.QUEUE_LENGTH
      ensures if sent then s.outQueue == old(s.outQueue) + [old(s.hand)] && s.dropped == old(s.dropped)
              else s.outQueue == old(s.outQueue) && s.dropped == old(s.dropped) + [old(s.hand)]
    {
      sent := |s.outQueue| < P.QUEUE_LENGTH;
      ghost var before := s;
      if sent {
        s := s.(outQueue := s.outQueue + [s.hand], cardPc := P.Receiving);
      } else {
        s := s.(dropped := s.dropped + [s.hand], cardPc := P.Receiving);
      }
      Log(P.CardResend(true), before);
    }

    /** xQueueSend of the popped packet, which waits while OutQueue is full until the 100 ms are over. */
    method SendToOut(waits: seq<seq<Event>>) returns (sent: bool)
      requires Valid() && s.cardPc.Resending?
      modifies this, stack
      ensures Valid() && old(log) <= log && s.cardPc.Receiving? && NothingBy(CardTask, old(log), log)
      ensures if sent then old(s.hand) in s.outQueue else old(s.hand) in s.dropped
    {
      var k := 0;
      while |s.outQueue| >= P.QUEUE_LENGTH && k < |waits|
        invariant 0 <= k <= |waits| && Valid() && old(log) <= log && NothingBy(CardTask, old(log), log)
        invariant s.cardPc.Resending? && s.hand == old(s.hand)
        decreases |waits| - k
      {
        Others(CardTask, waits[k]);
        k := k + 1;
      }
      sent := LastTry();
    }

    /** xQueueReceive from storeQueue, likewise. */
    method ReceiveSpilled(waits: seq<seq<Event>>) returns (received: bool)
      requires Valid() && s.cardPc.Receiving?
      modifies this, stack
      ensures Valid() && old(log) <= log && NothingBy(CardTask, old(log), log)
      ensures s.cardPc == if received then P.Pushing else P.Refill
      ensures !received ==> |s.storeQueue| == 0
    {
      var k := 0;
      while |s.storeQueue| == 0 && k < |waits|
        invariant 0 <= k <= |waits| && Valid() && old(log) <= log && NothingBy(CardTask, old(log), log)
        invariant s.cardPc.Receiving?
        decreases |waits| - k
      {
        Others(CardTask, waits[k]);
        k := k + 1;
      }
      received := |s.storeQueue| > 0;
      ghost var before := s;
      if received {
        s := s.(hand := s.storeQueue[0], storeQueue := s.storeQueue[1..], cardPc := P.Pushing);
      } else {
        s := s.(cardPc := P.Refill);
      }
      Log(P.CardReceive(true), before);
    }

    /** The refill test of the card task; answers whether it pops. */
    method TestRefill() returns (refill: bool)
      requires Valid() && s.cardPc.Refill?
      modifies this
      ensures Valid() && log == old(log) + [P.CardRefill] && Refills(log) == Refills(old(log)) + 1
      ensures refill <==> |old(s.outQueue)| < P.QUEUE_LENGTH && old(s.cardDepth) > 0
      ensures s.cardPc == if refill then P.Popping else P.Receiving
    {
      refill := |s.outQueue| < P.QUEUE_LENGTH && s.cardDepth > 0;
      ghost var before := s;
      s := s.(cardPc := if refill then P.Popping else P.Receiving);
      Log(P.CardRefill, before);
    }

    method PopAndSend(sending: seq<seq<Event>>)
      requires Valid() && s.cardPc.Popping?
      modifies this, stack
      ensures Valid() && old(log) <= log && s.cardPc.Receiving? && NothingBy(CardTask, old(log), log)
    {
      CardPop();
      var _ := SendToOut(sending);
    }

    /** The first half of the card task's loop body: the pop and its send. */
    method RefillTurn(afterTest: seq<Event>, sending: seq<seq<Event>>)
      requires Valid() && s.cardPc.Refill?
      modifies this, stack
      ensures Valid() && old(log) <= log && s.cardPc.Receiving? && Refills(log) == Refills(old(log)) + 1
    {
      var refill := TestRefill();
      if refill {
        Others(CardTask, afterTest);
        PopAndSend(sending);
      }
    }

    method PushReceived(beforePush: seq<Event>)
      requires Valid() && s.cardPc.Pushing?
      modifies this, stack
      ensures Valid() && old(log) <= log && s.cardPc.Refill? && NothingBy(CardTask, old(log), log)
    {
      Others(CardTask, beforePush);
      CardPush();
    }

    /** The second half: the receive and its push. After it the private depth is the file's again. */
    method SpillTurn(receiving: seq<seq<Event>>, beforePush: seq<Event>)
      requires Valid() && s.cardPc.Receiving?
      modifies this, stack
      ensures Valid() && old(log) <= log && s.cardPc.Refill? && s.cardDepth == stack.depth
      ensures NothingBy(CardTask, old(log), log)
    {
      var received := ReceiveSpilled(receiving);
      if received {
        PushReceived(beforePush);
      }
      DepthIsTheStacks();
    }

    /** The loop of the card task over any number of turns, with what the other tasks do between and during
        its calls. */
    method RunCard(turns: seq<CardTurn>)
      requires Valid() && s.cardPc.Refill? && s.cardDepth == stack.depth
      modifies this, stack
      ensures Valid() && old(log) <= log && s.cardPc.Refill? && s.cardDepth == stack.depth
      ensures Refills(log) == Refills(old(log)) + |turns|
    {
      for k := 0 to |turns|
        invariant Valid() && old(log) <= log && s.cardPc.Refill? && s.cardDepth == stack.depth
        invariant Refills(log) == Refills(old(log)) + k
      {
        RefillTurn(turns[k].afterTest, turns[k].sending);
        Others(CardTask, turns[k].afterSend);
        SpillTurn(turns[k].receiving, turns[k].beforePush);
      }
    }

    // ---- the parse task ----

    /** The switch over the kinds of message. */
    method TakeMessage(m: Message)
      requires Valid() && s.parsePc.Waiting?
      modifies this
      ensures Valid() && log == old(log) + [P.ParseReceive(m)] && s.parsePc.Testing?
      ensures Taken(log) == Taken(old(log)) + [m]
    {
      ghost var before := s;
      var p := s.packet;
      match m {
        case Gps(fix) => p := WithFix(p, fix);
        case Fuel(v) => p := p.(fuel := v, fields := Or(p.fields, FUEL_FIELD));
        case OilTemp(v) => p := p.(temp := v, fields := Or(p.fields, TEMP_FIELD));
        case Speed(v) => p := p.(speed := v, fields := Or(p.fields, SPEED_FIELD));
        case Vin(vin) => p := p.(vin := vin, fields := Or(p.fields, VIN_FIELD));
        case Other =>
      }
      s := s.(packet := p, parsePc := P.Testing);
      Log(P.ParseReceive(m), before);
    }

    /** The test of packetREADY. */
    method TestReady() returns (emit: bool)
      requires Valid() && s.parsePc.Testing?
      modifies this
      ensures Valid() && log == old(log) + [P.ParseTest] && NothingBy(ParseTask, old(log), log)
      ensures emit == old(s.ready)
      ensures s.parsePc == if emit then P.SendingOut else P.Waiting
    {
      emit := s.ready;
      ghost var before := s;
      s := if emit then s.(parsePc := P.SendingOut, emitted := s.emitted + [s.packet]) else s.(parsePc := P.Waiting);
      Log(P.ParseTest, before);
    }

    /** The send to OutQueue, which does not wait. */
    method SendFirst() returns (sent: bool)
      requires Valid() && s.parsePc.SendingOut?
      modifies this
      ensures Valid() && log == old(log) + [P.ParseSendOut] && NothingBy(ParseTask, old(log), log)
      ensures s.parsePc == if sent then P.Waiting else P.SendingStore
      ensures sent ==> s.packet.fields == MISC_FIELD && !s.ready
    {
      sent := |s.outQueue| < P.QUEUE_LENGTH;
      ghost var before := s;
      if sent {
        var rest := s.packet.(fields := MISC_FIELD);
        s := s.(outQueue := s.outQueue + [s.packet], packet := rest, ready := false, parsePc := P.Waiting);
      } else {
        s := s.(parsePc := P.SendingStore);
      }
      Log(P.ParseSendOut, before);
    }

    /** The send to storeQueue, whose failure only gets logged. */
    method SendSecond()
      requires Valid() && s.parsePc.SendingStore?
      modifies this
      ensures Valid() && log == old(log) + [P.ParseSendStore] && NothingBy(ParseTask, old(log), log)
      ensures s.parsePc.Waiting? && s.packet.fields == MISC_FIELD && !s.ready
    {
      ghost var before := s;
      var rest := s.packet.(fields := MISC_FIELD);
      if |s.storeQueue| < P.QUEUE_LENGTH {
        s := s.(storeQueue := s.storeQueue + [s.packet], packet := rest, ready := false, parsePc := P.Waiting);
      } else {
        s := s.(dropped := s.dropped + [s.packet], packet := rest, ready := false, parsePc := P.Waiting);
      }
      Log(P.ParseSendStore, before);
    }

    /** The two sends. */
    method Emit(afterSend: seq<Event>)
      requires Valid() && s.parsePc.SendingOut?
      modifies this, stack
      ensures Valid() && old(log) <= log && s.parsePc.Waiting? && NothingBy(ParseTask, old(log), log)
      ensures s.packet.fields == MISC_FIELD && !s.ready
    {
      var sent := SendFirst();
      if !sent {
        Others(ParseTask, afterSend);
        SendSecond();
      }
    }

    method TestAndEmit(afterTest: seq<Event>, afterSend: seq<Event>)
      requires Valid() && s.parsePc.Testing?
      modifies this, stack
      ensures Valid() && old(log) <= log && s.parsePc.Waiting? && NothingBy(ParseTask, old(log), log)
    {
      var emit := TestReady();
      if emit {
        Others(ParseTask, afterTest);
        Emit(afterSend);
      }
    }

    method OneMessage(m: Message, afterMessage: seq<Event>, afterTest: seq<Event>, afterSend: seq<Event>)
      requires Valid() && s.parsePc.Waiting?
      modifies this, stack
      ensures Valid() && old(log) <= log && s.parsePc.Waiting? && Taken(log) == Taken(old(log)) + [m]
    {
      TakeMessage(m);
      Others(ParseTask, afterMessage);
      TestAndEmit(afterTest, afterSend);
    }

    method WaitAndTake(t: ParseTurn)
      requires Valid() && s.parsePc.Waiting?
      modifies this, stack
      ensures Valid() && old(log) <= log && s.parsePc.Waiting? && Taken(log) == Taken(old(log)) + [t.message]
    {
      Others(ParseTask, t.before);
      OneMessage(t.message, t.afterMessage, t.afterTest, t.afterSend);
    }

    /** The loop of the parse task over any messages, likewise: it takes exactly these, in order. */
    method RunParse(turns: seq<ParseTurn>)
      requires Valid() && s.parsePc.Waiting?
      modifies this, stack
      ensures Valid() && old(log) <= log && s.parsePc.Waiting?
      ensures Taken(log) == Taken(old(log)) + Messages(turns)
    {
      ghost var before := Taken(log);
      for k := 0 to |turns|
        invariant Valid() && old(log) <= log && s.parsePc.Waiting?
        invariant Taken(log) == before + Messages(turns[..k])
      {
        MessagesSnoc(turns, k);
        WaitAndTake(turns[k]);
      }
      assert turns[..|turns|] == turns;
    }
  }
}
