/** The session whose fields the steps of the gateway's life cycle change (discordgo/wsapi.go). Every region of
    Open, CloseWithCode and listen is one step of the run in `steps`. */
module GatewaySession {
  import opened Outcome
  import opened Gateway

  /** What the network does during one Open. */
  datatype Attempt =
    Attempt(address: Option<string>, dials: bool, hello: Frame, readable: bool, sent: bool, first: Frame)

  predicate Dials(gateway: Option<string>, e: Attempt) {
    (gateway.Some? || e.address.Some?) && e.dials
  }

  /** A packet whose handling takes the lock Open holds: a reconnect request or a heartbeat acknowledgement. */
  predicate Hangs(m: Frame) {
    m.Packet? && m.op in {7, 11}
  }

  /** A packet that is dealt with: what it asks for, a heartbeat or a new identify, was written. */
  predicate DealtWith(m: Frame) {
    m.Packet? && m.op !in {7, 11} && (m.op in {1, 9} ==> m.answered)
  }

  /** The first packet is a readable hello, and the greeting was written. */
  predicate Greets(e: Attempt) {
    e.hello.Packet? && e.hello.op == 10 && e.readable && e.sent
  }

  /** Open never returns exactly when it gets as far as reading a packet that hangs it. */
  predicate Deadlocks(gateway: Option<string>, e: Attempt) {
    Dials(gateway, e) && (Hangs(e.hello) || (Greets(e) && Hangs(e.first)))
  }

  /** Open succeeds exactly when all of this went well. */
  predicate Succeeds(gateway: Option<string>, e: Attempt) {
    Dials(gateway, e) && Greets(e) && DealtWith(e.first)
  }

  class Session {
    var wsConn: Option<nat>
    var listening: Option<nat>
    var gateway: Option<string>
    var sequence: int
    var sessionID: string
    var lock: Lock
    var held: map<nat, Holding>
    ghost var log: seq<Mark>
    /** The number the next connection or channel gets. */
    var next: nat
    /** The run so far. */
    ghost var steps: seq<Step>

    ghost function Now(): State
      reads this
    {
      State(wsConn, listening, gateway, sequence, sessionID, lock, held, log)
    }

    ghost predicate Valid()
      reads this
    {
      Now() == Run(steps) && next == |log|
    }

    constructor ()
      ensures Valid() && steps == []
    {
      wsConn, listening, gateway, sequence, sessionID := None, None, None, 0, "";
      lock, held, log, next, steps := Free, map[], [], 0, [];
    }

    method Note(m: Mark)
      modifies this`log, this`next
      ensures log == old(log) + [m] && next == old(next) + 1
    {
      log := log + [m];
      next := next + 1;
    }

    /** The region just done is the next step of the run. */
    ghost method Did(step: Step)
      requires Now() == Apply(Run(steps), step)
      modifies this`steps
      ensures Now() == Run(steps) && steps == old(steps) + [step]
    {
      RunStep(steps, step);
      steps := steps + [step];
    }

    /** onEvent up to its call of the handlers, or to the panic. */
    method OnEvent(m: Frame) returns (err: bool, panics: bool)
      requires next == |log|
      modifies this`sequence, this`log, this`next
      ensures next == |log| && panics == Panics(old(Now()), m)
      ensures Now() == Hear(old(Now()), m) && err == Errs(old(Now()), m)
    {
      if !m.Packet? {
        return true, false;
      }
      if m.op == 1 {
        return !m.answered || wsConn.None?, wsConn.None?;
      }
      if m.op == 9 {
        if !m.answered || wsConn.None? {
          return true, wsConn.None?;
        }
        Note(Reidentified(wsConn.value));
      } else if m.op == 0 {
        sequence := m.sequence;
        Note(Stored(m.sequence));
      }
      return false, false;
    }

    // ---- a listener ----

    /** The select of listen after a read. */
    method Select(k: nat, m: Frame)
      requires Valid()
      modifies this`held, this`steps
      ensures Valid() && steps == old(steps) + [DoRead(k, m)]
    {
      RunKeeps(steps);
      if listening == Some(k) && k !in held && !m.Lost? {
        held := held[k := Taken(m)];
      }
      Did(DoRead(k, m));
    }

    /** onEvent on the packet taken up, and its handlers. */
    method ProcessHeld(k: nat)
      requires Valid()
      modifies this`held, this`sequence, this`log, this`next, this`steps
      ensures Valid() && steps == old(steps) + [DoProcess(k)]
    {
      if k in held && held[k].Taken? {
        var m := held[k].frame;
        held := if SetsSession(m) then held[k := Handling(m.ready.value)] else held - {k};
        Note(Processed(k));
        var _, _ := OnEvent(m);
      }
      Did(DoProcess(k));
    }

    method HandleHeld(k: nat)
      requires Valid()
      modifies this`held, this`sessionID, this`log, this`next, this`steps
      ensures Valid() && steps == old(steps) + [DoHandle(k)]
    {
      if k in held && held[k].Handling? {
        sessionID := held[k].session;
        held := held - {k};
        Note(Ready(sessionID));
      }
      Did(DoHandle(k));
    }

    /** While Open or Close holds the lock, any listeners go on with the packets they hold. */
    method Others()
      requires Valid()
      modifies this`held, this`sequence, this`sessionID, this`log, this`next, this`steps
      ensures Valid() && old(steps) <= steps
    {
      var rounds: nat := *;
      while rounds > 0
        invariant Valid() && old(steps) <= steps
        decreases rounds
      {
        var k: nat, begins: bool := *, *;
        if begins {
          ProcessHeld(k);
        } else {
          HandleHeld(k);
        }
        rounds := rounds - 1;
      }
    }

    /** One round of the loop in listen. Anything may happen between its regions. */
    method Listen(k: nat, m: Frame)
      requires Valid()
      modifies this`held, this`sequence, this`sessionID, this`log, this`next, this`steps
      ensures Valid() && old(steps) <= steps
    {
      Select(k, m);
      Others();
      ProcessHeld(k);
      Others();
      HandleHeld(k);
    }

    // ---- Open ----

    method HangUpAndUnlock()
      requires next == |log|
      modifies this`wsConn, this`lock, this`log, this`next
      ensures next == |log| && Now() == HangUp(old(Now())).(lock := Free)
    {
      if wsConn.Some? {
        Note(HungUp(wsConn.value));
        wsConn := None;
      }
      lock := Free;
    }

    method ListenAndUnlock()
      requires next == |log|
      modifies this`listening, this`lock, this`log, this`next
      ensures next == |log| && Now() == OpenChannel(old(Now())).(lock := Free)
    {
      listening := Some(next);
      Note(Opened);
      lock := Free;
    }

    method TryDial(address: Option<string>, dials: bool) returns (v: Verdict)
      requires Valid() && lock.Free?
      modifies this
      ensures Valid() && steps == old(steps) + [DoOpen(address, dials)]
      ensures v.Going? <==> old(wsConn).None? && (old(gateway).Some? || address.Some?) && dials
      ensures v.Going? ==> lock == Opening(AwaitHello)
      ensures !v.Going? ==> v.Failed? && lock.Free? && wsConn == old(wsConn) && listening == old(listening)
      ensures gateway == if old(wsConn).Some? || (old(gateway).None? && address.None?) then old(gateway)
                         else if !dials then None else if old(gateway).Some? then old(gateway) else address
    {
      v := Failed;
      if wsConn.None? && (gateway.Some? || address.Some?) {
        if gateway.None? {
          gateway := address;
        }
        if dials {
          wsConn := Some(next);
          Note(Dialled);
          lock := Opening(AwaitHello);
          v := Going;
        } else {
          gateway := None;
        }
      }
      Did(DoOpen(address, dials));
    }

    method ReadHello(i: Input) returns (v: Verdict)
      requires Valid() && lock == Opening(AwaitHello) && wsConn.Some?
      modifies this
      ensures Valid() && steps == old(steps) + [DoAdvance(i)] && (Now(), v) == Hello(old(Now()), i)
      ensures gateway == old(gateway)
    {
      if NeedsLock(i.frame) {
        lock, v := Jammed, Stuck;
      } else {
        var err, _ := OnEvent(i.frame);
        v := Going;
        if SetsSession(i.frame) {
          lock := Opening(HelloHandled(i.frame.ready.value));
        } else if err || !IsHello(i) {
          HangUpAndUnlock();
          v := Failed;
        } else {
          lock := Opening(LoadSequence);
        }
      }
      Did(DoAdvance(i));
    }

    method ReadFirst(i: Input) returns (v: Verdict)
      requires Valid() && lock == Opening(AwaitFirst) && wsConn.Some?
      modifies this
      ensures Valid() && steps == old(steps) + [DoAdvance(i)] && (Now(), v) == First(old(Now()), i)
      ensures gateway == old(gateway)
    {
      if NeedsLock(i.frame) {
        lock, v := Jammed, Stuck;
      } else {
        var err, _ := OnEvent(i.frame);
        if SetsSession(i.frame) {
          lock := Opening(FirstHandled(i.frame.ready.value));
          v := Going;
        } else if err {
          HangUpAndUnlock();
          v := Failed;
        } else {
          ListenAndUnlock();
          v := Fine;
        }
      }
      Did(DoAdvance(i));
    }

    /** The handlers of a READY that came instead of the hello, or as the first packet. */
    method HandleReady(i: Input) returns (v: Verdict)
      requires Valid() && wsConn.Some? && lock.Opening? && (lock.phase.HelloHandled? || lock.phase.FirstHandled?)
      modifies this
      ensures Valid() && steps == old(steps) + [DoAdvance(i)] && (Now(), v) == Advance(old(Now()), i)
      ensures gateway == old(gateway)
    {
      sessionID := lock.phase.session;
      Note(Ready(sessionID));
      if lock.phase.HelloHandled? {
        HangUpAndUnlock();
        v := Failed;
      } else {
        ListenAndUnlock();
        v := Fine;
      }
      Did(DoAdvance(i));
    }

    method LoadTheSequence(i: Input)
      requires Valid() && lock == Opening(LoadSequence) && wsConn.Some?
      modifies this`lock, this`log, this`next, this`steps
      ensures Valid() && steps == old(steps) + [DoAdvance(i)] && lock == Opening(Decide(sequence))
    {
      Note(Loaded(wsConn.value, sequence));
      lock := Opening(Decide(sequence));
      Did(DoAdvance(i));
    }

    method Send(m: Mark, sent: bool) returns (v: Verdict)
      requires next == |log| && wsConn.Some?
      modifies this`wsConn, this`lock, this`log, this`next
      ensures next == |log| && (Now(), v) == Greet(old(Now()), m, sent)
    {
      if sent {
        Note(m);
        lock := Opening(AwaitFirst);
        v := Going;
      } else {
        HangUpAndUnlock();
        v := Failed;
      }
    }

    method DecideGreeting(i: Input) returns (v: Verdict)
      requires Valid() && lock.Opening? && lock.phase.Decide? && wsConn.Some?
      modifies this`wsConn, this`lock, this`log, this`next, this`steps
      ensures Valid() && steps == old(steps) + [DoAdvance(i)] && (Now(), v) == Advance(old(Now()), i)
    {
      if sessionID == "" && lock.phase.sequence == 0 {
        v := Send(Identified(wsConn.value), i.sent);
      } else {
        lock, v := Opening(Fill(lock.phase.sequence)), Going;
      }
      Did(DoAdvance(i));
    }

    method SendResume(i: Input) returns (v: Verdict)
      requires Valid() && lock.Opening? && lock.phase.Fill? && wsConn.Some?
      modifies this`wsConn, this`lock, this`log, this`next, this`steps
      ensures Valid() && steps == old(steps) + [DoAdvance(i)] && (Now(), v) == Advance(old(Now()), i)
    {
      v := Send(Resumed(wsConn.value, sessionID, lock.phase.sequence), i.sent);
      Did(DoAdvance(i));
    }

    /** The greeting, in its two or three regions. */
    method SayHello(i: Input) returns (v: Verdict)
      requires Valid() && lock == Opening(LoadSequence) && wsConn.Some?
      modifies this
      ensures Valid() && old(steps) <= steps && gateway == old(gateway)
      ensures i.sent ==> v.Going? && lock == Opening(AwaitFirst) && wsConn.Some?
      ensures !i.sent ==> v.Failed? && lock.Free? && wsConn.None?
    {
      LoadTheSequence(i);
      Others();
      v := DecideGreeting(i);
      if v.Going? && lock.phase.Fill? {
        Others();
        v := SendResume(i);
      }
    }

    /** Open from the moment it has the lock. It ends connected and listening, or with the error of an open
        session, or with neither a connection nor a channel, or never. */
    method Open(e: Attempt) returns (v: Verdict)
      requires Valid() && lock.Free?
      modifies this
      ensures Valid() && old(steps) <= steps && !v.Going?
      ensures v.Stuck? <==> old(wsConn).None? && Deadlocks(old(gateway), e)
      ensures v.Fine? <==> old(wsConn).None? && Succeeds(old(gateway), e)
      ensures v.Stuck? <==> lock.Jammed?
      ensures !v.Stuck? ==> lock.Free?
      ensures v.Fine? ==> old(wsConn).None? && wsConn.Some? && listening.Some?
      ensures v.Failed? && old(wsConn).None? ==> wsConn.None? && listening.None?
      ensures old(wsConn).Some? ==> v.Failed? && wsConn == old(wsConn) && listening == old(listening)
      ensures gateway == if old(wsConn).Some? || (old(gateway).None? && e.address.None?) then old(gateway)
                         else if !e.dials then None else if old(gateway).Some? then old(gateway) else e.address
    {
      RunKeeps(steps);
      v := TryDial(e.address, e.dials);
      if v.Going? {
        RunKeeps(steps);
        v := Connect(e);
      }
      RunKeeps(steps);
    }

    method Connect(e: Attempt) returns (v: Verdict)
      requires Valid() && lock == Opening(AwaitHello) && wsConn.Some?
      modifies this
      ensures Valid() && old(steps) <= steps && !v.Going?
      ensures v.Stuck? <==> Hangs(e.hello) || (Greets(e) && Hangs(e.first))
      ensures v.Fine? <==> Greets(e) && DealtWith(e.first)
      ensures gateway == old(gateway)
      ensures v.Stuck? <==> lock.Jammed?
      ensures !v.Stuck? ==> lock.Free?
      ensures v.Fine? ==> wsConn.Some? && listening.Some?
      ensures v.Failed? ==> wsConn.None?
    {
      v := MeetHello(Input(e.hello, e.readable, e.sent));
      if v.Going? {
        Others();
        v := SayHello(Input(e.hello, e.readable, e.sent));
      }
      if v.Going? {
        v := MeetFirst(Input(e.first, e.readable, e.sent));
      }
    }

    method MeetHello(i: Input) returns (v: Verdict)
      requires Valid() && lock == Opening(AwaitHello) && wsConn.Some?
      modifies this
      ensures Valid() && old(steps) <= steps && !v.Fine?
      ensures v.Stuck? <==> Hangs(i.frame)
      ensures v.Going? <==> i.frame.Packet? && i.frame.op == 10 && i.readable
      ensures gateway == old(gateway)
      ensures v.Going? ==> lock == Opening(LoadSequence) && wsConn.Some?
      ensures v.Stuck? ==> lock.Jammed?
      ensures v.Failed? ==> lock.Free? && wsConn.None?
    {
      Others();
      v := ReadHello(i);
      if v.Going? && lock.phase.HelloHandled? {
        Others();
        v := HandleReady(i);
      }
    }

    method MeetFirst(i: Input) returns (v: Verdict)
      requires Valid() && lock == Opening(AwaitFirst) && wsConn.Some?
      modifies this
      ensures Valid() && old(steps) <= steps && !v.Going?
      ensures v.Stuck? <==> Hangs(i.frame)
      ensures v.Fine? <==> DealtWith(i.frame)
      ensures gateway == old(gateway)
      ensures v.Stuck? ==> lock.Jammed?
      ensures v.Fine? ==> lock.Free? && wsConn.Some? && listening.Some?
      ensures v.Failed? ==> lock.Free? && wsConn.None?
    {
      Others();
      v := ReadFirst(i);
      if v.Going? {
        Others();
        v := HandleReady(i);
      }
    }

    // ---- CloseWithCode ----

    /** From the moment it has the lock. */
    method CloseWithCode()
      requires Valid() && lock.Free?
      modifies this
      ensures Valid() && old(steps) <= steps
      ensures lock.Free? && wsConn.None? && listening.None?
    {
      RunKeeps(steps);
      CloseListening();
      Others();
      RunKeeps(steps);
      if lock.Closing? {
        HangUpAndUnlock();
      }
      Did(DoEndClose);
      RunKeeps(steps);
    }

    method CloseListening()
      requires Valid() && lock.Free?
      modifies this`listening, this`lock, this`log, this`next, this`steps
      ensures Valid() && steps == old(steps) + [DoClose]
      ensures listening.None? && lock == if wsConn.Some? then Closing else Free
    {
      if listening.Some? {
        Note(Closed(listening.value));
        listening := None;
      }
      if wsConn.Some? {
        lock := Closing;
      }
      Did(DoClose);
    }
  }
}
