/** The gateway connection's life cycle (discordgo/wsapi.go): Open, CloseWithCode and the packets a listener
    reads. Open and CloseWithCode hold the session lock, but listeners store the sequence and the session id
    without it. So a step here is one region between two accesses to what is shared, and a run is any
    interleaving of such steps by Open, CloseWithCode and all listeners, those of closed connections too. */
module Gateway {
  import opened Outcome

  /** What happened, in order. A connection and a listening channel are numbered by the position of the
      mark that made them. */
  datatype Mark =
    | Dialled
    | HungUp(conn: nat)
    | Loaded(conn: nat, sequence: int)
    | Identified(conn: nat)
    | Resumed(conn: nat, session: string, sequence: int)
    | Reidentified(conn: nat)
    | Opened
    | Closed(channel: nat)
    | Processed(channel: nat)
    | Stored(sequence: int)
    | Ready(session: string)

  /** Where an Open stands that holds the lock. In the two `Handled` phases the sequence of a READY is stored
      and its handler, which sets the session id, still has to run. */
  datatype Phase =
    | AwaitHello
    | HelloHandled(session: string)
    | LoadSequence
    | Decide(sequence: int)
    | Fill(sequence: int)
    | AwaitFirst
    | FirstHandled(session: string)

  /** Who holds the session lock; `Jammed` is an Open that waits for the lock it holds. */
  datatype Lock = Free | Opening(phase: Phase) | Closing | Jammed

  /** What a read gives: an error, something that does not decode, or a packet. `ready` is the session id of
      a READY packet, `answered` whether a reply the packet calls for is written without error. */
  datatype Frame = Lost | Garbled | Packet(op: int, sequence: int, ready: Option<string>, answered: bool)

  /** What a listener is busy with: a packet past the select, or a READY whose sequence is stored. */
  datatype Holding = Taken(frame: Frame) | Handling(session: string)

  datatype State = State(wsConn: Option<nat>, listening: Option<nat>, gateway: Option<string>, sequence: int,
                         sessionID: string, lock: Lock, held: map<nat, Holding>, log: seq<Mark>)

  /** What the network does in one phase of an Open. */
  datatype Input = Input(frame: Frame, readable: bool, sent: bool)

  datatype Verdict = Going | Fine | Failed | Stuck

  // ---- the single changes ----

  function Say(s: State, m: Mark): State {
    s.(log := s.log + [m])
  }

  function Dial(s: State): State {
    s.(wsConn := Some(|s.log|), log := s.log + [Dialled])
  }

  function HangUp(s: State): State {
    match s.wsConn
    case None => s
    case Some(c) => s.(wsConn := None, log := s.log + [HungUp(c)])
  }

  function OpenChannel(s: State): State {
    s.(listening := Some(|s.log|), log := s.log + [Opened])
  }

  function CloseChannel(s: State): State {
    match s.listening
    case None => s
    case Some(k) => s.(listening := None, log := s.log + [Closed(k)])
  }

  function Store(s: State, sequence: int): State {
    s.(sequence := sequence, log := s.log + [Stored(sequence)])
  }

  function SetSession(s: State, session: string): State {
    s.(sessionID := session, log := s.log + [Ready(session)])
  }

  // ---- onEvent ----

  /** Op 7 and Op 11 take the session lock. */
  predicate NeedsLock(m: Frame) {
    m.Packet? && (m.op == 7 || m.op == 11)
  }

  /** The heartbeat that op 1 asks for and the identify that op 9 asks for are written through the session's
      connection: without one, that is a method call on a nil pointer. */
  predicate Panics(s: State, m: Frame) {
    m.Packet? && (m.op == 1 || m.op == 9) && s.wsConn.None?
  }

  /** What Session.onEvent does up to its call of the handlers. What follows a panic counts as a failed write. */
  function Hear(s: State, m: Frame): State {
    if !m.Packet? then s
    else if m.op == 9 && m.answered && s.wsConn.Some? then Say(s, Reidentified(s.wsConn.value))
    else if m.op == 0 then Store(s, m.sequence)
    else s
  }

  /** Whether it returns an error. */
  predicate Errs(s: State, m: Frame) {
    !m.Packet? || ((m.op == 1 || m.op == 9) && !(m.answered && s.wsConn.Some?))
  }

  predicate SetsSession(m: Frame) {
    m.Packet? && m.op == 0 && m.ready.Some?
  }

  // ---- Open, region by region ----

  /** Session.Open up to the first read. An Open that finds the lock taken waits, which changes nothing. */
  function Start(s: State, address: Option<string>, dials: bool): State {
    if !s.lock.Free? || s.wsConn.Some? || (s.gateway.None? && address.None?) then s
    else if !dials then s.(gateway := None)
    else Dial(s.(gateway := if s.gateway.None? then address else s.gateway, lock := Opening(AwaitHello)))
  }

  /** The deferred function of Open after an error. */
  function Leave(s: State): (State, Verdict) {
    (HangUp(s).(lock := Free), Failed)
  }

  function Finish(s: State): (State, Verdict) {
    (OpenChannel(s).(lock := Free), Fine)
  }

  function Proceed(s: State, phase: Phase): (State, Verdict) {
    (s.(lock := Opening(phase)), Going)
  }

  predicate IsHello(i: Input) {
    i.frame.Packet? && i.frame.op == 10 && i.readable
  }

  function Hello(s: State, i: Input): (State, Verdict) {
    var h := Hear(s, i.frame);
    if NeedsLock(i.frame) then (s.(lock := Jammed), Stuck)
    else if SetsSession(i.frame) then Proceed(h, HelloHandled(i.frame.ready.value))
    else if Errs(s, i.frame) || !IsHello(i) then Leave(h)
    else Proceed(h, LoadSequence)
  }

  function First(s: State, i: Input): (State, Verdict) {
    var h := Hear(s, i.frame);
    if NeedsLock(i.frame) then (s.(lock := Jammed), Stuck)
    else if SetsSession(i.frame) then Proceed(h, FirstHandled(i.frame.ready.value))
    else if Errs(s, i.frame) then Leave(h)
    else Finish(h)
  }

  /** A greeting that cannot be written ends the Open. */
  function Greet(s: State, m: Mark, sent: bool): (State, Verdict) {
    if sent then Proceed(Say(s, m), AwaitFirst) else Leave(s)
  }

  /** The next region of an Open: a new session is asked for when neither a session id nor a sequence is
      there, otherwise the last session is resumed. */
  function Advance(s: State, i: Input): (State, Verdict)
    requires s.lock.Opening? && s.wsConn.Some?
  {
    var conn := s.wsConn.value;
    match s.lock.phase
    case AwaitHello => Hello(s, i)
    case HelloHandled(session) => Leave(SetSession(s, session))
    case LoadSequence => Proceed(Say(s, Loaded(conn, s.sequence)), Decide(s.sequence))
    case Decide(q) => if s.sessionID == "" && q == 0 then Greet(s, Identified(conn), i.sent) else Proceed(s, Fill(q))
    case Fill(q) => Greet(s, Resumed(conn, s.sessionID, q), i.sent)
    case AwaitFirst => First(s, i)
    case FirstHandled(session) => Finish(SetSession(s, session))
  }

  // ---- CloseWithCode ----

  /** The channel is closed first; the connection a second later. */
  function Close(s: State): State {
    if !s.lock.Free? then s
    else CloseChannel(s).(lock := if s.wsConn.Some? then Closing else Free)
  }

  function EndClose(s: State): State {
    if s.lock.Closing? then HangUp(s).(lock := Free) else s
  }

  // ---- the listeners ----

  predicate Listener(log: seq<Mark>, k: nat) {
    k < |log| && log[k] == Opened
  }

  /** A packet read by the listener of channel k passes the select while the channel is not closed. After a
      failed read a listener goes on with a Close and an Open, which are steps of their own. */
  function Read(s: State, k: nat, m: Frame): State {
    if !Listener(s.log, k) || Closed(k) in s.log || k in s.held || m.Lost? then s
    else s.(held := s.held[k := Taken(m)])
  }

  /** Beginning to process: the packet is not held any more, and the mark says so. */
  function Begin(s: State, j: nat): State
    requires j in s.held && s.held[j].Taken?
  {
    var m := s.held[j].frame;
    Say(s.(held := if SetsSession(m) then s.held[j := Handling(m.ready.value)] else s.held - {j}), Processed(j))
  }

  /** It is processed without the lock, whatever happened since. Op 7 goes on with a Close and an Open, and
      Op 11 waits for the lock to note the time, which is not modelled. */
  function Process(s: State, k: nat): State {
    if k !in s.held || !s.held[k].Taken? then s
    else Hear(Begin(s, k), s.held[k].frame)
  }

  function Handle(s: State, k: nat): State {
    if k !in s.held || !s.held[k].Handling? then s
    else SetSession(s.(held := s.held - {k}), s.held[k].session)
  }

  // ---- runs ----

  datatype Step =
    | DoOpen(address: Option<string>, dials: bool)
    | DoAdvance(input: Input)
    | DoClose
    | DoEndClose
    | DoRead(channel: nat, frame: Frame)
    | DoProcess(channel: nat)
    | DoHandle(channel: nat)

  function Apply(s: State, step: Step): State {
    match step
    case DoOpen(address, dials) => Start(s, address, dials)
    case DoAdvance(i) => if s.lock.Opening? && s.wsConn.Some? then Advance(s, i).0 else s
    case DoClose => Close(s)
    case DoEndClose => EndClose(s)
    case DoRead(k, m) => Read(s, k, m)
    case DoProcess(k) => Process(s, k)
    case DoHandle(k) => Handle(s, k)
  }

  const DISCONNECTED := State(None, None, None, 0, "", Free, map[], [])

  function Run(steps: seq<Step>): State {
    if steps == [] then DISCONNECTED else Apply(Run(steps[..|steps| - 1]), steps[|steps| - 1])
  }

  lemma RunStep(steps: seq<Step>, step: Step)
    ensures Run(steps + [step]) == Apply(Run(steps), step)
  {
    assert (steps + [step])[..|steps|] == steps;
  }

  // ---- what every moment of a run keeps ----

  /** The sequence of the last dispatch processed. */
  function LastSequence(log: seq<Mark>): int {
    if log == [] then 0
    else if log[|log| - 1].Stored? then log[|log| - 1].sequence
    else LastSequence(log[..|log| - 1])
  }

  /** The session id of the last READY handled. */
  function LastSession(log: seq<Mark>): string {
    if log == [] then ""
    else if log[|log| - 1].Ready? then log[|log| - 1].session
    else LastSession(log[..|log| - 1])
  }

  predicate Dialling(log: seq<Mark>, c: nat) {
    c < |log| && log[c] == Dialled
  }

  /** The connections dialled and not hung up are just this one, or none. */
  ghost predicate OneConnection(log: seq<Mark>, conn: Option<nat>) {
    forall c: nat :: Dialling(log, c) && HungUp(c) !in log <==> conn == Some(c)
  }

  /** The channels opened and not closed are just this one, or none. */
  ghost predicate OneChannel(log: seq<Mark>, channel: Option<nat>) {
    forall k: nat :: Listener(log, k) && Closed(k) !in log <==> channel == Some(k)
  }

  ghost predicate NotLoaded(log: seq<Mark>, conn: nat) {
    forall q :: Loaded(conn, q) !in log
  }

  /** The sequence is loaded once for a connection, as it stands then; a greeting uses it and the session as it
      stands then; and only an open channel or connection is closed, which has not been closed before. */
  ghost predicate Honest(m: Mark, before: seq<Mark>) {
    match m
    case Loaded(c, q) => q == LastSequence(before) && Dialling(before, c) && NotLoaded(before, c)
    case Identified(c) => Loaded(c, 0) in before && LastSession(before) == ""
    case Resumed(c, session, q) => Loaded(c, q) in before && session == LastSession(before)
    case Closed(k) => Listener(before, k) && m !in before
    case HungUp(c) => Dialling(before, c) && m !in before
    case _ => true
  }

  /** Every mark was honest when it was made. */
  ghost predicate Truthful(log: seq<Mark>) {
    log == [] || (Honest(log[|log| - 1], log[..|log| - 1]) && Truthful(log[..|log| - 1]))
  }

  ghost predicate Current(s: State) {
    s.sequence == LastSequence(s.log) && s.sessionID == LastSession(s.log)
  }

  ghost predicate Inside(s: State) {
    OneConnection(s.log, s.wsConn) && OneChannel(s.log, s.listening) && Truthful(s.log) && Current(s)
  }

  /** With the lock free there is a connection exactly when there is a channel; whoever holds the lock has a
      connection without one. */
  predicate Paired(s: State) {
    if s.lock.Free? then s.wsConn.None? <==> s.listening.None? else s.wsConn.Some? && s.listening.None?
  }

  /** What the phase of an Open says about the sequence it has loaded, or not yet. */
  ghost predicate PhaseOk(s: State) {
    s.lock.Opening? && s.wsConn.Some? ==>
      match s.lock.phase
      case AwaitHello => NotLoaded(s.log, s.wsConn.value)
      case HelloHandled(_) => true
      case LoadSequence => NotLoaded(s.log, s.wsConn.value)
      case Decide(q) => Loaded(s.wsConn.value, q) in s.log
      case Fill(q) => Loaded(s.wsConn.value, q) in s.log
      case AwaitFirst => true
      case FirstHandled(_) => true
  }

  ghost predicate Good(s: State) {
    Inside(s) && Paired(s) && PhaseOk(s)
  }

  // ---- a mark more ----

  lemma AppendTruthful(log: seq<Mark>, m: Mark)
    requires Truthful(log) && Honest(m, log)
    ensures Truthful(log + [m])
  {
    assert (log + [m])[..|log|] == log;
  }

  lemma AppendLast(log: seq<Mark>, m: Mark)
    ensures LastSequence(log + [m]) == if m.Stored? then m.sequence else LastSequence(log)
    ensures LastSession(log + [m]) == if m.Ready? then m.session else LastSession(log)
  {
    assert (log + [m])[..|log|] == log;
  }

  /** A mark speaks about positions before its own only. */
  lemma {:induction false} MarksLookBack(log: seq<Mark>, m: Mark)
    requires Truthful(log) && m in log
    ensures m.HungUp? || m.Loaded? ==> m.conn < |log|
    ensures m.Closed? ==> m.channel < |log|
  {
    var init := log[..|log| - 1];
    assert log == init + [log[|log| - 1]];
    if m in init {
      MarksLookBack(init, m);
    }
  }

  /** Which connections are open after a mark. */
  lemma AppendConnection(log: seq<Mark>, conn: Option<nat>, m: Mark)
    requires OneConnection(log, conn) && Truthful(log)
    requires m.Dialled? ==> conn.None?
    requires m.HungUp? ==> conn == Some(m.conn)
    ensures OneConnection(log + [m], if m.Dialled? then Some(|log|) else if m.HungUp? then None else conn)
  {
    var log' := log + [m];
    if HungUp(|log|) in log {
      MarksLookBack(log, HungUp(|log|));
    }
    forall c: nat
      ensures Dialling(log', c) && HungUp(c) !in log'
              <==> (if m.Dialled? then Some(|log|) else if m.HungUp? then None else conn) == Some(c)
    {
      assert HungUp(c) in log' <==> HungUp(c) in log || m == HungUp(c);
      assert Dialling(log', c) <==> Dialling(log, c) || (m.Dialled? && c == |log|);
      assert Dialling(log, c) && HungUp(c) !in log <==> conn == Some(c);
    }
  }

  lemma AppendChannel(log: seq<Mark>, channel: Option<nat>, m: Mark)
    requires OneChannel(log, channel) && Truthful(log)
    requires m.Opened? ==> channel.None?
    requires m.Closed? ==> channel == Some(m.channel)
    ensures OneChannel(log + [m], if m.Opened? then Some(|log|) else if m.Closed? then None else channel)
  {
    var log' := log + [m];
    if Closed(|log|) in log {
      MarksLookBack(log, Closed(|log|));
    }
    forall k: nat
      ensures Listener(log', k) && Closed(k) !in log'
              <==> (if m.Opened? then Some(|log|) else if m.Closed? then None else channel) == Some(k)
    {
      assert Closed(k) in log' <==> Closed(k) in log || m == Closed(k);
      assert Listener(log', k) <==> Listener(log, k) || (m.Opened? && k == |log|);
      assert Listener(log, k) && Closed(k) !in log <==> channel == Some(k);
    }
  }

  /** A mark logged with the connection, the channel and the numbers that go with it. */
  lemma Logged(s: State, s': State, m: Mark)
    requires Inside(s) && Honest(m, s.log) && s'.log == s.log + [m]
    requires m.Dialled? ==> s.wsConn.None?
    requires m.Opened? ==> s.listening.None?
    requires m.HungUp? ==> s.wsConn == Some(m.conn)
    requires m.Closed? ==> s.listening == Some(m.channel)
    requires s'.wsConn == if m.Dialled? then Some(|s.log|) else if m.HungUp? then None else s.wsConn
    requires s'.listening == if m.Opened? then Some(|s.log|) else if m.Closed? then None else s.listening
    requires s'.sequence == if m.Stored? then m.sequence else s.sequence
    requires s'.sessionID == if m.Ready? then m.session else s.sessionID
    ensures Inside(s')
  {
    AppendConnection(s.log, s.wsConn, m);
    AppendChannel(s.log, s.listening, m);
    AppendTruthful(s.log, m);
    AppendLast(s.log, m);
  }

  lemma HangUpKeeps(s: State)
    requires Inside(s)
    ensures Inside(HangUp(s))
  {
    if s.wsConn.Some? {
      assert Dialling(s.log, s.wsConn.value) && HungUp(s.wsConn.value) !in s.log;
      Logged(s, HangUp(s), HungUp(s.wsConn.value));
    }
  }

  lemma CloseChannelKeeps(s: State)
    requires Inside(s)
    ensures Inside(CloseChannel(s))
  {
    if s.listening.Some? {
      assert Listener(s.log, s.listening.value) && Closed(s.listening.value) !in s.log;
      Logged(s, CloseChannel(s), Closed(s.listening.value));
    }
  }

  lemma StoreKeeps(s: State, sequence: int)
    requires Inside(s)
    ensures Inside(Store(s, sequence))
  {
    Logged(s, Store(s, sequence), Stored(sequence));
  }

  lemma SetSessionKeeps(s: State, session: string)
    requires Inside(s)
    ensures Inside(SetSession(s, session))
  {
    Logged(s, SetSession(s, session), Ready(session));
  }

  lemma SayKeeps(s: State, m: Mark)
    requires Inside(s) && Honest(m, s.log)
    requires m.Loaded? || m.Identified? || m.Resumed? || m.Reidentified? || m.Processed?
    ensures Inside(Say(s, m))
  {
    Logged(s, Say(s, m), m);
  }

  /** The frame of what onEvent can change. */
  lemma HearKeeps(s: State, m: Frame)
    requires Inside(s)
    ensures var s' := Hear(s, m);
            && Inside(s') && s'.wsConn == s.wsConn && s'.listening == s.listening && s'.lock == s.lock
                && s'.held == s.held
            && (forall x: Mark :: x.Loaded? ==> (x in s'.log <==> x in s.log))
  {
    if m.Packet? {
      if m.op == 9 && m.answered && s.wsConn.Some? {
        SayKeeps(s, Reidentified(s.wsConn.value));
      } else if m.op == 0 {
        StoreKeeps(s, m.sequence);
      }
    }
  }

  // ---- every step keeps it ----

  lemma StartKeeps(s: State, address: Option<string>, dials: bool)
    requires Good(s)
    ensures Good(Start(s, address, dials))
  {
    if s.lock.Free? && s.wsConn.None? && (s.gateway.Some? || address.Some?) && dials {
      var t := s.(gateway := if s.gateway.None? then address else s.gateway, lock := Opening(AwaitHello));
      Logged(t, Dial(t), Dialled);
      forall q
        ensures Loaded(|s.log|, q) !in Dial(t).log
      {
        if Loaded(|s.log|, q) in s.log {
          MarksLookBack(s.log, Loaded(|s.log|, q));
        }
      }
    }
  }

  /** How a region of Open can end. */
  ghost predicate Ended(r: (State, Verdict)) {
    && Good(r.0)
    && (r.1.Going? ==> r.0.lock.Opening?)
    && (r.1.Fine? ==> r.0.lock.Free? && r.0.wsConn.Some? && r.0.listening.Some?)
    && (r.1.Failed? ==> r.0.lock.Free? && r.0.wsConn.None? && r.0.listening.None?)
    && (r.1.Stuck? ==> r.0.lock.Jammed?)
  }

  ghost predicate Midway(s: State) {
    Inside(s) && s.wsConn.Some? && s.listening.None?
  }

  lemma LeaveEnds(s: State)
    requires Midway(s)
    ensures Ended(Leave(s))
  {
    HangUpKeeps(s);
  }

  lemma FinishEnds(s: State)
    requires Midway(s)
    ensures Ended(Finish(s))
  {
    Logged(s, OpenChannel(s), Opened);
  }

  lemma ProceedEnds(s: State, phase: Phase)
    requires Midway(s) && PhaseOk(s.(lock := Opening(phase)))
    ensures Ended(Proceed(s, phase))
  {
  }

  lemma HelloEnds(s: State, i: Input)
    requires Midway(s) && NotLoaded(s.log, s.wsConn.value)
    ensures Ended(Hello(s, i))
  {
    var h := Hear(s, i.frame);
    HearKeeps(s, i.frame);
    if NeedsLock(i.frame) {
    } else if SetsSession(i.frame) {
      ProceedEnds(h, HelloHandled(i.frame.ready.value));
    } else if Errs(s, i.frame) || !IsHello(i) {
      LeaveEnds(h);
    } else {
      ProceedEnds(h, LoadSequence);
    }
  }

  lemma FirstEnds(s: State, i: Input)
    requires Midway(s)
    ensures Ended(First(s, i))
  {
    var h := Hear(s, i.frame);
    HearKeeps(s, i.frame);
    if NeedsLock(i.frame) {
    } else if SetsSession(i.frame) {
      ProceedEnds(h, FirstHandled(i.frame.ready.value));
    } else if Errs(s, i.frame) {
      LeaveEnds(h);
    } else {
      FinishEnds(h);
    }
  }

  lemma GreetEnds(s: State, m: Mark, sent: bool)
    requires Midway(s) && Honest(m, s.log) && (m.Identified? || m.Resumed?)
    ensures Ended(Greet(s, m, sent))
  {
    if sent {
      SayKeeps(s, m);
      ProceedEnds(Say(s, m), AwaitFirst);
    } else {
      LeaveEnds(s);
    }
  }

  /** Every region of an Open leads to the next one, or ends connected and listening, or with neither a
      connection nor a channel, or never. */
  lemma AdvanceEnds(s: State, i: Input)
    requires Good(s) && s.lock.Opening?
    ensures Ended(Advance(s, i))
  {
    var conn := s.wsConn.value;
    match s.lock.phase
    case AwaitHello => HelloEnds(s, i);
    case HelloHandled(session) =>
      SetSessionKeeps(s, session);
      LeaveEnds(SetSession(s, session));
    case LoadSequence =>
      assert Dialling(s.log, conn);
      SayKeeps(s, Loaded(conn, s.sequence));
      ProceedEnds(Say(s, Loaded(conn, s.sequence)), Decide(s.sequence));
    case Decide(q) =>
      if s.sessionID == "" && q == 0 {
        GreetEnds(s, Identified(conn), i.sent);
      } else {
        ProceedEnds(s, Fill(q));
      }
    case Fill(q) => GreetEnds(s, Resumed(conn, s.sessionID, q), i.sent);
    case AwaitFirst => FirstEnds(s, i);
    case FirstHandled(session) =>
      SetSessionKeeps(s, session);
      FinishEnds(SetSession(s, session));
  }

  /** A region of Open never returns exactly when it meets a packet that needs the lock it holds: a reconnect
      request or a heartbeat acknowledgement. */
  lemma StuckExactly(s: State, i: Input)
    requires s.lock.Opening? && s.wsConn.Some?
    ensures Advance(s, i).1.Stuck? <==> (s.lock.phase.AwaitHello? || s.lock.phase.AwaitFirst?) && NeedsLock(i.frame)
    ensures Advance(s, i).0.lock.Jammed? <==> Advance(s, i).1.Stuck?
  {
    var h := Hear(s, i.frame);
    assert h.lock == s.lock && h.wsConn == s.wsConn;
  }

  lemma CloseKeeps(s: State)
    requires Good(s)
    ensures Good(Close(s))
  {
    CloseChannelKeeps(s);
  }

  lemma EndCloseKeeps(s: State)
    requires Good(s)
    ensures Good(EndClose(s))
    ensures s.lock.Closing? ==> EndClose(s).lock.Free? && EndClose(s).wsConn.None? && EndClose(s).listening.None?
  {
    HangUpKeeps(s);
  }

  lemma ProcessKeeps(s: State, k: nat)
    requires Good(s)
    ensures var s' := Process(s, k);
            Good(s') && s'.wsConn == s.wsConn && s'.listening == s.listening && s'.lock == s.lock
                && s'.gateway == s.gateway
  {
    if k in s.held && s.held[k].Taken? {
      var m := s.held[k].frame;
      var t := s.(held := if SetsSession(m) then s.held[k := Handling(m.ready.value)] else s.held - {k});
      SayKeeps(t, Processed(k));
      HearKeeps(Say(t, Processed(k)), m);
    }
  }

  lemma HandleKeeps(s: State, k: nat)
    requires Good(s)
    ensures var s' := Handle(s, k);
            Good(s') && s'.wsConn == s.wsConn && s'.listening == s.listening && s'.lock == s.lock
                && s'.gateway == s.gateway
  {
    if k in s.held && s.held[k].Handling? {
      SetSessionKeeps(s.(held := s.held - {k}), s.held[k].session);
    }
  }

  lemma StepKeeps(s: State, step: Step)
    requires Good(s)
    ensures Good(Apply(s, step))
  {
    match step
    case DoOpen(address, dials) => StartKeeps(s, address, dials);
    case DoAdvance(i) =>
      if s.lock.Opening? {
        AdvanceEnds(s, i);
      }
    case DoClose => CloseKeeps(s);
    case DoEndClose => EndCloseKeeps(s);
    case DoRead(_, _) =>
    case DoProcess(k) => ProcessKeeps(s, k);
    case DoHandle(k) => HandleKeeps(s, k);
  }

  /** Over every run: at most one connection and one channel are open, they are the session's, and with the
      lock free they come and go together. */
  lemma {:induction false} RunKeeps(steps: seq<Step>)
    ensures Good(Run(steps))
  {
    if steps != [] {
      RunKeeps(steps[..|steps| - 1]);
      StepKeeps(Run(steps[..|steps| - 1]), steps[|steps| - 1]);
    }
  }

  // ---- what the history of a run says ----

  lemma {:induction false} TruthfulAt(log: seq<Mark>, p: nat)
    requires Truthful(log) && p < |log|
    ensures Honest(log[p], log[..p])
  {
    var init := log[..|log| - 1];
    if p < |init| {
      TruthfulAt(init, p);
      assert init[..p] == log[..p];
    }
  }

  /** The one moment before p at which the connection's sequence was loaded. */
  ghost predicate LoadedAt(log: seq<Mark>, p: nat, at: nat, conn: nat, sequence: int) {
    && at < p <= |log| && log[at] == Loaded(conn, sequence) && sequence == LastSequence(log[..at])
    && forall x: nat, q :: x < p && log[x] == Loaded(conn, q) ==> x == at
  }

  lemma Earlier(log: seq<Mark>, x: nat, y: nat)
    requires x < y <= |log|
    ensures log[x] in log[..y]
  {
    assert log[..y][x] == log[x];
  }

  lemma LoadedOnce(log: seq<Mark>, p: nat, conn: nat, sequence: int) returns (at: nat)
    requires Truthful(log) && p <= |log| && Loaded(conn, sequence) in log[..p]
    ensures LoadedAt(log, p, at, conn, sequence)
  {
    at :| at < p && log[..p][at] == Loaded(conn, sequence);
    TruthfulAt(log, at);
    forall x: nat, q | x < p && log[x] == Loaded(conn, q)
      ensures x == at
    {
      TruthfulAt(log, x);
      if x < at {
        Earlier(log, x, at);
      } else if at < x {
        Earlier(log, at, x);
      }
    }
  }

  /** Whatever steps came between: a resume names the session as it was last set when it is written, and the
      sequence last processed when it was loaded for this connection; an identify is sent only when that
      sequence was 0 and no session id was set. */
  lemma GreetingsMatchHistory(steps: seq<Step>, p: nat) returns (at: nat)
    requires p < |Run(steps).log| && (Run(steps).log[p].Resumed? || Run(steps).log[p].Identified?)
    ensures var log := Run(steps).log;
            match log[p]
            case Resumed(c, session, q) => session == LastSession(log[..p]) && LoadedAt(log, p, at, c, q)
            case Identified(c) => LastSession(log[..p]) == "" && LoadedAt(log, p, at, c, 0)
            case _ => true
  {
    RunKeeps(steps);
    var log := Run(steps).log;
    TruthfulAt(log, p);
    at := LoadedOnce(log, p, log[p].conn, if log[p].Resumed? then log[p].sequence else 0);
  }

  // ---- every connection is greeted once ----

  predicate Greeting(m: Mark, c: nat) {
    m == Identified(c) || (m.Resumed? && m.conn == c)
  }

  function Greetings(log: seq<Mark>, c: nat): nat {
    if log == [] then 0
    else Greetings(log[..|log| - 1], c) + (if Greeting(log[|log| - 1], c) then 1 else 0)
  }

  /** An Open that holds the lock has greeted its connection or not yet. */
  predicate BeforeGreeting(l: Lock) {
    l.Opening? && !l.phase.AwaitFirst? && !l.phase.FirstHandled?
  }

  /** No connection to come is greeted, and the present one once, or not yet while its Open is before that. */
  ghost predicate GreetedOnce(s: State) {
    && (forall c: nat :: c >= |s.log| ==> Greetings(s.log, c) == 0)
    && (s.wsConn.Some? && !s.lock.Jammed? ==>
          s.wsConn.value < |s.log| && Greetings(s.log, s.wsConn.value) == if BeforeGreeting(s.lock) then 0 else 1)
  }

  lemma GreetingsMore(log: seq<Mark>, m: Mark)
    ensures forall c :: Greetings(log + [m], c) == Greetings(log, c) + (if Greeting(m, c) then 1 else 0)
  {
    assert (log + [m])[..|log|] == log;
  }

  /** Marks that greet nobody change no count. */
  lemma NoGreeting(s: State, s': State, m: Mark)
    requires GreetedOnce(s) && s'.log == s.log + [m] && !m.Identified? && !m.Resumed?
    requires s'.wsConn == s.wsConn || s'.wsConn.None?
    requires s'.wsConn.Some? && !s'.lock.Jammed? ==>
              !s.lock.Jammed? && BeforeGreeting(s'.lock) == BeforeGreeting(s.lock)
    ensures GreetedOnce(s')
  {
    GreetingsMore(s.log, m);
  }

  lemma HearGreets(s: State, m: Frame)
    requires GreetedOnce(s)
    ensures GreetedOnce(Hear(s, m))
  {
    var s' := Hear(s, m);
    if s' != s {
      NoGreeting(s, s', s'.log[|s.log|]);
    }
  }

  lemma SetSessionGreets(s: State, session: string)
    requires GreetedOnce(s)
    ensures GreetedOnce(SetSession(s, session))
  {
    NoGreeting(s, SetSession(s, session), Ready(session));
  }

  /** The end of an Open, or of a Close. */
  lemma HangUpGreets(s: State, lock: Lock)
    requires GreetedOnce(s)
    ensures GreetedOnce(HangUp(s).(lock := lock))
  {
    if s.wsConn.Some? {
      GreetingsMore(s.log, HungUp(s.wsConn.value));
    }
  }

  lemma StartGreets(s: State, address: Option<string>, dials: bool)
    requires GreetedOnce(s)
    ensures GreetedOnce(Start(s, address, dials))
  {
    GreetingsMore(s.log, Dialled);
  }

  lemma GreetGreets(s: State, m: Mark, sent: bool)
    requires GreetedOnce(s) && BeforeGreeting(s.lock) && s.wsConn.Some? && Greeting(m, s.wsConn.value)
    ensures GreetedOnce(Greet(s, m, sent).0)
  {
    if sent {
      GreetingsMore(s.log, m);
    } else {
      HangUpGreets(s, Free);
    }
  }

  lemma FinishGreets(s: State)
    requires GreetedOnce(s) && s.lock.Opening? && !BeforeGreeting(s.lock)
    ensures GreetedOnce(Finish(s).0)
  {
    NoGreeting(s, Finish(s).0, Opened);
  }

  lemma HelloGreets(s: State, i: Input)
    requires GreetedOnce(s) && BeforeGreeting(s.lock) && s.wsConn.Some?
    ensures GreetedOnce(Hello(s, i).0)
  {
    var h := Hear(s, i.frame);
    HearGreets(s, i.frame);
    assert h.wsConn == s.wsConn && h.lock == s.lock;
    HangUpGreets(h, Free);
  }

  lemma FirstGreets(s: State, i: Input)
    requires GreetedOnce(s) && s.lock.Opening? && !BeforeGreeting(s.lock) && s.wsConn.Some?
    ensures GreetedOnce(First(s, i).0)
  {
    var h := Hear(s, i.frame);
    HearGreets(s, i.frame);
    assert h.wsConn == s.wsConn && h.lock == s.lock;
    HangUpGreets(h, Free);
    FinishGreets(h);
  }

  lemma AdvanceGreets(s: State, i: Input)
    requires GreetedOnce(s) && s.lock.Opening? && s.wsConn.Some?
    ensures GreetedOnce(Advance(s, i).0)
  {
    var conn := s.wsConn.value;
    match s.lock.phase
    case AwaitHello => HelloGreets(s, i);
    case HelloHandled(session) =>
      SetSessionGreets(s, session);
      HangUpGreets(SetSession(s, session), Free);
    case LoadSequence => NoGreeting(s, Advance(s, i).0, Loaded(conn, s.sequence));
    case Decide(q) => GreetGreets(s, Identified(conn), i.sent);
    case Fill(q) => GreetGreets(s, Resumed(conn, s.sessionID, q), i.sent);
    case AwaitFirst => FirstGreets(s, i);
    case FirstHandled(session) =>
      SetSessionGreets(s, session);
      FinishGreets(SetSession(s, session));
  }

  lemma StepGreets(s: State, step: Step)
    requires Good(s) && GreetedOnce(s)
    ensures GreetedOnce(Apply(s, step))
  {
    match step
    case DoOpen(address, dials) => StartGreets(s, address, dials);
    case DoAdvance(i) =>
      if s.lock.Opening? {
        AdvanceGreets(s, i);
      }
    case DoClose =>
      if s.lock.Free? && s.listening.Some? {
        NoGreeting(s, Close(s), Closed(s.listening.value));
      }
    case DoEndClose =>
      if s.lock.Closing? {
        HangUpGreets(s, Free);
      }
    case DoRead(_, _) =>
    case DoProcess(k) =>
      if k in s.held && s.held[k].Taken? {
        NoGreeting(s, Begin(s, k), Processed(k));
        HearGreets(Begin(s, k), s.held[k].frame);
      }
    case DoHandle(k) =>
      if k in s.held && s.held[k].Handling? {
        SetSessionGreets(s.(held := s.held - {k}), s.held[k].session);
      }
  }

  /** Over every run, a session with a connection and the lock free has greeted that connection exactly once, with
      an identify or with a resume. */
  lemma {:induction false} ConnectedIsGreeted(steps: seq<Step>)
    ensures GreetedOnce(Run(steps))
    ensures var s := Run(steps); s.wsConn.Some? && s.lock.Free? ==> Greetings(s.log, s.wsConn.value) == 1
  {
    if steps != [] {
      var n := |steps| - 1;
      ConnectedIsGreeted(steps[..n]);
      RunKeeps(steps[..n]);
      StepGreets(Run(steps[..n]), steps[n]);
    }
  }

  /** Nothing is closed twice, and nothing before it was opened. */
  lemma {:induction false} ClosedOnce(log: seq<Mark>, p: nat, q: nat)
    requires Truthful(log) && p < |log| && q < |log| && log[p] == log[q] && (log[p].Closed? || log[p].HungUp?)
    ensures p == q
    ensures log[p].Closed? ==> log[p].channel < p && log[log[p].channel] == Opened
    ensures log[p].HungUp? ==> log[p].conn < p && log[log[p].conn] == Dialled
  {
    var n := |log| - 1;
    var init := log[..n];
    assert forall i: nat :: i < n ==> log[i] == init[i] && log[i] in init;
    if p < n && q < n {
      ClosedOnce(init, p, q);
    }
  }

  /** Over every run no channel and no connection is closed twice, or before it was opened. */
  lemma RunClosesOnce(steps: seq<Step>, p: nat, q: nat)
    requires p < |Run(steps).log| && q < |Run(steps).log| && Run(steps).log[p] == Run(steps).log[q]
    requires Run(steps).log[p].Closed? || Run(steps).log[p].HungUp?
    ensures var log := Run(steps).log;
            p == q && (log[p].Closed? ==> log[p].channel < p && log[log[p].channel] == Opened)
            && (log[p].HungUp? ==> log[p].conn < p && log[log[p].conn] == Dialled)
  {
    RunKeeps(steps);
    ClosedOnce(Run(steps).log, p, q);
  }

  // ---- what a closed channel still lets through ----

  /** Only the listener of the present channel takes up a packet. */
  lemma OnlyPresentListenerReads(steps: seq<Step>, k: nat, m: Frame)
    requires Read(Run(steps), k, m) != Run(steps)
    ensures Run(steps).listening == Some(k) && Run(steps).wsConn.Some? && Run(steps).lock.Free?
  {
    RunKeeps(steps);
  }

  function Processings(log: seq<Mark>, k: nat): nat {
    if log == [] then 0
    else Processings(log[..|log| - 1], k) + (if log[|log| - 1] == Processed(k) then 1 else 0)
  }

  /** The packets a listener has taken up and not begun to process. */
  function Owes(s: State, k: nat): nat {
    if k in s.held && s.held[k].Taken? then 1 else 0
  }

  lemma AppendProcessings(log: seq<Mark>, m: Mark, k: nat)
    ensures Processings(log + [m], k) == Processings(log, k) + (if m == Processed(k) then 1 else 0)
  {
    assert (log + [m])[..|log|] == log;
  }

  /** The packets taken up and those processed come to the same number, and no mark is lost. */
  ghost predicate Settled(s: State, s': State, k: nat) {
    && Processings(s'.log, k) + Owes(s', k) == Processings(s.log, k) + Owes(s, k)
    && forall m :: m in s.log ==> m in s'.log
  }

  /** One more mark, other than Processed(k). */
  lemma OtherMark(s: State, s': State, m: Mark, k: nat)
    requires s'.log == s.log + [m] && m != Processed(k) && Owes(s', k) == Owes(s, k)
    ensures Settled(s, s', k)
  {
    AppendProcessings(s.log, m, k);
  }

  lemma HearSettled(s: State, m: Frame, k: nat)
    ensures Settled(s, Hear(s, m), k) && Hear(s, m).held == s.held
  {
    if m.Packet? {
      if m.op == 9 && m.answered && s.wsConn.Some? {
        OtherMark(s, Hear(s, m), Reidentified(s.wsConn.value), k);
      } else if m.op == 0 {
        OtherMark(s, Hear(s, m), Stored(m.sequence), k);
      }
    }
  }

  lemma LeaveSettled(s: State, k: nat)
    ensures Settled(s, Leave(s).0, k)
  {
    if s.wsConn.Some? {
      OtherMark(s, Leave(s).0, HungUp(s.wsConn.value), k);
    }
  }

  lemma FinishSettled(s: State, k: nat)
    ensures Settled(s, Finish(s).0, k)
  {
    OtherMark(s, Finish(s).0, Opened, k);
  }

  lemma GreetSettled(s: State, m: Mark, sent: bool, k: nat)
    requires !m.Processed?
    ensures Settled(s, Greet(s, m, sent).0, k)
  {
    LeaveSettled(s, k);
    if sent {
      OtherMark(s, Greet(s, m, sent).0, m, k);
    }
  }

  lemma SettledThen(a: State, b: State, c: State, k: nat)
    requires Settled(a, b, k) && Settled(b, c, k)
    ensures Settled(a, c, k)
  {
  }

  lemma OtherLock(s: State, lock: Lock, k: nat)
    ensures Settled(s, s.(lock := lock), k)
  {
  }

  lemma HelloSettled(s: State, i: Input, k: nat)
    ensures Settled(s, Hello(s, i).0, k)
  {
    var h, e := Hear(s, i.frame), Hello(s, i).0;
    OtherLock(s, e.lock, k);
    OtherLock(h, e.lock, k);
    if !NeedsLock(i.frame) {
      HearSettled(s, i.frame, k);
      LeaveSettled(h, k);
      SettledThen(s, h, e, k);
    }
  }

  lemma FirstSettled(s: State, i: Input, k: nat)
    ensures Settled(s, First(s, i).0, k)
  {
    var h, e := Hear(s, i.frame), First(s, i).0;
    OtherLock(s, e.lock, k);
    OtherLock(h, e.lock, k);
    if !NeedsLock(i.frame) {
      HearSettled(s, i.frame, k);
      LeaveSettled(h, k);
      FinishSettled(h, k);
      SettledThen(s, h, e, k);
    }
  }

  lemma AdvanceSettled(s: State, i: Input, k: nat)
    requires s.lock.Opening? && s.wsConn.Some?
    ensures Settled(s, Advance(s, i).0, k)
  {
    var conn := s.wsConn.value;
    match s.lock.phase
    case AwaitHello => HelloSettled(s, i, k);
    case AwaitFirst => FirstSettled(s, i, k);
    case HelloHandled(session) =>
      OtherMark(s, SetSession(s, session), Ready(session), k);
      LeaveSettled(SetSession(s, session), k);
    case FirstHandled(session) =>
      OtherMark(s, SetSession(s, session), Ready(session), k);
      FinishSettled(SetSession(s, session), k);
    case LoadSequence => OtherMark(s, Advance(s, i).0, Loaded(conn, s.sequence), k);
    case Decide(q) => GreetSettled(s, Identified(conn), i.sent, k);
    case Fill(q) => GreetSettled(s, Resumed(conn, s.sessionID, q), i.sent, k);
  }

  lemma BeginSettled(s: State, j: nat, k: nat)
    requires j in s.held && s.held[j].Taken?
    ensures Settled(s, Begin(s, j), k)
  {
    var b := Begin(s, j);
    AppendProcessings(s.log, Processed(j), k);
    assert b.log == s.log + [Processed(j)];
    assert Owes(s, k) == Owes(b, k) + (if j == k then 1 else 0) by {
      assert k != j ==> (k in b.held <==> k in s.held) && (k in s.held ==> b.held[k] == s.held[k]);
    }
  }

  lemma ProcessSettled(s: State, j: nat, k: nat)
    ensures Settled(s, Process(s, j), k)
  {
    if j in s.held && s.held[j].Taken? {
      BeginSettled(s, j, k);
      HearSettled(Begin(s, j), s.held[j].frame, k);
      SettledThen(s, Begin(s, j), Process(s, j), k);
    }
  }

  lemma CloseSettled(s: State, k: nat)
    ensures Settled(s, Close(s), k) && Settled(s, EndClose(s), k)
  {
    LeaveSettled(s, k);
    if s.lock.Free? && s.listening.Some? {
      OtherMark(s, Close(s), Closed(s.listening.value), k);
    }
  }

  lemma StartSettled(s: State, address: Option<string>, dials: bool, k: nat)
    ensures Settled(s, Start(s, address, dials), k)
  {
    if Start(s, address, dials).log != s.log {
      OtherMark(s, Start(s, address, dials), Dialled, k);
    }
  }

  /** After its channel is closed, what a listener processes is what it holds: each step turns a packet held
      into one processed, or leaves both numbers alone. */
  lemma ClosedStep(s: State, step: Step, k: nat)
    requires Closed(k) in s.log
    ensures Settled(s, Apply(s, step), k)
  {
    match step
    case DoOpen(address, dials) => StartSettled(s, address, dials, k);
    case DoAdvance(i) =>
      if s.lock.Opening? && s.wsConn.Some? {
        AdvanceSettled(s, i, k);
      }
    case DoClose => CloseSettled(s, k);
    case DoEndClose => CloseSettled(s, k);
    case DoRead(_, _) =>
    case DoProcess(j) => ProcessSettled(s, j, k);
    case DoHandle(j) =>
      if Apply(s, step) != s {
        OtherMark(s, Apply(s, step), Ready(s.held[j].session), k);
      }
  }

  lemma RunLast(steps: seq<Step>, more: seq<Step>)
    requires more != []
    ensures Run(steps + more) == Apply(Run(steps + more[..|more| - 1]), more[|more| - 1])
  {
    assert (steps + more)[..|steps + more| - 1] == steps + more[..|more| - 1];
  }

  /** Over every run: once its channel is closed, a listener processes at most the one packet it already
      holds, and none if it holds none. */
  lemma {:induction false} AtMostTheOneHeld(steps: seq<Step>, more: seq<Step>, k: nat)
    requires Closed(k) in Run(steps).log
    ensures Settled(Run(steps), Run(steps + more), k) && Owes(Run(steps), k) <= 1
  {
    if more == [] {
      assert steps + more == steps;
    } else {
      var n := |more| - 1;
      AtMostTheOneHeld(steps, more[..n], k);
      RunLast(steps, more);
      ClosedStep(Run(steps + more[..n]), more[n], k);
    }
  }

  lemma QuietStep(s: State, step: Step)
    requires Inside(s) && s.wsConn.None? && s.listening.None? && s.lock.Free? && s.held == map[] && !step.DoOpen?
    ensures Apply(s, step) == s
  {
  }

  /** In a disconnected session of which no listener holds a packet nothing changes until the next Open. */
  lemma {:induction false} QuietUntilOpen(steps: seq<Step>, more: seq<Step>)
    requires var s := Run(steps); s.wsConn.None? && s.lock.Free? && s.held == map[]
    requires forall i :: 0 <= i < |more| ==> !more[i].DoOpen?
    ensures Run(steps + more) == Run(steps)
  {
    RunKeeps(steps);
    if more == [] {
      assert steps + more == steps;
    } else {
      var n := |more| - 1;
      QuietUntilOpen(steps, more[..n]);
      RunLast(steps, more);
      QuietStep(Run(steps), more[n]);
    }
  }

  // ---- where it goes wrong ----

  function Op(op: int): Frame {
    Packet(op, 0, None, true)
  }

  /** The regions of a first Open up to its greeting, and where they lead. */
  const GREETING_SENT := State(Some(0), None, Some("gateway"), 0, "", Opening(AwaitFirst), map[],
                               [Dialled, Loaded(0, 0), Identified(0)])

  function Greeted(): seq<Step> {
    [DoOpen(Some("gateway"), true)] + [DoAdvance(Input(Op(10), true, true))] + [DoAdvance(Input(Lost, true, true))]
    + [DoAdvance(Input(Lost, true, true))]
  }

  lemma RunGreeted()
    ensures Run(Greeted()) == GREETING_SENT
  {
    var open := DoOpen(Some("gateway"), true);
    var hello, next := DoAdvance(Input(Op(10), true, true)), DoAdvance(Input(Lost, true, true));
    var dialled := State(Some(0), None, Some("gateway"), 0, "", Opening(AwaitHello), map[], [Dialled]);
    RunStep([], open);
    assert [] + [open] == [open];
    assert Apply(DISCONNECTED, open) == dialled;
    RunStep([open], hello);
    assert Apply(dialled, hello) == dialled.(lock := Opening(LoadSequence));
    RunStep([open] + [hello], next);
    RunStep([open] + [hello] + [next], next);
  }

  /** A hello and then a reconnect request: Open never returns, and no later Open or Close gets the lock. */
  lemma OpenCanJam(step: Step)
    requires step.DoOpen? || step.DoAdvance? || step.DoClose? || step.DoEndClose?
    ensures var s := Run(Greeted() + [DoAdvance(Input(Op(7), true, true))]);
            s.lock.Jammed? && Apply(s, step) == s
  {
    RunGreeted();
    RunStep(Greeted(), DoAdvance(Input(Op(7), true, true)));
  }

  /** The run of a whole first Open, a packet taken up by its listener, and a whole Close. */
  function ClosedOverPacket(m: Frame): seq<Step> {
    Greeted() + [DoAdvance(Input(Op(0), true, true))] + [DoRead(4, m)] + [DoClose] + [DoEndClose]
  }

  lemma RunClosedOverPacket(m: Frame)
    requires !m.Lost?
    ensures Run(ClosedOverPacket(m)) ==
            State(None, None, Some("gateway"), 0, "", Free, map[4 := Taken(m)],
                  [Dialled, Loaded(0, 0), Identified(0), Stored(0), Opened, Closed(4), HungUp(0)])
  {
    var first, read := DoAdvance(Input(Op(0), true, true)), DoRead(4, m);
    var open := State(Some(0), Some(4), Some("gateway"), 0, "", Free, map[],
                      [Dialled, Loaded(0, 0), Identified(0), Stored(0), Opened]);
    RunGreeted();
    RunStep(Greeted(), first);
    assert Apply(GREETING_SENT, first) == open;
    RunStep(Greeted() + [first], read);
    assert open.log[4] == Opened && Closed(4) !in open.log;
    assert Apply(open, read) == open.(held := map[4 := Taken(m)]);
    RunStep(Greeted() + [first] + [read], DoClose);
    RunStep(Greeted() + [first] + [read] + [DoClose], DoEndClose);
  }

  /** A dispatch taken up before a Close: the session's sequence still changes after the Close is through. */
  lemma LateDispatch()
    ensures var steps := ClosedOverPacket(Packet(0, 42, None, true));
            && Run(steps).wsConn.None? && Run(steps).lock.Free? && Run(steps).sequence == 0
            && Run(steps + [DoProcess(4)]).sequence == 42
  {
    var m := Packet(0, 42, None, true);
    RunClosedOverPacket(m);
    RunStep(ClosedOverPacket(m), DoProcess(4));
  }

  // ---- what a packet does ----

  /** Processing a held packet stores the sequence of a dispatch and notes an answered op 9; a READY leaves its
      session id to the handler. Nothing else changes, whatever the packet. */
  lemma ProcessExactly(s: State, k: nat, m: Frame)
    requires k in s.held && s.held[k] == Taken(m)
    ensures var t := Apply(s, DoProcess(k));
            && t.sequence == (if m.Packet? && m.op == 0 then m.sequence else s.sequence)
            && t.sessionID == s.sessionID && t.wsConn == s.wsConn && t.listening == s.listening
            && t.gateway == s.gateway && t.lock == s.lock
            && t.held == (if m.Packet? && m.op == 0 && m.ready.Some? then s.held[k := Handling(m.ready.value)]
                          else s.held - {k})
            && t.log == s.log + [Processed(k)]
               + (if !m.Packet? then [] else if m.op == 0 then [Stored(m.sequence)]
                  else if m.op == 9 && m.answered && s.wsConn.Some? then [Reidentified(s.wsConn.value)] else [])
  {
  }

  /** A READY sets the session id and the sequence, in a listener and as the first packet of an Open. */
  lemma ReadySets(s: State, k: nat, sequence: int, session: string, i: Input)
    ensures var m := Packet(0, sequence, Some(session), true);
            && (k in s.held && s.held[k] == Taken(m) ==>
                  var t := Apply(Apply(s, DoProcess(k)), DoHandle(k));
                  t.sessionID == session && t.sequence == sequence && k !in t.held)
            && (s.lock == Opening(AwaitFirst) && s.wsConn.Some? && i.frame == m ==>
                  var t := Apply(Apply(s, DoAdvance(i)), DoAdvance(i));
                  t.sessionID == session && t.sequence == sequence && t.lock == Free && t.listening.Some?
                  && t.wsConn == s.wsConn)
  {
  }

  // ---- a packet that nobody can answer any more ----

  ghost predicate HeldByListeners(s: State) {
    forall k :: k in s.held ==> Listener(s.log, k)
  }

  /** The lock's holder only adds marks. */
  lemma AdvanceHolds(s: State, i: Input)
    requires HeldByListeners(s) && s.lock.Opening? && s.wsConn.Some?
    ensures HeldByListeners(Advance(s, i).0)
  {
    var t := Advance(s, i).0;
    assert t.held == s.held && s.log <= t.log;
  }

  lemma StepHolds(s: State, step: Step)
    requires HeldByListeners(s)
    ensures HeldByListeners(Apply(s, step))
  {
    match step
    case DoOpen(_, _) =>
    case DoAdvance(i) =>
      if s.lock.Opening? && s.wsConn.Some? {
        AdvanceHolds(s, i);
      }
    case DoClose =>
    case DoEndClose =>
    case DoRead(_, _) =>
    case DoProcess(_) =>
    case DoHandle(_) =>
  }

  lemma {:induction false} RunHolds(steps: seq<Step>)
    ensures HeldByListeners(Run(steps))
  {
    if steps != [] {
      RunHolds(steps[..|steps| - 1]);
      StepHolds(Run(steps[..|steps| - 1]), steps[|steps| - 1]);
    }
  }

  /** Over every run: what a listener holds can make it panic only once its channel is closed. */
  lemma PanicsOnlyOnceClosed(steps: seq<Step>, k: nat)
    requires var s := Run(steps); k in s.held && s.held[k].Taken? && Panics(s, s.held[k].frame)
    ensures Closed(k) in Run(steps).log
  {
    RunKeeps(steps);
    RunHolds(steps);
  }

  /** It does happen: a heartbeat request, or an invalid session, taken up before a Close and processed after. */
  lemma LateAnswerPanics(op: int)
    requires op == 1 || op == 9
    ensures var s := Run(ClosedOverPacket(Op(op)));
            s.lock.Free? && s.held == map[4 := Taken(Op(op))] && Panics(s, Op(op))
  {
    RunClosedOverPacket(Op(op));
  }
}
