/** The type-guessing recursion of the send handlers (handlers/send_msg.go, send_private_msg.go and
    send_group_msg.go), which runs on the global maps of echo/echo.go. The three handlers differ in the
    order of their lookups and in one early return. */
module Send {
  import opened Outcome
  import opened Decimal

  /** The message types the handlers know; `NoType` is the empty string. */
  datatype MsgType = NoType | GroupPrivate | GuildPrivate | Guild | Group | OtherType(name: string)

  datatype Handler = SendMsg | SendPrivateMsg | SendGroupMsg

  /** What the recursion reads of an action: its echo when that is a string, and the two ids, which
      unmarshalling has made strings. */
  datatype Message = Message(echo: Option<string>, groupID: string, userID: string)

  /** What does not change during a send: the app id, the types stored in the config bucket, and whether
      the guild id of a private guild chat can be read there. */
  datatype Env = Env(appID: string, stored: map<string, MsgType>, guildIdKnown: bool)

  /** The global maps of echo.go, and the message types of the invocations so far. */
  datatype State = State(types: map<string, MsgType>, counters: map<int64, int>, trace: seq<MsgType>)

  /** A send as its handler sees it: the id it counts under, the entry it writes, the entries it reads in
      order, what the config bucket says when they are all empty, and whether it can return early. */
  datatype Job = Job(id: int64, idOk: bool, entry: string, echo: Option<string>, first: string, second: string,
                     fallback: MsgType, early: bool)

  function Get(m: map<string, MsgType>, key: string): MsgType {
    if key in m then m[key] else NoType
  }

  function FirstOf(a: MsgType, b: MsgType): MsgType {
    if a != NoType then a else b
  }

  /** EchoMapping.GenerateKey. */
  function GenerateKey(appID: string, id: int64): string {
    appID + "_" + FormatInt(id)
  }

  /** The key GetMessageTypeByUserid and GetMessageTypeByGroupid build from an id's text. */
  function KeyOfText(appID: string, id: string): string {
    appID + "_" + id
  }

  /** The id the counter and the type entry are kept under; 0 without an error when both ids are missing. */
  function IdOf(msg: Message): Parsed {
    if msg.userID != "" then ParseInt(msg.userID)
    else if msg.groupID != "" then ParseInt(msg.groupID)
    else Parsed(0, true)
  }

  function JobOf(h: Handler, env: Env, msg: Message): Job {
    var byGroup, byUser := KeyOfText(env.appID, msg.groupID), KeyOfText(env.appID, msg.userID);
    var groupV2, userV2 := Get(env.stored, msg.groupID), Get(env.stored, msg.userID);
    var id := IdOf(msg);
    var entry := GenerateKey(env.appID, id.value);
    if h.SendPrivateMsg? then Job(id.value, id.ok, entry, msg.echo, byUser, byGroup, FirstOf(userV2, groupV2), false)
    else Job(id.value, id.ok, entry, msg.echo, byGroup, byUser, FirstOf(groupV2, userV2),
             h.SendGroupMsg? && !env.guildIdKnown)
  }

  /** The message type an invocation starts with: the first non-empty lookup. */
  function LookupType(j: Job, types: map<string, MsgType>): MsgType {
    var byEcho := if j.echo.Some? then Get(types, j.echo.value) else NoType;
    FirstOf(byEcho, FirstOf(Get(types, j.first), FirstOf(Get(types, j.second), j.fallback)))
  }

  function GetMapping(counters: map<int64, int>, id: int64): int {
    if id in counters then counters[id] else 0
  }

  const TRY_MESSAGE_TYPES := [Group, Guild, GuildPrivate]

  /** The recursion's own entry is among those it looks up. */
  predicate EntryIsRead(j: Job) {
    j.echo == Some(j.entry) || j.first == j.entry || j.second == j.entry
  }

  /** The sends that come back: some lookup succeeds, the id cannot be converted, or the entry written
      for the retries is one the retries will find. */
  predicate Terminates(j: Job, types: map<string, MsgType>) {
    LookupType(j, types) != NoType || !j.idOk || EntryIsRead(j)
  }

  /** No counter is above 4; it is only ever set to 4 or decreased. */
  ghost predicate Bounded(s: State) {
    forall id :: id in s.counters ==> s.counters[id] <= 4
  }

  function Lacks(j: Job, types: map<string, MsgType>): nat {
    if LookupType(j, types) == NoType then 1 else 0
  }

  function Countdown(j: Job, counters: map<int64, int>): nat {
    var c := GetMapping(counters, j.id);
    if c > 0 then c else 0
  }

  /** The state in which an invocation without a type calls itself. */
  function Reenter(j: Job, s: State): State {
    s.(counters := s.counters[j.id := 4], types := s.types[j.entry := GroupPrivate])
  }

  predicate LeavesEarly(j: Job, msgType: MsgType) {
    j.early && msgType == GuildPrivate
  }

  /** After the switch: reset the entry when the counter has run out, and count down. */
  function CountDown(j: Job, s: State): State {
    var c := GetMapping(s.counters, j.id);
    s.(types := if c <= 0 then s.types[j.entry := NoType] else s.types, counters := s.counters[j.id := c - 1])
  }

  lemma WriteKeepsFound(j: Job, types: map<string, MsgType>, t: MsgType)
    requires t != NoType && (LookupType(j, types) != NoType || EntryIsRead(j))
    ensures LookupType(j, types[j.entry := t]) != NoType
  {
  }

  /** Writing a retry's type leaves a state that terminates: after the first branch because the entry is
      read, otherwise because no lookup is lost. */
  lemma WriteKeepsTerminates(j: Job, types: map<string, MsgType>, t: MsgType, reentered: bool)
    requires t != NoType && if reentered then EntryIsRead(j) else Terminates(j, types)
    ensures Terminates(j, types[j.entry := t])
    ensures reentered || LookupType(j, types) != NoType ==> LookupType(j, types[j.entry := t]) != NoType
  {
    if reentered || LookupType(j, types) != NoType || EntryIsRead(j) {
      WriteKeepsFound(j, types, t);
    }
  }

  /** One invocation of a handler. */
  function Invoke(j: Job, s: State): (e: State)
    requires Terminates(j, s.types) && Bounded(s)
    ensures Bounded(e)
    decreases Lacks(j, s.types), Countdown(j, s.counters)
  {
    var msgType := LookupType(j, s.types);
    var s0 := s.(trace := s.trace + [msgType]);
    var s1 :=
      if msgType == NoType && j.idOk then
        WriteKeepsFound(j, s.types, GroupPrivate);
        Invoke(j, Reenter(j, s0))
      else s0;
    if LeavesEarly(j, msgType) then s1
    else
      var s2 := CountDown(j, s1);
      var c := s2.counters[j.id];
      if c > 0 then
        WriteKeepsTerminates(j, s1.types, TRY_MESSAGE_TYPES[c - 1], msgType == NoType && j.idOk);
        Invoke(j, s2.(types := s2.types[j.entry := TRY_MESSAGE_TYPES[c - 1]]))
      else s2
  }

  // ---- the handlers, on the shared maps ----

  class Echo {
    var types: map<string, MsgType>
    var counters: map<int64, int>
    ghost var trace: seq<MsgType>

    ghost function Now(): State
      reads this
    {
      State(types, counters, trace)
    }

    constructor ()
      ensures Now() == State(map[], map[], [])
    {
      types, counters, trace := map[], map[], [];
    }

    method AddMsgType(key: string, msgType: MsgType)
      modifies this`types
      ensures types == old(types)[key := msgType]
    {
      types := types[key := msgType];
    }

    method AddMapping(id: int64, value: int)
      modifies this`counters
      ensures counters == old(counters)[id := value]
    {
      counters := counters[id := value];
    }

    method Handle(h: Handler, env: Env, msg: Message)
      requires Terminates(JobOf(h, env, msg), types) && Bounded(Now())
      modifies this
      ensures Now() == Invoke(JobOf(h, env, msg), old(Now()))
    {
      Recur(JobOf(h, env, msg));
    }

    method ResetAndDecrement(j: Job)
      modifies this`types, this`counters
      ensures Now() == CountDown(j, old(Now()))
    {
      if GetMapping(counters, j.id) <= 0 {
        AddMsgType(j.entry, NoType);
      }
      AddMapping(j.id, GetMapping(counters, j.id) - 1);
    }

    method Recur(j: Job)
      requires Terminates(j, types) && Bounded(Now())
      modifies this
      ensures Now() == Invoke(j, old(Now()))
      decreases Lacks(j, types), Countdown(j, counters)
    {
      var msgType := LookupType(j, types);
      trace := trace + [msgType];
      ghost var s0, s1 := Now(), Now();
      if msgType == NoType && j.idOk {
        WriteKeepsFound(j, types, GroupPrivate);
        AddMapping(j.id, 4);
        AddMsgType(j.entry, GroupPrivate);
        assert Now() == Reenter(j, s0);
        Recur(j);
        s1 := Now();
      }
      if j.early && msgType == GuildPrivate {
        return;
      }
      ResetAndDecrement(j);
      var c := GetMapping(counters, j.id);
      if c > 0 {
        WriteKeepsTerminates(j, s1.types, TRY_MESSAGE_TYPES[c - 1], msgType == NoType && j.idOk);
        AddMsgType(j.entry, TRY_MESSAGE_TYPES[c - 1]);
        Recur(j);
      }
    }
  }

  // ---- when it terminates ----

  /** An id text that is its own canonical decimal form is read back under the entry written for its number. */
  lemma CanonicalTerminates(h: Handler, env: Env, msg: Message, types: map<string, MsgType>)
    requires IdOf(msg).ok && (msg.userID != "" || msg.groupID != "")
    requires FormatInt(IdOf(msg).value) == if msg.userID != "" then msg.userID else msg.groupID
    ensures EntryIsRead(JobOf(h, env, msg)) && Terminates(JobOf(h, env, msg), types)
  {
  }

  /** Every id the bridge itself hands out is such a text. */
  lemma FormattedTerminates(h: Handler, env: Env, echo: Option<string>, groupID: string, user: int64,
                            types: map<string, MsgType>)
    ensures Terminates(JobOf(h, env, Message(echo, groupID, FormatInt(user))), types)
    ensures IdOf(Message(echo, groupID, FormatInt(user))) == Parsed(user, true)
  {
    ParseFormat(user);
    assert FormatInt(user) != "";
    CanonicalTerminates(h, env, Message(echo, groupID, FormatInt(user)), types);
  }

  function ReenterTimes(j: Job, s: State, n: nat): State {
    if n == 0 then s else Reenter(j, ReenterTimes(j, s, n - 1))
  }

  /** The condition is exact: a send that does not meet it calls itself again, to any depth, in a state
      where no lookup succeeds either. */
  lemma {:induction false} OtherwiseDiverges(j: Job, s: State, n: nat)
    requires !Terminates(j, s.types)
    ensures LookupType(j, ReenterTimes(j, s, n).types) == NoType && j.idOk
    ensures !Terminates(j, ReenterTimes(j, s, n).types)
  {
    if n > 0 {
      OtherwiseDiverges(j, s, n - 1);
    }
  }

  /** The text "007" stands for the id 7 but not for its key: a private send to it never comes back. */
  lemma LeadingZerosDiverge(env: Env)
    requires env.stored == map[]
    ensures !Terminates(JobOf(SendPrivateMsg, env, Message(None, "", "007")), map[])
  {
    assert ValueOf("007") == 7 by {
      assert "007"[..2] == "00" && "00"[..1] == "0" && "0"[..0] == "";
    }
    var j := JobOf(SendPrivateMsg, env, Message(None, "", "007"));
    assert j.id == 7 && j.idOk;
    assert |FormatInt(7)| == 1;
    assert |j.entry| == |env.appID| + 2 && |j.first| == |env.appID| + 4 && |j.second| == |env.appID| + 1;
  }

  /** A send with neither id counts under 0 and writes the entry for 0, which no lookup reads. */
  lemma NoIdsDiverge(h: Handler, env: Env)
    requires env.stored == map[]
    ensures !Terminates(JobOf(h, env, Message(None, "", "")), map[])
  {
    var j := JobOf(h, env, Message(None, "", ""));
    assert j.id == 0 && j.idOk;
    assert |FormatInt(0)| == 1;
    assert |j.entry| == |env.appID| + 2 && |j.first| == |env.appID| + 1 && |j.second| == |env.appID| + 1;
  }

  // ---- an id no lookup knows ----

  /** Without the recursion's own entry every lookup is empty, and the entry is one of them. */
  predicate Unknown(j: Job, types: map<string, MsgType>) {
    j.idOk && EntryIsRead(j) && LookupType(j, types[j.entry := NoType]) == NoType
  }

  lemma UnknownReadsEntry(j: Job, types: map<string, MsgType>, t: MsgType)
    requires Unknown(j, types)
    ensures Unknown(j, types[j.entry := t]) && LookupType(j, types[j.entry := t]) == t
  {
    assert types[j.entry := t][j.entry := NoType] == types[j.entry := NoType];
  }

  /** The types a retry entered with type `t` and counter `c` goes through, and the counter and type it leaves. */
  datatype Visit = Visit(types: seq<MsgType>, counter: int, last: MsgType)

  function Tries(early: bool, t: MsgType, c: int): Visit
    requires c <= 4
    decreases c
  {
    if early && t == GuildPrivate then Visit([t], c, t)
    else if c <= 1 then Visit([t], c - 1, if c <= 0 then NoType else t)
    else
      var rest := Tries(early, TRY_MESSAGE_TYPES[c - 2], c - 1);
      Visit([t] + rest.types, rest.counter, rest.last)
  }

  /** The state after such a retry. */
  function AfterTries(j: Job, s: State, v: Visit): State {
    State(s.types[j.entry := v.last], s.counters[j.id := v.counter], s.trace + v.types)
  }

  lemma {:induction false} RetryGoesThrough(j: Job, s: State, t: MsgType, c: int)
    requires Unknown(j, s.types) && t != NoType && c <= 4
    requires Bounded(s) && j.entry in s.types && s.types[j.entry] == t && j.id in s.counters && s.counters[j.id] == c
    ensures Terminates(j, s.types) && Invoke(j, s) == AfterTries(j, s, Tries(j.early, t, c))
    decreases c
  {
    UnknownReadsEntry(j, s.types, t);
    assert s.types[j.entry := t] == s.types;
    if j.early && t == GuildPrivate {
      assert s.counters[j.id := c] == s.counters;
    } else if c > 1 {
      var next := TRY_MESSAGE_TYPES[c - 2];
      var s3 := State(s.types[j.entry := next], s.counters[j.id := c - 1], s.trace + [t]);
      UnknownReadsEntry(j, s.types, next);
      RetryGoesThrough(j, s3, next, c - 1);
      AfterTriesAgain(j, s, t, next, c - 1);
      assert Invoke(j, s) == Invoke(j, s3);
    }
  }

  lemma AfterTriesAgain(j: Job, s: State, t: MsgType, next: MsgType, c: int)
    requires 1 <= c <= 3 && next == TRY_MESSAGE_TYPES[c - 1] && !(j.early && t == GuildPrivate)
    ensures var s' := State(s.types[j.entry := next], s.counters[j.id := c], s.trace + [t]);
            AfterTries(j, s', Tries(j.early, next, c)) == AfterTries(j, s, Tries(j.early, t, c + 1))
  {
    var v := Tries(j.early, next, c);
    assert s.types[j.entry := next][j.entry := v.last] == s.types[j.entry := v.last];
    assert s.counters[j.id := c][j.id := v.counter] == s.counters[j.id := v.counter];
    assert s.trace + [t] + v.types == s.trace + ([t] + v.types);
  }

  lemma TriesFromFour(early: bool)
    ensures Tries(early, Guild, 2) == Visit([Guild, Group], 0, Group)
    ensures Tries(early, GroupPrivate, 4)
            == if early then Visit([GroupPrivate, GuildPrivate], 3, GuildPrivate)
               else Visit([GroupPrivate, GuildPrivate, Guild, Group], 0, Group)
  {
    assert TRY_MESSAGE_TYPES[0] == Group && TRY_MESSAGE_TYPES[1] == Guild && TRY_MESSAGE_TYPES[2] == GuildPrivate;
    assert Tries(early, Group, 1) == Visit([Group], 0, Group);
    assert Tries(early, Guild, 2) == Visit([Guild] + [Group], 0, Group);
    assert Tries(early, GuildPrivate, 3) ==
      if early then Visit([GuildPrivate], 3, GuildPrivate) else Visit([GuildPrivate] + [Guild, Group], 0, Group);
  }

  const FIVE := [NoType, GroupPrivate, GuildPrivate, Guild, Group]

  /** For an id unknown to every lookup exactly five invocations happen, in this order. Then the type
      entry is empty and the counter is -1; except that a group send whose guild id cannot be read leaves
      the last guess in the entry, and the counter at 0. */
  lemma UnknownTriesFive(j: Job, s: State)
    requires Bounded(s) && Unknown(j, s.types) && LookupType(j, s.types) == NoType
    ensures Terminates(j, s.types)
    ensures Invoke(j, s) == AfterTries(j, s, if j.early then Visit(FIVE, 0, Group) else Visit(FIVE, -1, NoType))
  {
    var s0 := s.(trace := s.trace + [NoType]);
    var r := Reenter(j, s0);
    UnknownReadsEntry(j, s.types, GroupPrivate);
    RetryGoesThrough(j, r, GroupPrivate, 4);
    TriesFromFour(j.early);
    var v := Tries(j.early, GroupPrivate, 4);
    var s1 := State(s.types[j.entry := v.last], s.counters[j.id := v.counter], s0.trace + v.types);
    assert Invoke(j, r) == s1 by {
      assert r.types[j.entry := v.last] == s.types[j.entry := v.last];
      assert r.counters[j.id := v.counter] == s.counters[j.id := v.counter];
    }
    if j.early {
      ContinuesFromThree(j, s, s1);
      GroupGoesOn(j, s, State(s1.types[j.entry := Guild], s1.counters[j.id := 2], s1.trace));
    } else {
      assert s1.types[j.entry := NoType] == s.types[j.entry := NoType];
      assert s1.counters[j.id := -1] == s.counters[j.id := -1];
      assert s1.trace == s.trace + FIVE;
    }
  }

  lemma SetTwice<K, V>(m: map<K, V>, k: K, v: V, v': V)
    ensures m[k := v][k := v'] == m[k := v']
  {
  }

  /** After the early return the first invocation itself counts on from 3. */
  lemma GroupGoesOn(j: Job, s: State, s3: State)
    requires Bounded(s) && Unknown(j, s.types)
    requires s3.types == s.types[j.entry := GuildPrivate][j.entry := Guild]
    requires s3.counters == s.counters[j.id := 3][j.id := 2]
    requires s3.trace == s.trace + [NoType] + [GroupPrivate, GuildPrivate]
    ensures Terminates(j, s3.types) && Bounded(s3) && Invoke(j, s3) == AfterTries(j, s, Visit(FIVE, 0, Group))
  {
    SetTwice(s.types, j.entry, GuildPrivate, Guild);
    UnknownReadsEntry(j, s.types, Guild);
    RetryGoesThrough(j, s3, Guild, 2);
    TriesFromFour(j.early);
    SetTwice(s.types, j.entry, Guild, Group);
    SetTwice(s.counters, j.id, 3, 2);
    SetTwice(s.counters, j.id, 2, 0);
    assert s3.trace + [Guild, Group] == s.trace + FIVE;
  }

  lemma ContinuesFromThree(j: Job, s: State, s1: State)
    requires Bounded(s) && EntryIsRead(j) && j.idOk && LookupType(j, s.types) == NoType
    requires Terminates(j, Reenter(j, s.(trace := s.trace + [NoType])).types)
    requires Invoke(j, Reenter(j, s.(trace := s.trace + [NoType]))) == s1 && j.id in s1.counters
    requires s1.counters[j.id] == 3
    ensures var s3 := State(s1.types[j.entry := Guild], s1.counters[j.id := 2], s1.trace);
            Terminates(j, s3.types) && Bounded(s3) && Invoke(j, s) == Invoke(j, s3)
  {
    WriteKeepsTerminates(j, s1.types, Guild, true);
  }

  // ---- which type a send starts with, and under which id ----

  /** A place where a message type may be found: a map and a key. */
  datatype Place = Place(types: map<string, MsgType>, key: string)

  predicate Says(p: Place, t: MsgType) {
    t != NoType && p.key in p.types && p.types[p.key] == t
  }

  /** The type the first of the places that has one has; none if none has. */
  ghost predicate FirstSaid(places: seq<Place>, t: MsgType) {
    if t == NoType then forall i, x :: 0 <= i < |places| ==> !Says(places[i], x)
    else exists i :: 0 <= i < |places| && Says(places[i], t) && forall j, x :: 0 <= j < i ==> !Says(places[j], x)
  }

  /** The places in the order the handlers look: the echo's own entry, the entries of the two ids under this app
      id, and what is stored for the two ids; a private send asks for the user first, the others for the group. */
  function Places(h: Handler, env: Env, msg: Message, types: map<string, MsgType>): seq<Place> {
    var user, group := Place(types, env.appID + "_" + msg.userID), Place(types, env.appID + "_" + msg.groupID);
    var userV2, groupV2 := Place(env.stored, msg.userID), Place(env.stored, msg.groupID);
    (if msg.echo.Some? then [Place(types, msg.echo.value)] else [])
    + (if h == SendPrivateMsg then [user, group, userV2, groupV2] else [group, user, groupV2, userV2])
  }

  lemma FirstSaidMore(p: Place, rest: seq<Place>, t: MsgType)
    requires FirstSaid(rest, t)
    ensures FirstSaid([p] + rest, FirstOf(Get(p.types, p.key), t))
  {
    var places := [p] + rest;
    assert forall i :: 0 < i < |places| ==> places[i] == rest[i - 1];
    if Get(p.types, p.key) != NoType {
      assert Says(places[0], Get(p.types, p.key));
    } else if t != NoType {
      var i :| 0 <= i < |rest| && Says(rest[i], t) && forall j, x :: 0 <= j < i ==> !Says(rest[j], x);
      assert Says(places[i + 1], t);
    }
  }

  /** The type a send starts with is what the first of these places says. */
  lemma StartsWithTheFirst(h: Handler, env: Env, msg: Message, types: map<string, MsgType>)
    ensures FirstSaid(Places(h, env, msg, types), LookupType(JobOf(h, env, msg), types))
  {
    var user, group := Place(types, env.appID + "_" + msg.userID), Place(types, env.appID + "_" + msg.groupID);
    var userV2, groupV2 := Place(env.stored, msg.userID), Place(env.stored, msg.groupID);
    var four := if h == SendPrivateMsg then [user, group, userV2, groupV2] else [group, user, groupV2, userV2];
    FirstSaidFour(four[0], four[1], four[2], four[3]);
    if msg.echo.Some? {
      var byIds := LookupType(JobOf(h, env, msg.(echo := None)), types);
      FirstSaidMore(Place(types, msg.echo.value), four, byIds);
    } else {
      assert [] + four == four;
    }
  }

  lemma FirstSaidFour(a: Place, b: Place, c: Place, d: Place)
    ensures FirstSaid([a, b, c, d], FirstOf(Get(a.types, a.key), FirstOf(Get(b.types, b.key),
                                    FirstOf(Get(c.types, c.key), Get(d.types, d.key)))))
  {
    assert [d] + [] == [d] && [c] + [d] == [c, d] && [b] + [c, d] == [b, c, d] && [a] + [b, c, d] == [a, b, c, d];
    FirstSaidMore(d, [], NoType);
    FirstSaidMore(c, [d], Get(d.types, d.key));
    FirstSaidMore(b, [c, d], FirstOf(Get(c.types, c.key), Get(d.types, d.key)));
    FirstSaidMore(a, [b, c, d], FirstOf(Get(b.types, b.key), FirstOf(Get(c.types, c.key), Get(d.types, d.key))));
  }

  /** So there is only one such type. */
  lemma FirstSaidUnique(places: seq<Place>, t: MsgType, u: MsgType)
    requires FirstSaid(places, t) && FirstSaid(places, u)
    ensures t == u
  {
  }

  /** The id a send counts under, and the entry it writes for its retries: the user's when there is one, else the
      group's, else 0; only a group send can return early. */
  lemma CountsUnder(h: Handler, env: Env, echo: Option<string>, group: int64, user: int64)
    ensures var j := JobOf(h, env, Message(echo, FormatInt(group), FormatInt(user)));
            j.id == user && j.idOk && j.entry == env.appID + "_" + FormatInt(user)
    ensures var j := JobOf(h, env, Message(echo, FormatInt(group), ""));
            j.id == group && j.idOk && j.entry == env.appID + "_" + FormatInt(group)
    ensures var j := JobOf(h, env, Message(echo, "", ""));
            j.id == 0 && j.idOk && j.entry == env.appID + "_0"
    ensures forall msg :: JobOf(h, env, msg).early <==> h == SendGroupMsg && !env.guildIdKnown
  {
    ParseFormat(group);
    ParseFormat(user);
    assert FormatInt(0) == "0";
  }

  /** An id that is no number: the first character alone decides that much. */
  lemma NoNumber(h: Handler, env: Env, echo: Option<string>, groupID: string, userID: string)
    requires userID != "" && !IsDigit(userID[0]) && userID[0] != '-' && userID[0] != '+'
    ensures var j := JobOf(h, env, Message(echo, groupID, userID));
            !j.idOk && j.id == 0 && j.entry == env.appID + "_0"
  {
    ParseElse(userID);
    assert FormatInt(0) == "0";
  }

  lemma TypeIs(h: Handler, env: Env, msg: Message, types: map<string, MsgType>, t: MsgType)
    requires FirstSaid(Places(h, env, msg, types), t)
    ensures LookupType(JobOf(h, env, msg), types) == t
  {
    StartsWithTheFirst(h, env, msg, types);
    FirstSaidUnique(Places(h, env, msg, types), t, LookupType(JobOf(h, env, msg), types));
  }

  lemma EarlyIs(h: Handler, env: Env, msg: Message)
    ensures JobOf(h, env, msg).early <==> h == SendGroupMsg && !env.guildIdKnown
  {
  }

  lemma OneInvocation(j: Job, s: State)
    requires Bounded(s) && (LookupType(j, s.types) != NoType || !j.idOk) && GetMapping(s.counters, j.id) <= 1
    ensures Terminates(j, s.types)
    ensures var t, c := LookupType(j, s.types), GetMapping(s.counters, j.id);
            Invoke(j, s)
            == if j.early && t == GuildPrivate then State(s.types, s.counters, s.trace + [t])
               else State(if c <= 0 then s.types[j.entry := NoType] else s.types,
                          s.counters[j.id := c - 1], s.trace + [t])
  {
  }

  /** With a type to start with, or an id that is no number, and a counter of at most 1, a send is one invocation
      with exactly that type. It counts down by one, and empties the entry if the counter had run out; a group
      send of a private guild message whose guild id cannot be read leaves both alone. */
  lemma KnownTypeOnce(h: Handler, env: Env, msg: Message, s: State, t: MsgType)
    requires FirstSaid(Places(h, env, msg, s.types), t) && (t != NoType || !JobOf(h, env, msg).idOk) && Bounded(s)
    requires var id := JobOf(h, env, msg).id; id !in s.counters || s.counters[id] <= 1
    ensures var j := JobOf(h, env, msg);
            && Terminates(j, s.types)
            && var c := if j.id in s.counters then s.counters[j.id] else 0;
            Invoke(j, s)
            == if h == SendGroupMsg && !env.guildIdKnown && t == GuildPrivate
               then State(s.types, s.counters, s.trace + [t])
               else State(if c <= 0 then s.types[j.entry := NoType] else s.types,
                          s.counters[j.id := c - 1], s.trace + [t])
  {
    TypeIs(h, env, msg, s.types, t);
    EarlyIs(h, env, msg);
    OneInvocation(JobOf(h, env, msg), s);
  }

  /** A counter of 2 to 4 that an earlier send left makes a send whose type comes from its echo go on with that
      type, once for each count. */
  lemma {:induction false} EchoGoesOn(j: Job, s: State, t: MsgType, c: int)
    requires j.echo.Some? && j.echo.value != j.entry && t != NoType && Bounded(s) && 1 <= c <= 4
    requires j.echo.value in s.types && s.types[j.echo.value] == t && j.id in s.counters && s.counters[j.id] == c
    requires !(j.early && t == GuildPrivate)
    ensures Terminates(j, s.types)
    ensures var e := Invoke(j, s);
            e.trace == s.trace + seq(c, _ => t) && e.counters == s.counters[j.id := 0]
            && e.types == if c == 1 then s.types else s.types[j.entry := Group]
    decreases c
  {
    if c > 1 {
      var next := TRY_MESSAGE_TYPES[c - 2];
      var s' := State(s.types[j.entry := next], s.counters[j.id := c - 1], s.trace + [t]);
      EchoGoesOn(j, s', t, c - 1);
      assert Invoke(j, s) == Invoke(j, s');
      OneMore(s.trace, t, c);
      SetTwice(s.types, j.entry, next, Group);
      SetTwice(s.counters, j.id, c - 1, 0);
      assert c == 2 ==> next == Group;
    } else {
      OneMore(s.trace, t, 1);
    }
  }

  lemma OneMore(trace: seq<MsgType>, t: MsgType, c: nat)
    requires c > 0
    ensures trace + [t] + seq(c - 1, _ => t) == trace + seq(c, _ => t)
    ensures c == 1 ==> trace + [t] == trace + seq(c, _ => t)
  {
  }
}
