/** Event handler tables and synchronous dispatch (discordgo/event.go). Handler instances are numbered in
    the order they are created, which stands for their addresses. */
module Events {
  type Instance = nat

  /** The pseudo type `__INTERFACE__`, which gets every event, and the types events really have. */
  datatype EventType = Interface | Named(name: string)

  type Table = map<EventType, seq<Instance>>

  /** A handler call: which instance, and for which operation of the run. */
  datatype Fired = Fired(handler: Instance, at: nat)

  /** The type an instance was added for, and whether for one event only. */
  datatype Kind = Kind(event: EventType, once: bool)

  /** The two tables, every instance ever created, and the calls made so far. */
  datatype State = State(handlers: Table, onceHandlers: Table, kinds: seq<Kind>, log: seq<Fired>)

  function Get(m: Table, t: EventType): seq<Instance> {
    if t in m then m[t] else []
  }

  /** The sequence with one element taken out, the others in order. */
  function Without(s: seq<Instance>, h: Instance): seq<Instance> {
    if s == [] then [] else (if s[0] == h then [] else [s[0]]) + Without(s[1..], h)
  }

  function Calls(hs: seq<Instance>, at: nat): (c: seq<Fired>)
    ensures |c| == |hs| && forall i :: 0 <= i < |hs| ==> c[i] == Fired(hs[i], at)
  {
    if hs == [] then [] else [Fired(hs[0], at)] + Calls(hs[1..], at)
  }

  /** Session.handle: permanent handlers first, then the once-handlers, which are dropped. */
  function Handled(s: State, t: EventType, at: nat): State {
    var once := Get(s.onceHandlers, t);
    s.(log := s.log + Calls(Get(s.handlers, t), at) + Calls(once, at),
       onceHandlers := if |once| > 0 then s.onceHandlers[t := []] else s.onceHandlers)
  }

  datatype Op =
    | Add(event: EventType)
    | AddOnce(event: EventType)
    | Remove(event: EventType, handler: Instance)
    | Dispatch(event: EventType)

  function Apply(s: State, op: Op, at: nat): State {
    match op
    case Add(t) =>
      s.(handlers := s.handlers[t := Get(s.handlers, t) + [|s.kinds|]], kinds := s.kinds + [Kind(t, false)])
    case AddOnce(t) => s.(onceHandlers := s.onceHandlers[t := Get(s.onceHandlers, t) + [|s.kinds|]],
        kinds := s.kinds + [Kind(t, true)])
    case Remove(t, h) =>
      s.(handlers := RemoveIn(s.handlers, t, h), onceHandlers := RemoveIn(s.onceHandlers, t, h))
    case Dispatch(t) => Handled(Handled(s, Interface, at), t, at)
  }

  function RemoveIn(m: Table, t: EventType, h: Instance): Table {
    if h in Get(m, t) then m[t := Without(Get(m, t), h)] else m
  }

  function Run(ops: seq<Op>): State {
    if ops == [] then State(map[], map[], [], [])
    else Apply(Run(ops[..|ops| - 1]), ops[|ops| - 1], |ops| - 1)
  }

  // ---- the tables at any moment ----

  ghost predicate Increasing(s: seq<Instance>) {
    forall i, j :: 0 <= i < j < |s| ==> s[i] < s[j]
  }

  /** Every table lists instances of its own kind, each once, in the order they were registered. */
  ghost predicate TableOk(m: Table, kinds: seq<Kind>, once: bool) {
    forall t :: Increasing(Get(m, t)) && forall h :: h in Get(m, t) ==> h < |kinds| && kinds[h] == Kind(t, once)
  }

  ghost predicate Valid(s: State) {
    TableOk(s.handlers, s.kinds, false) && TableOk(s.onceHandlers, s.kinds, true)
  }

  lemma {:induction false} WithoutExactly(s: seq<Instance>, h: Instance)
    requires Increasing(s)
    ensures Increasing(Without(s, h)) && forall x :: x in Without(s, h) <==> x in s && x != h
  {
    if s != [] {
      WithoutExactly(s[1..], h);
      var w := Without(s[1..], h);
      assert forall i :: 0 <= i < |w| ==> w[i] in s[1..];
      assert forall x :: x in s <==> x == s[0] || x in s[1..];
    }
  }

  lemma AppendKeepsEntry(hs: seq<Instance>, kinds: seq<Kind>, t: EventType, once: bool)
    requires Increasing(hs) && forall h :: h in hs ==> h < |kinds| && kinds[h] == Kind(t, once)
    ensures var hs', kinds' := hs + [|kinds|], kinds + [Kind(t, once)];
            Increasing(hs') && forall h :: h in hs' ==> h < |kinds'| && kinds'[h] == Kind(t, once)
  {
    assert forall i :: 0 <= i < |hs| ==> hs[i] in hs;
  }

  lemma AppendKeepsTable(m: Table, kinds: seq<Kind>, t: EventType, once: bool)
    requires TableOk(m, kinds, once)
    ensures TableOk(m[t := Get(m, t) + [|kinds|]], kinds + [Kind(t, once)], once)
  {
    var m', kinds' := m[t := Get(m, t) + [|kinds|]], kinds + [Kind(t, once)];
    forall u
      ensures Increasing(Get(m', u)) && forall h :: h in Get(m', u) ==> h < |kinds'| && kinds'[h] == Kind(u, once)
    {
      assert Increasing(Get(m, u));
      if u == t {
        AppendKeepsEntry(Get(m, t), kinds, t, once);
      } else {
        assert Get(m', u) == Get(m, u);
      }
    }
  }

  lemma OtherKindKeepsTable(m: Table, kinds: seq<Kind>, k: Kind, once: bool)
    requires TableOk(m, kinds, once)
    ensures TableOk(m, kinds + [k], once)
  {
    forall u
      ensures Increasing(Get(m, u))
      ensures forall h :: h in Get(m, u) ==> h < |kinds + [k]| && (kinds + [k])[h] == Kind(u, once)
    {
    }
  }

  lemma RemoveKeepsTable(m: Table, kinds: seq<Kind>, t: EventType, h: Instance, once: bool)
    requires TableOk(m, kinds, once)
    ensures TableOk(RemoveIn(m, t, h), kinds, once)
  {
    var m' := RemoveIn(m, t, h);
    forall u
      ensures Increasing(Get(m', u)) && forall x :: x in Get(m', u) ==> x < |kinds| && kinds[x] == Kind(u, once)
    {
      assert Increasing(Get(m, u));
      WithoutExactly(Get(m, u), h);
    }
  }

  lemma ClearKeepsTable(m: Table, kinds: seq<Kind>, t: EventType, once: bool)
    requires TableOk(m, kinds, once)
    ensures TableOk(m[t := []], kinds, once)
  {
    var m' := m[t := []];
    forall u
      ensures Increasing(Get(m', u)) && forall x :: x in Get(m', u) ==> x < |kinds| && kinds[x] == Kind(u, once)
    {
      assert Get(m', u) == if u == t then [] else Get(m, u);
      assert Increasing(Get(m, u));
    }
  }

  lemma StepKeepsValid(s: State, op: Op, at: nat)
    requires Valid(s)
    ensures Valid(Apply(s, op, at))
  {
    match op
    case Add(t) =>
      AppendKeepsTable(s.handlers, s.kinds, t, false);
      OtherKindKeepsTable(s.onceHandlers, s.kinds, Kind(t, false), true);
    case AddOnce(t) =>
      AppendKeepsTable(s.onceHandlers, s.kinds, t, true);
      OtherKindKeepsTable(s.handlers, s.kinds, Kind(t, true), false);
    case Remove(t, h) =>
      RemoveKeepsTable(s.handlers, s.kinds, t, h, false);
      RemoveKeepsTable(s.onceHandlers, s.kinds, t, h, true);
    case Dispatch(t) =>
      ClearKeepsTable(s.onceHandlers, s.kinds, Interface, true);
      ClearKeepsTable(Handled(s, Interface, at).onceHandlers, s.kinds, t, true);
  }

  lemma {:induction false} RunValid(ops: seq<Op>)
    ensures Valid(Run(ops))
  {
    if ops != [] {
      RunValid(ops[..|ops| - 1]);
      StepKeepsValid(Run(ops[..|ops| - 1]), ops[|ops| - 1], |ops| - 1);
    }
  }

  // ---- what the history of a run says ----

  /** How many instances the operations create. */
  function Created(ops: seq<Op>): nat {
    if ops == [] then 0
    else Created(ops[..|ops| - 1]) + (if ops[|ops| - 1].Add? || ops[|ops| - 1].AddOnce? then 1 else 0)
  }

  predicate Matches(op: Op, t: EventType) {
    op.Dispatch? && (op.event == t || t == Interface)
  }

  ghost predicate RegisteredBy(ops: seq<Op>, h: Instance, t: EventType, a: nat) {
    a < |ops| && ops[a] == Add(t) && Created(ops[..a]) == h && forall r :: a < r < |ops| ==> ops[r] != Remove(t, h)
  }

  ghost predicate PendingSince(ops: seq<Op>, h: Instance, t: EventType, a: nat) {
    a < |ops| && ops[a] == AddOnce(t) && Created(ops[..a]) == h
    && forall r :: a < r < |ops| ==> ops[r] != Remove(t, h) && !Matches(ops[r], t)
  }

  /** Some operation registered h for t, and it has not been removed since. */
  ghost predicate Registered(ops: seq<Op>, h: Instance, t: EventType) {
    exists a :: RegisteredBy(ops, h, t, a)
  }

  /** The same for one event only, and no matching event has happened since. */
  ghost predicate Pending(ops: seq<Op>, h: Instance, t: EventType) {
    exists a :: PendingSince(ops, h, t, a)
  }

  lemma RegisteredByPrefix(ops: seq<Op>, op: Op, h: Instance, t: EventType, a: nat)
    requires a < |ops|
    ensures RegisteredBy(ops + [op], h, t, a) <==> RegisteredBy(ops, h, t, a) && op != Remove(t, h)
  {
    var all := ops + [op];
    assert all[..a] == ops[..a];
    assert all[|ops|] == op && forall r :: 0 <= r < |ops| ==> all[r] == ops[r];
  }

  lemma PendingSincePrefix(ops: seq<Op>, op: Op, h: Instance, t: EventType, a: nat)
    requires a < |ops|
    ensures PendingSince(ops + [op], h, t, a) <==> PendingSince(ops, h, t, a) && op != Remove(t, h) && !Matches(op, t)
  {
    var all := ops + [op];
    assert all[..a] == ops[..a];
    assert all[|ops|] == op && forall r :: 0 <= r < |ops| ==> all[r] == ops[r];
  }

  lemma RegisteredStep(ops: seq<Op>, op: Op, h: Instance, t: EventType)
    ensures Registered(ops + [op], h, t)
        <==> (op == Add(t) && Created(ops) == h) || (Registered(ops, h, t) && op != Remove(t, h))
  {
    var n := |ops|;
    assert (ops + [op])[..n] == ops;
    assert RegisteredBy(ops + [op], h, t, n) <==> op == Add(t) && Created(ops) == h;
    forall a: nat | a < n
      ensures RegisteredBy(ops + [op], h, t, a) <==> RegisteredBy(ops, h, t, a) && op != Remove(t, h)
    {
      RegisteredByPrefix(ops, op, h, t, a);
    }
  }

  lemma PendingStep(ops: seq<Op>, op: Op, h: Instance, t: EventType)
    ensures Pending(ops + [op], h, t)
            <==> ((op == AddOnce(t) && Created(ops) == h)
                  || (Pending(ops, h, t) && op != Remove(t, h) && !Matches(op, t)))
  {
    var n := |ops|;
    assert (ops + [op])[..n] == ops;
    assert PendingSince(ops + [op], h, t, n) <==> op == AddOnce(t) && Created(ops) == h;
    forall a: nat | a < n
      ensures PendingSince(ops + [op], h, t, a) <==> PendingSince(ops, h, t, a) && op != Remove(t, h) && !Matches(op, t)
    {
      PendingSincePrefix(ops, op, h, t, a);
    }
  }

  lemma {:induction false} CreatedIsKinds(ops: seq<Op>)
    ensures |Run(ops).kinds| == Created(ops)
  {
    if ops != [] {
      CreatedIsKinds(ops[..|ops| - 1]);
    }
  }

  lemma RemoveMember(m: Table, kinds: seq<Kind>, once: bool, u: EventType, x: Instance, h: Instance, t: EventType)
    requires TableOk(m, kinds, once)
    ensures h in Get(RemoveIn(m, u, x), t) <==> h in Get(m, t) && !(u == t && x == h)
  {
    assert Increasing(Get(m, u));
    WithoutExactly(Get(m, u), x);
  }

  lemma AddMember(m: Table, u: EventType, x: Instance, h: Instance, t: EventType)
    ensures h in Get(m[u := Get(m, u) + [x]], t) <==> h in Get(m, t) || (u == t && h == x)
  {
  }

  /** A handler call leaves a type no once-handlers and changes no other membership. */
  lemma HandleTables(s: State, e: EventType, at: nat, h: Instance, t: EventType)
    ensures Handled(s, e, at).handlers == s.handlers
    ensures h in Get(Handled(s, e, at).onceHandlers, t) <==> h in Get(s.onceHandlers, t) && e != t
  {
  }

  lemma DispatchTables(s: State, e: EventType, at: nat, h: Instance, t: EventType)
    ensures Apply(s, Dispatch(e), at).handlers == s.handlers
    ensures h in Get(Apply(s, Dispatch(e), at).onceHandlers, t)
        <==> h in Get(s.onceHandlers, t) && !Matches(Dispatch(e), t)
  {
    HandleTables(s, Interface, at, h, t);
    HandleTables(Handled(s, Interface, at), e, at, h, t);
  }

  /** What one operation does to membership in the two tables. */
  lemma StepTables(s: State, op: Op, at: nat, h: Instance, t: EventType)
    requires Valid(s)
    ensures h in Get(Apply(s, op, at).handlers, t)
            <==> (op == Add(t) && h == |s.kinds|) || (h in Get(s.handlers, t) && op != Remove(t, h))
    ensures h in Get(Apply(s, op, at).onceHandlers, t)
            <==> ((op == AddOnce(t) && h == |s.kinds|)
                  || (h in Get(s.onceHandlers, t) && op != Remove(t, h) && !Matches(op, t)))
  {
    match op
    case Add(u) =>
      AddMember(s.handlers, u, |s.kinds|, h, t);
    case AddOnce(u) =>
      AddMember(s.onceHandlers, u, |s.kinds|, h, t);
    case Remove(u, x) =>
      RemoveMember(s.handlers, s.kinds, false, u, x, h, t);
      RemoveMember(s.onceHandlers, s.kinds, true, u, x, h, t);
    case Dispatch(e) =>
      DispatchTables(s, e, at, h, t);
  }

  /** At any moment the permanent table of a type holds exactly the instances registered for it and not
      removed, and the once-table those that also have not met their event yet. */
  lemma {:induction false} TablesExactly(ops: seq<Op>, h: Instance, t: EventType)
    ensures h in Get(Run(ops).handlers, t) <==> Registered(ops, h, t)
    ensures h in Get(Run(ops).onceHandlers, t) <==> Pending(ops, h, t)
  {
    if ops != [] {
      var n := |ops| - 1;
      TablesExactly(ops[..n], h, t);
      assert ops == ops[..n] + [ops[n]];
      RegisteredStep(ops[..n], ops[n], h, t);
      PendingStep(ops[..n], ops[n], h, t);
      CreatedIsKinds(ops[..n]);
      RunValid(ops[..n]);
      StepTables(Run(ops[..n]), ops[n], n, h, t);
    }
  }

  // ---- which calls are made, and in which order ----

  /** The calls of one dispatch. */
  function Segment(s: State, t: EventType, at: nat): seq<Fired> {
    Calls(Get(s.handlers, Interface), at) + Calls(Get(s.onceHandlers, Interface), at)
    + Calls(Get(s.handlers, t), at) + Calls(Get(s.onceHandlers, t), at)
  }

  lemma Regroup(log: seq<Fired>, a: seq<Fired>, b: seq<Fired>, c: seq<Fired>, d: seq<Fired>)
    ensures log + a + b + c + d == log + (a + b + c + d)
  {
  }

  /** A handler call of one type leaves the permanent table and the once-handlers of other types alone. */
  lemma HandleElsewhere(s: State, t: EventType, u: EventType, at: nat)
    requires t != u
    ensures var s' := Handled(s, t, at);
            s'.handlers == s.handlers && s'.kinds == s.kinds && Get(s'.onceHandlers, u) == Get(s.onceHandlers, u)
            && s'.log == s.log + Calls(Get(s.handlers, t), at) + Calls(Get(s.onceHandlers, t), at)
  {
  }

  lemma DispatchLog(s: State, t: EventType, at: nat)
    requires t != Interface
    ensures Apply(s, Dispatch(t), at).log == s.log + Segment(s, t, at)
  {
    HandleElsewhere(s, Interface, t, at);
    var s' := Handled(s, Interface, at);
    var i := Interface;
    var a, b := Calls(Get(s.handlers, i), at), Calls(Get(s.onceHandlers, i), at);
    var c, d := Calls(Get(s.handlers, t), at), Calls(Get(s.onceHandlers, t), at);
    assert Handled(s', t, at).log == s'.log + c + d;
    Regroup(s.log, a, b, c, d);
  }

  lemma InCalls(hs: seq<Instance>, at: nat, f: Fired)
    ensures f in Calls(hs, at) <==> f.at == at && f.handler in hs
  {
    var c := Calls(hs, at);
    if f.at == at && f.handler in hs {
      var i :| 0 <= i < |hs| && hs[i] == f.handler;
      assert c[i] == f;
    }
  }

  /** Dispatched events have a type of their own. */
  predicate Typed(ops: seq<Op>) {
    forall i :: 0 <= i < |ops| ==> ops[i] != Dispatch(Interface)
  }

  ghost predicate Listening(ops: seq<Op>, h: Instance, t: EventType) {
    Registered(ops, h, t) || Pending(ops, h, t)
  }

  /** Operation k is an event that h, as the run stands then, is waiting for. */
  ghost predicate Due(ops: seq<Op>, h: Instance, k: nat) {
    k < |ops| && ops[k].Dispatch? && (Listening(ops[..k], h, Interface) || Listening(ops[..k], h, ops[k].event))
  }

  /** A handler is called for an operation exactly when it is due: permanent handlers for every matching
      event while registered, once-handlers for the first one unless removed earlier. */
  lemma {:induction false} FiredExactly(ops: seq<Op>, h: Instance, k: nat)
    requires Typed(ops)
    ensures Fired(h, k) in Run(ops).log <==> Due(ops, h, k)
  {
    if ops != [] {
      var n := |ops| - 1;
      var s := Run(ops[..n]);
      FiredExactly(ops[..n], h, k);
      if k < n {
        assert ops[..n][..k] == ops[..k];
      }
      if ops[n].Dispatch? {
        var t := ops[n].event;
        DispatchLog(s, t, n);
        InCalls(Get(s.handlers, Interface), n, Fired(h, k));
        InCalls(Get(s.onceHandlers, Interface), n, Fired(h, k));
        InCalls(Get(s.handlers, t), n, Fired(h, k));
        InCalls(Get(s.onceHandlers, t), n, Fired(h, k));
        TablesExactly(ops[..n], h, Interface);
        TablesExactly(ops[..n], h, t);
      }
    }
  }

  /** Handlers of every type come before those of the event's own, and permanent ones before once-handlers. */
  function Rank(k: Kind): nat {
    match k
    case Kind(Interface, false) => 0
    case Kind(Interface, true) => 1
    case Kind(Named(_), false) => 2
    case Kind(Named(_), true) => 3
  }

  /** Calls are ordered by operation, within one by rank, and within a rank by registration. */
  ghost predicate InOrder(log: seq<Fired>, kinds: seq<Kind>) {
    && (forall i :: 0 <= i < |log| ==> log[i].handler < |kinds|)
    && (forall i, j :: 0 <= i < j < |log| ==> Before(log[i], log[j], kinds))
  }

  predicate Before(f: Fired, g: Fired, kinds: seq<Kind>) {
    f.handler < |kinds| && g.handler < |kinds| && f.at <= g.at
    && (f.at == g.at ==>
          var a, b := Rank(kinds[f.handler]), Rank(kinds[g.handler]);
          a < b || (a == b && f.handler < g.handler))
  }

  lemma CallsInOrder(hs: seq<Instance>, kinds: seq<Kind>, k: Kind, at: nat)
    requires Increasing(hs) && forall h :: h in hs ==> h < |kinds| && kinds[h] == k
    ensures InOrder(Calls(hs, at), kinds)
    ensures forall f :: f in Calls(hs, at) ==> f.at == at && f.handler < |kinds| && kinds[f.handler] == k
  {
    forall f
      ensures f in Calls(hs, at) <==> f.at == at && f.handler in hs
    {
      InCalls(hs, at, f);
    }
    var c := Calls(hs, at);
    assert forall i :: 0 <= i < |c| ==> hs[i] in hs;
  }

  lemma AppendInOrder(a: seq<Fired>, b: seq<Fired>, kinds: seq<Kind>)
    requires InOrder(a, kinds) && InOrder(b, kinds)
    requires forall f, g :: f in a && g in b ==> Before(f, g, kinds)
    ensures InOrder(a + b, kinds)
  {
    var c := a + b;
    forall i, j | 0 <= i < j < |c|
      ensures Before(c[i], c[j], kinds)
    {
      assert c[i] in a || c[i] in b;
      if i < |a| <= j {
        assert a[i] in a && b[j - |a|] in b;
      }
    }
  }

  /** The calls made for one kind within an operation. */
  ghost predicate Block(c: seq<Fired>, kinds: seq<Kind>, k: Kind, at: nat) {
    InOrder(c, kinds) && forall f :: f in c ==> f.at == at && f.handler < |kinds| && kinds[f.handler] == k
  }

  lemma FourBlocks(a: seq<Fired>, b: seq<Fired>, c: seq<Fired>, d: seq<Fired>, kinds: seq<Kind>, t: EventType, at: nat)
    requires t != Interface
    requires Block(a, kinds, Kind(Interface, false), at) && Block(b, kinds, Kind(Interface, true), at)
    requires Block(c, kinds, Kind(t, false), at) && Block(d, kinds, Kind(t, true), at)
    ensures InOrder(a + b + c + d, kinds) && forall f :: f in a + b + c + d ==> f.at == at
  {
    AppendInOrder(a, b, kinds);
    AppendInOrder(a + b, c, kinds);
    AppendInOrder(a + b + c, d, kinds);
  }

  lemma SegmentInOrder(s: State, t: EventType, at: nat)
    requires Valid(s) && t != Interface
    ensures InOrder(Segment(s, t, at), s.kinds) && forall f :: f in Segment(s, t, at) ==> f.at == at
  {
    var i := Interface;
    var a, b, c, d := Get(s.handlers, i), Get(s.onceHandlers, i), Get(s.handlers, t), Get(s.onceHandlers, t);
    CallsInOrder(a, s.kinds, Kind(i, false), at);
    CallsInOrder(b, s.kinds, Kind(i, true), at);
    CallsInOrder(c, s.kinds, Kind(t, false), at);
    CallsInOrder(d, s.kinds, Kind(t, true), at);
    FourBlocks(Calls(a, at), Calls(b, at), Calls(c, at), Calls(d, at), s.kinds, t, at);
  }

  lemma OrderSurvivesNewKinds(log: seq<Fired>, kinds: seq<Kind>, k: Kind)
    requires InOrder(log, kinds)
    ensures InOrder(log, kinds + [k])
  {
    forall i, j | 0 <= i < j < |log|
      ensures Before(log[i], log[j], kinds + [k])
    {
      assert Before(log[i], log[j], kinds);
    }
  }

  /** Over every run the log is in order: within an event first the permanent handlers of every type, then the
      once-handlers of every type, then the event's own permanent ones, then its own once-handlers, each in
      registration order; in particular no handler is called twice for one event. */
  lemma {:induction false} LogInOrder(ops: seq<Op>)
    requires Typed(ops)
    ensures InOrder(Run(ops).log, Run(ops).kinds)
    ensures forall f :: f in Run(ops).log ==> f.at < |ops|
    ensures var log := Run(ops).log; forall i, j :: 0 <= i < j < |log| ==> log[i] != log[j]
  {
    if ops != [] {
      var n := |ops| - 1;
      var s := Run(ops[..n]);
      LogInOrder(ops[..n]);
      RunValid(ops[..n]);
      match ops[n]
      case Add(t) => OrderSurvivesNewKinds(s.log, s.kinds, Kind(t, false));
      case AddOnce(t) => OrderSurvivesNewKinds(s.log, s.kinds, Kind(t, true));
      case Remove(_, _) =>
      case Dispatch(t) =>
        DispatchLog(s, t, n);
        SegmentInOrder(s, t, n);
        var seg := Segment(s, t, n);
        forall f, g | f in s.log && g in seg
          ensures Before(f, g, s.kinds)
        {
          var i :| 0 <= i < |s.log| && s.log[i] == f;
          var j :| 0 <= j < |seg| && seg[j] == g;
        }
        AppendInOrder(s.log, seg, s.kinds);
    }
    var log := Run(ops).log;
    forall i, j | 0 <= i < j < |log|
      ensures log[i] != log[j]
    {
      assert Before(log[i], log[j], Run(ops).kinds);
    }
  }

  // ---- the session ----

  lemma {:induction false} WithoutAbsent(s: seq<Instance>, h: Instance)
    requires h !in s
    ensures Without(s, h) == s
  {
    if s != [] {
      WithoutAbsent(s[1..], h);
    }
  }

  lemma {:induction false} WithoutShorter(s: seq<Instance>, h: Instance)
    ensures |Without(s, h)| <= |s| && (h in s ==> |Without(s, h)| < |s|)
  {
    if s != [] {
      WithoutShorter(s[1..], h);
    }
  }

  lemma {:induction false} WithoutAt(s: seq<Instance>, i: nat)
    requires i < |s| && s[i] !in s[..i] && s[i] !in s[i + 1..]
    ensures Without(s, s[i]) == s[..i] + s[i + 1..]
  {
    if i == 0 {
      WithoutAbsent(s[1..], s[0]);
    } else {
      var r := s[1..];
      assert s[..i] == [s[0]] + r[..i - 1] && r[i..] == s[i + 1..];
      WithoutAt(r, i - 1);
    }
  }

  /** The removal loop, which does not stop at the instance it finds: the rest moves one place down in the
      shared array while the loop goes on over the old length. */
  method DeleteInPlace(a: array<Instance>, h: Instance) returns (len: nat)
    requires Increasing(a[..])
    modifies a
    ensures len <= a.Length && a[..len] == Without(old(a[..]), h)
  {
    len := a.Length;
    ghost var s := a[..];
    ghost var at: nat := a.Length;
    for i := 0 to a.Length
      invariant at <= a.Length && (at < a.Length ==> at < i && s[at] == h)
      invariant at == a.Length ==> len == a.Length && a[..] == s && h !in s[..i]
      invariant at < a.Length ==> len == a.Length - 1 && a[..len] == s[..at] + s[at + 1..]
      invariant at < a.Length ==> forall k :: i <= k < a.Length ==> a[k] != h
    {
      if a[i] == h {
        at := i;
        forall k | i <= k < a.Length - 1 {
          a[k] := a[k + 1];
        }
        len := a.Length - 1;
        assert a[..len] == s[..at] + s[at + 1..];
        assert forall k :: i < k < a.Length ==> a[k] == if k < len then s[k + 1] else s[k];
      }
    }
    if at < a.Length {
      WithoutAt(s, at);
    } else {
      WithoutAbsent(s, h);
      assert a[..len] == s;
    }
  }

  class Session {
    var handlers: Table
    var onceHandlers: Table
    var created: nat
    ghost var kinds: seq<Kind>
    ghost var log: seq<Fired>
    /** Every operation so far. */
    ghost var ops: seq<Op>

    ghost predicate Valid()
      reads this
    {
      State(handlers, onceHandlers, kinds, log) == Run(ops) && created == |kinds|
    }

    constructor ()
      ensures Valid() && ops == []
    {
      handlers, onceHandlers, created, kinds, log, ops := map[], map[], 0, [], [], [];
    }

    method AddEventHandler(t: EventType) returns (h: Instance)
      requires Valid()
      modifies this
      ensures Valid() && ops == old(ops) + [Add(t)] && h == Created(old(ops))
    {
      CreatedIsKinds(ops);
      h := created;
      created := created + 1;
      handlers := handlers[t := Get(handlers, t) + [h]];
      kinds := kinds + [Kind(t, false)];
      ops := ops + [Add(t)];
      assert ops[..|ops| - 1] == old(ops);
    }

    method AddEventHandlerOnce(t: EventType) returns (h: Instance)
      requires Valid()
      modifies this
      ensures Valid() && ops == old(ops) + [AddOnce(t)] && h == Created(old(ops))
    {
      CreatedIsKinds(ops);
      h := created;
      created := created + 1;
      onceHandlers := onceHandlers[t := Get(onceHandlers, t) + [h]];
      kinds := kinds + [Kind(t, true)];
      ops := ops + [AddOnce(t)];
      assert ops[..|ops| - 1] == old(ops);
    }

    static method RemoveFrom(m: Table, t: EventType, h: Instance) returns (m': Table)
      requires Increasing(Get(m, t))
      ensures m' == RemoveIn(m, t, h)
    {
      var hs := Get(m, t);
      var a := new Instance[|hs|](i requires 0 <= i < |hs| => hs[i]);
      assert a[..] == hs;
      var len := DeleteInPlace(a, h);
      m' := if len < |hs| then m[t := a[..len]] else m;
      if h in hs {
        WithoutShorter(hs, h);
      } else {
        WithoutAbsent(hs, h);
      }
    }

    method RemoveEventHandlerInstance(t: EventType, h: Instance)
      requires Valid()
      modifies this
      ensures Valid() && ops == old(ops) + [Remove(t, h)]
    {
      RunValid(ops);
      assert Increasing(Get(handlers, t)) && Increasing(Get(onceHandlers, t));
      handlers := RemoveFrom(handlers, t, h);
      onceHandlers := RemoveFrom(onceHandlers, t, h);
      ops := ops + [Remove(t, h)];
      assert ops[..|ops| - 1] == old(ops);
    }

    ghost function Now(): State
      reads this
    {
      State(handlers, onceHandlers, kinds, log)
    }

    method Fire(hs: seq<Instance>)
      modifies this`log
      ensures log == old(log) + Calls(hs, |ops|)
    {
      var i := 0;
      while i < |hs|
        invariant 0 <= i <= |hs| && log + Calls(hs[i..], |ops|) == old(log) + Calls(hs, |ops|)
      {
        assert hs[i..][1..] == hs[i + 1..];
        assert log + [Fired(hs[i], |ops|)] + Calls(hs[i + 1..], |ops|) == log + Calls(hs[i..], |ops|);
        log := log + [Fired(hs[i], |ops|)];
        i := i + 1;
      }
    }

    method Handle(t: EventType)
      modifies this
      ensures Now() == Handled(old(Now()), t, |ops|)
      ensures ops == old(ops) && created == old(created)
    {
      Fire(Get(handlers, t));
      var once := Get(onceHandlers, t);
      if |once| > 0 {
        Fire(once);
        onceHandlers := onceHandlers[t := []];
      }
    }

    method HandleEvent(t: EventType)
      requires Valid()
      modifies this
      ensures Valid() && ops == old(ops) + [Dispatch(t)]
    {
      Handle(Interface);
      Handle(t);
      ops := ops + [Dispatch(t)];
      assert ops[..|ops| - 1] == old(ops);
    }
  }
}
