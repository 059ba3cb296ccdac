/** The cached messages of a channel (discordgo/state.go): MessageAdd merges or appends and keeps the last
    messages up to the limit, messageRemoveByID takes one out. */
module Messages {
  import opened Outcome

  /** A message; the pointer fields are options, with None for nil and for the zero time. */
  class Message {
    const id: string
    var content: string
    var editedTimestamp: Option<int>
    var mentions: Option<seq<string>>
    var embeds: Option<seq<string>>
    var attachments: Option<seq<string>>
    var timestamp: Option<int>
    var author: Option<string>
    var components: Option<seq<string>>

    constructor (id: string, content: string)
      ensures this.id == id && this.content == content
    {
      this.id, this.content := id, content;
      editedTimestamp, mentions, embeds, attachments := None, None, None, None;
      timestamp, author, components := None, None, None;
    }

    /** Takes over what the update carries and keeps the rest. */
    method Merge(update: Message)
      modifies this
      ensures Merged(this, update)
    {
      MergeText(update);
      MergeParts(update);
    }

    method MergeText(update: Message)
      modifies this`content, this`editedTimestamp, this`timestamp, this`author
      ensures MergedText(this, update)
    {
      if update.content != "" {
        content := update.content;
      }
      if update.editedTimestamp.Some? {
        editedTimestamp := update.editedTimestamp;
      }
      if update.timestamp.Some? {
        timestamp := update.timestamp;
      }
      if update.author.Some? {
        author := update.author;
      }
    }

    method MergeParts(update: Message)
      modifies this`mentions, this`embeds, this`attachments, this`components
      ensures MergedParts(this, update)
    {
      if update.mentions.Some? {
        mentions := update.mentions;
      }
      if update.embeds.Some? {
        embeds := update.embeds;
      }
      if update.attachments.Some? {
        attachments := update.attachments;
      }
      if update.components.Some? {
        components := update.components;
      }
    }
  }

  /** A field the update carries has the update's value afterwards, and any other the one it had. */
  predicate Taken<T(==)>(before: Option<T>, update: Option<T>, after: Option<T>) {
    (update.Some? ==> after == update) && (update.None? ==> after == before)
  }

  twostate predicate MergedText(m: Message, update: Message)
    reads m
  {
    && m.content == (if old(update.content) != "" then old(update.content) else old(m.content))
    && Taken(old(m.editedTimestamp), old(update.editedTimestamp), m.editedTimestamp)
    && Taken(old(m.timestamp), old(update.timestamp), m.timestamp)
    && Taken(old(m.author), old(update.author), m.author)
  }

  twostate predicate MergedParts(m: Message, update: Message)
    reads m
  {
    && Taken(old(m.mentions), old(update.mentions), m.mentions)
    && Taken(old(m.embeds), old(update.embeds), m.embeds)
    && Taken(old(m.attachments), old(update.attachments), m.attachments)
    && Taken(old(m.components), old(update.components), m.components)
  }

  /** The present message carries what the update carried, and of the rest what it carried before. */
  twostate predicate Merged(m: Message, update: Message)
    reads m
  {
    MergedText(m, update) && MergedParts(m, update)
  }

  function Later<T>(update: Option<T>, present: Option<T>): Option<T> {
    if update.Some? then update else present
  }

  /** Where the id stands in the list, or its length. */
  function Position(list: seq<Message>, id: string): (i: nat)
    ensures i <= |list| && (i < |list| ==> list[i].id == id)
    ensures forall j :: 0 <= j < i ==> list[j].id != id
  {
    if list == [] || list[0].id == id then 0 else 1 + Position(list[1..], id)
  }

  predicate Has(list: seq<Message>, id: string) {
    Position(list, id) < |list|
  }

  /** The last n elements. */
  function Last<T>(s: seq<T>, n: nat): seq<T> {
    if |s| > n then s[|s| - n..] else s
  }

  function Added(list: seq<Message>, m: Message, limit: nat): seq<Message> {
    if Has(list, m.id) then list else Last(list + [m], limit)
  }

  function Removed(list: seq<Message>, id: string): seq<Message> {
    var i := Position(list, id);
    if i < |list| then list[..i] + list[i + 1..] else list
  }

  // ---- a channel's list ----

  /** The Messages field of a cached channel. */
  class MessageList {
    var messages: seq<Message>

    /** The loop that both operations search with. */
    method Find(id: string) returns (i: nat)
      ensures i == Position(messages, id)
    {
      i := 0;
      while i < |messages| && messages[i].id != id
        invariant i <= |messages| && Position(messages, id) == i + Position(messages[i..], id)
      {
        assert messages[i..][1..] == messages[i + 1..];
        i := i + 1;
      }
      if i < |messages| {
        assert messages[i..][0] == messages[i];
      }
    }

    /** A message already cached takes over what the new one carries; a new one is appended and the oldest
        beyond the limit are dropped. */
    method MessageAdd(message: Message, maxMessageCount: nat)
      modifies this, messages
      ensures messages == Added(old(messages), message, maxMessageCount)
      ensures forall m :: m in old(messages) && m.id != message.id ==> unchanged(m)
      ensures var i := Position(old(messages), message.id);
              i < |old(messages)| ==> Merged(old(messages)[i], message)
    {
      var i := Find(message.id);
      if i < |messages| {
        messages[i].Merge(message);
      } else {
        messages := messages + [message];
        if |messages| > maxMessageCount {
          messages := messages[|messages| - maxMessageCount..];
        }
      }
    }

    /** Reports whether the message was there. */
    method MessageRemoveByID(id: string) returns (found: bool)
      modifies this
      ensures found == Has(old(messages), id) && messages == Removed(old(messages), id)
    {
      var i := Find(id);
      found := i < |messages|;
      if found {
        messages := messages[..i] + messages[i + 1..];
      }
    }
  }

  // ---- runs ----

  datatype Op = Add(message: Message) | Remove(id: string)

  function RunList(ops: seq<Op>, limit: nat): seq<Message> {
    if ops == [] then []
    else
      var list := RunList(ops[..|ops| - 1], limit);
      match ops[|ops| - 1]
      case Add(m) => Added(list, m, limit)
      case Remove(id) => Removed(list, id)
  }

  /** The operations that appended a message: adds of an id that was not cached at that moment. */
  function Appends(ops: seq<Op>, limit: nat): seq<nat> {
    if ops == [] then []
    else
      var n := |ops| - 1;
      Appends(ops[..n], limit)
      + (if ops[n].Add? && !Has(RunList(ops[..n], limit), ops[n].message.id) then [n] else [])
  }

  ghost predicate DistinctIds(list: seq<Message>) {
    forall i, j :: 0 <= i < j < |list| ==> list[i].id != list[j].id
  }

  /** The list holds the messages of these operations, in their order. */
  ghost predicate From(list: seq<Message>, at: seq<nat>, ops: seq<Op>) {
    && |at| == |list|
    && (forall i :: 0 <= i < |at| ==> at[i] < |ops| && ops[at[i]] == Add(list[i]))
    && (forall i, j :: 0 <= i < j < |at| ==> at[i] < at[j])
  }

  ghost predicate Held(list: seq<Message>, at: seq<nat>, ops: seq<Op>, appends: seq<nat>) {
    DistinctIds(list) && From(list, at, ops) && forall i :: 0 <= i < |at| ==> at[i] in appends
  }

  /** `rest` is the list without place i, the first of that id. */
  ghost predicate FirstOut(list: seq<Message>, id: string, i: int, rest: seq<Message>) {
    && 0 <= i < |list| && list[i].id == id && |rest| == |list| - 1
    && (forall j :: 0 <= j < i ==> list[j].id != id && rest[j] == list[j])
    && (forall j :: i <= j < |rest| ==> rest[j] == list[j + 1])
  }

  /** Removing takes out the first message of that id and nothing else, and the others keep their order; without
      one of that id nothing changes. */
  lemma RemovedExactly(list: seq<Message>, id: string)
    ensures var rest := Removed(list, id);
            && (Has(list, id) <==> exists m :: m in list && m.id == id)
            && (!Has(list, id) ==> rest == list)
            && (Has(list, id) ==> exists i :: FirstOut(list, id, i, rest))
    ensures DistinctIds(list) ==> forall m :: m in Removed(list, id) <==> m in list && m.id != id
  {
    var i, rest := Position(list, id), Removed(list, id);
    if i < |list| {
      assert list[i] in list;
      assert FirstOut(list, id, i, rest);
      if DistinctIds(list) {
        RemovedHas(list, id);
      }
    }
  }

  lemma RemovedHas(list: seq<Message>, id: string)
    requires DistinctIds(list) && Has(list, id)
    ensures forall m :: m in Removed(list, id) <==> m in list && m.id != id
  {
    var i := Position(list, id);
    var a, b := list[..i], list[i + 1..];
    assert list == a + [list[i]] + b;
    forall m
      ensures m in a + b <==> m in list && m.id != id
    {
      if m in list && m.id == id {
        var j :| 0 <= j < |list| && list[j] == m;
        assert j == i;
      }
      if m in a + b {
        NotWithin(list, i, m);
      }
    }
  }

  lemma NotWithin(list: seq<Message>, i: nat, m: Message)
    requires DistinctIds(list) && i < |list| && (m in list[..i] || m in list[i + 1..])
    ensures m.id != list[i].id
  {
    if m in list[..i] {
      var j :| 0 <= j < i && list[..i][j] == m;
    } else {
      var j :| 0 <= j < |list[i + 1..]| && list[i + 1..][j] == m;
      assert list[i + 1 + j] == m;
    }
  }

  /** Adding a cached id leaves the list; a new one becomes the last, and of those before it the oldest go until
      the limit is kept. */
  lemma AddedExactly(list: seq<Message>, m: Message, limit: nat)
    ensures var more := Added(list, m, limit);
            && ((exists x :: x in list && x.id == m.id) ==> more == list)
            && ((forall x :: x in list ==> x.id != m.id) ==>
                  && |more| == (if |list| + 1 <= limit then |list| + 1 else limit)
                  && (limit > 0 ==> more[|more| - 1] == m)
                  && forall j :: 0 <= j < |more| - 1 ==> more[j] == list[|list| + 1 - |more| + j])
  {
    RemovedExactly(list, m.id);
    var i := Position(list, m.id);
    if i < |list| {
      assert list[i] in list;
    }
  }

  lemma HeldSuffix(list: seq<Message>, at: seq<nat>, ops: seq<Op>, appends: seq<nat>, n: nat)
    requires Held(list, at, ops, appends)
    ensures Held(Last(list, n), Last(at, n), ops, appends)
  {
    var k := if |list| > n then |list| - n else 0;
    var list', at' := Last(list, n), Last(at, n);
    assert forall i :: 0 <= i < |list'| ==> list'[i] == list[k + i] && at'[i] == at[k + i];
  }

  lemma HeldWithout(list: seq<Message>, at: seq<nat>, ops: seq<Op>, appends: seq<nat>, i: nat)
    requires Held(list, at, ops, appends) && i < |list|
    ensures Held(list[..i] + list[i + 1..], at[..i] + at[i + 1..], ops, appends)
  {
  }

  lemma HeldMore(list: seq<Message>, at: seq<nat>, ops: seq<Op>, appends: seq<nat>, op: Op, more: seq<nat>)
    requires Held(list, at, ops, appends)
    ensures Held(list, at, ops + [op], appends + more)
  {
    forall i | 0 <= i < |at|
      ensures at[i] in appends + more && (ops + [op])[at[i]] == Add(list[i])
    {
    }
  }

  lemma HeldAppend(list: seq<Message>, at: seq<nat>, ops: seq<Op>, appends: seq<nat>, m: Message)
    requires Held(list, at, ops, appends) && !Has(list, m.id)
    ensures Held(list + [m], at + [|ops|], ops + [Add(m)], appends + [|ops|])
  {
    HeldMore(list, at, ops, appends, Add(m), [|ops|]);
    var list' := list + [m];
    forall i, j | 0 <= i < j < |list'|
      ensures list'[i].id != list'[j].id
    {
      assert forall k :: 0 <= k < |list| ==> list[k].id != m.id;
    }
  }

  /** At any moment of a run the cached messages have distinct ids, are at most the limit, and are those of
      some of the appending operations, in their order. */
  lemma {:induction false} RunBounded(ops: seq<Op>, limit: nat) returns (at: seq<nat>)
    ensures Held(RunList(ops, limit), at, ops, Appends(ops, limit)) && |RunList(ops, limit)| <= limit
  {
    at := [];
    if ops != [] {
      var n := |ops| - 1;
      at := RunBounded(ops[..n], limit);
      var list, appends := RunList(ops[..n], limit), Appends(ops[..n], limit);
      assert ops == ops[..n] + [ops[n]];
      match ops[n]
      case Add(m) =>
        if Has(list, m.id) {
          HeldMore(list, at, ops[..n], appends, ops[n], []);
        } else {
          HeldAppend(list, at, ops[..n], appends, m);
          HeldSuffix(list + [m], at + [n], ops, appends + [n], limit);
          at := Last(at + [n], limit);
        }
      case Remove(id) =>
        HeldMore(list, at, ops[..n], appends, ops[n], []);
        var i := Position(list, id);
        if i < |list| {
          HeldWithout(list, at, ops, appends, i);
          at := at[..i] + at[i + 1..];
        }
    }
  }

  lemma LastOfLast<T>(s: seq<T>, x: T, n: nat)
    ensures Last(Last(s, n) + [x], n) == Last(s + [x], n)
  {
  }

  lemma FromMore(list: seq<Message>, at: seq<nat>, ops: seq<Op>, n: nat)
    requires n == |ops| - 1 && From(list, at, ops[..n]) && ops[n].Add?
    ensures From(list, at, ops) && From(list + [ops[n].message], at + [n], ops)
  {
  }

  lemma FromLast(list: seq<Message>, at: seq<nat>, ops: seq<Op>, limit: nat)
    requires From(list, at, ops)
    ensures From(Last(list, limit), Last(at, limit), ops)
  {
  }

  lemma TailStep(list: seq<Message>, a: seq<nat>, ops: seq<Op>, n: nat, limit: nat)
    requires n == |ops| - 1 && From(list, Last(a, limit), ops[..n]) && ops[n].Add?
    ensures From(list, Last(a, limit), ops) && From(Last(list + [ops[n].message], limit), Last(a + [n], limit), ops)
  {
    FromMore(list, Last(a, limit), ops, n);
    FromLast(list + [ops[n].message], Last(a, limit) + [n], ops, limit);
    LastOfLast(a, n, limit);
  }

  lemma AddStep(ops: seq<Op>, n: nat, limit: nat)
    requires n == |ops| - 1 && ops[n].Add?
    ensures RunList(ops, limit) == Added(RunList(ops[..n], limit), ops[n].message, limit)
    ensures Appends(ops, limit)
            == Appends(ops[..n], limit) + (if Has(RunList(ops[..n], limit), ops[n].message.id) then [] else [n])
  {
  }

  /** Without removals they are exactly the last ones appended. */
  lemma {:induction false} WithoutRemovalsTheLast(ops: seq<Op>, limit: nat)
    requires forall i :: 0 <= i < |ops| ==> ops[i].Add?
    ensures From(RunList(ops, limit), Last(Appends(ops, limit), limit), ops)
  {
    if ops != [] {
      var n := |ops| - 1;
      WithoutRemovalsTheLast(ops[..n], limit);
      AddStep(ops, n, limit);
      var a := Appends(ops[..n], limit);
      TailStep(RunList(ops[..n], limit), a, ops, n, limit);
      assert a + [] == a;
    }
  }
}
