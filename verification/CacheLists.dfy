/** What the state cache holds (discordgo/structs.go), and its lists and indexes. A Go pointer to a struct is
    an object here, and the struct a value in its `data` field, so that `*g = *guild` is
    `g.data := guild.data`. Ids are kept beside the struct as constants: such a copy is only made between
    objects of the same id, which each method of the cache has to prove. */
module CacheLists {
  import opened Outcome
  import opened Messages

  datatype MemberData = MemberData(guildID: string, joinedAt: Option<int>, nick: string, roles: seq<string>)

  class Member {
    const user: string
    var data: MemberData
  }

  datatype ChannelData = ChannelData(guildID: string, kind: int, parentID: string, name: string, archived: Option<bool>,
                                     messages: Option<MessageList>, overwrites: Option<seq<string>>,
                                     member: Option<string>)

  /** `archived` is None when the channel has no thread metadata. */
  class Channel {
    const id: string
    var data: ChannelData
  }

  /** None stands for a nil slice. */
  datatype GuildData = GuildData(name: string, memberCount: int, roles: Option<seq<string>>,
                                 emojis: Option<seq<string>>, members: Option<seq<Member>>,
                                 presences: Option<seq<string>>, channels: Option<seq<Channel>>,
                                 threads: Option<seq<Channel>>, voiceStates: Option<seq<string>>)

  class Guild {
    const id: string
    var data: GuildData
  }

  type ChannelIndex = map<string, Channel>

  /** What ranging over a slice visits. */
  function Elems<T>(slice: Option<seq<T>>): seq<T> {
    if slice.Some? then slice.value else []
  }

  function Append<T>(slice: Option<seq<T>>, x: T): Option<seq<T>> {
    Some(Elems(slice) + [x])
  }

  const CHANNEL_TYPE_DM := 1
  const CHANNEL_TYPE_GROUP_DM := 3
  const CHANNEL_TYPE_GUILD_NEWS_THREAD := 10
  const CHANNEL_TYPE_GUILD_PUBLIC_THREAD := 11
  const CHANNEL_TYPE_GUILD_PRIVATE_THREAD := 12

  predicate IsDM(kind: int) {
    kind == CHANNEL_TYPE_DM || kind == CHANNEL_TYPE_GROUP_DM
  }

  predicate IsThread(kind: int) {
    kind == CHANNEL_TYPE_GUILD_PUBLIC_THREAD || kind == CHANNEL_TYPE_GUILD_PRIVATE_THREAD
        || kind == CHANNEL_TYPE_GUILD_NEWS_THREAD
  }

  /** The list a channel belongs to. Discord never moves a channel id to another one, which is stated here
      as one function from ids to homes for a whole run. */
  datatype Home = Private | InGuild(guild: string) | InThreads(guild: string)

  function HomeOf(d: ChannelData): Home {
    if IsDM(d.kind) then Private else if IsThread(d.kind) then InThreads(d.guildID) else InGuild(d.guildID)
  }

  /** Direct messages are kept apart, threads in their guild's threads, all else in its channels. */
  lemma HomesByKind(d: ChannelData)
    ensures HomeOf(d) == Private <==> d.kind in {1, 3}
    ensures HomeOf(d) == InThreads(d.guildID) <==> d.kind in {10, 11, 12}
    ensures HomeOf(d) == InGuild(d.guildID) <==> d.kind !in {1, 3, 10, 11, 12}
  {
  }

  // ---- lists ----

  ghost predicate DistinctChannels(list: seq<Channel>) {
    forall i, j :: 0 <= i < j < |list| ==> list[i].id != list[j].id
  }

  ghost predicate DistinctMembers(list: seq<Member>) {
    forall i, j :: 0 <= i < j < |list| ==> list[i].user != list[j].user
  }

  ghost predicate DistinctGuilds(list: seq<Guild>) {
    forall i, j :: 0 <= i < j < |list| ==> list[i].id != list[j].id
  }

  /** A list of channels that belong there. */
  ghost predicate Placed(list: seq<Channel>, home: string -> Home, h: Home) {
    DistinctChannels(list) && forall c :: c in list ==> home(c.id) == h
  }

  ghost predicate HasChannelId(list: seq<Channel>, id: string) {
    exists c :: c in list && c.id == id
  }

  /** Where an id stands first, or the length. */
  function At(ids: seq<string>, id: string): (i: nat)
    ensures i <= |ids| && (i < |ids| ==> ids[i] == id)
    ensures forall j :: 0 <= j < i ==> ids[j] != id
  {
    if ids == [] || ids[0] == id then 0 else 1 + At(ids[1..], id)
  }

  function ChannelIds(list: seq<Channel>): (ids: seq<string>)
    ensures |ids| == |list| && forall i :: 0 <= i < |list| ==> ids[i] == list[i].id
  {
    seq(|list|, i requires 0 <= i < |list| => list[i].id)
  }

  function ChannelAt(list: seq<Channel>, id: string): (i: nat)
    ensures i <= |list| && (i < |list| ==> list[i].id == id)
    ensures forall j :: 0 <= j < i ==> list[j].id != id
  {
    At(ChannelIds(list), id)
  }

  function MemberIds(list: seq<Member>): (ids: seq<string>)
    ensures |ids| == |list| && forall i :: 0 <= i < |list| ==> ids[i] == list[i].user
  {
    seq(|list|, i requires 0 <= i < |list| => list[i].user)
  }

  function MemberAt(list: seq<Member>, id: string): (i: nat)
    ensures i <= |list| && (i < |list| ==> list[i].user == id)
    ensures forall j :: 0 <= j < i ==> list[j].user != id
  {
    At(MemberIds(list), id)
  }

  function GuildIds(list: seq<Guild>): (ids: seq<string>)
    ensures |ids| == |list| && forall i :: 0 <= i < |list| ==> ids[i] == list[i].id
  {
    seq(|list|, i requires 0 <= i < |list| => list[i].id)
  }

  function GuildAt(list: seq<Guild>, id: string): (i: nat)
    ensures i <= |list| && (i < |list| ==> list[i].id == id)
    ensures forall j :: 0 <= j < i ==> list[j].id != id
  {
    At(GuildIds(list), id)
  }

  /** `append(s[:i], s[i+1:]...)`. */
  function Cut<T>(s: seq<T>, i: nat): seq<T> {
    if i < |s| then s[..i] + s[i + 1..] else s
  }

  // ---- lists and their index ----

  ghost predicate ChannelsIndexed(list: seq<Channel>, m: ChannelIndex) {
    forall c :: c in list ==> c.id in m && m[c.id] == c
  }

  ghost predicate MembersIndexed(list: seq<Member>, m: map<string, Member>) {
    forall x :: x in list ==> x.user in m && m[x.user] == x
  }

  /** The index after every channel of a list of distinct ids has been entered. */
  ghost predicate Entered(m: ChannelIndex, list: seq<Channel>, m': ChannelIndex) {
    && ChannelsIndexed(list, m')
    && (forall k :: k in m && !HasChannelId(list, k) ==> k in m' && m'[k] == m[k])
    && (forall k :: k in m' ==> k in m || HasChannelId(list, k))
  }

  /** The index of just these members. */
  ghost predicate IndexOf(list: seq<Member>, m: map<string, Member>) {
    MembersIndexed(list, m) && forall u :: u in m ==> m[u].user == u && m[u] in list
  }

  method EnterChannels(m: ChannelIndex, list: seq<Channel>) returns (m': ChannelIndex)
    requires DistinctChannels(list)
    ensures Entered(m, list, m')
  {
    m' := m;
    for i := 0 to |list|
      invariant Entered(m, list[..i], m')
    {
      ghost var before := m';
      m' := m'[list[i].id := list[i]];
      EnterOne(m, list, i, before);
    }
    assert list[..|list|] == list;
  }

  lemma HasAppend(list: seq<Channel>, c: Channel, k: string)
    ensures HasChannelId(list + [c], k) <==> HasChannelId(list, k) || k == c.id
  {
    assert c in list + [c];
    if HasChannelId(list, k) {
      var x :| x in list && x.id == k;
      assert x in list + [c];
    }
  }

  lemma EnterOne(m: ChannelIndex, list: seq<Channel>, i: nat, before: ChannelIndex)
    requires i < |list| && DistinctChannels(list) && Entered(m, list[..i], before)
    ensures Entered(m, list[..i + 1], before[list[i].id := list[i]])
  {
    var c := list[i];
    assert list[..i + 1] == list[..i] + [c];
    assert forall x :: x in list[..i + 1] <==> x in list[..i] || x == c;
    forall k
      ensures HasChannelId(list[..i + 1], k) <==> HasChannelId(list[..i], k) || k == c.id
    {
      HasAppend(list[..i], c, k);
    }
    forall x | x in list[..i]
      ensures x.id != c.id
    {
      var j :| 0 <= j < i && list[j] == x;
    }
  }

  method IndexMembers(list: seq<Member>) returns (m: map<string, Member>)
    requires DistinctMembers(list)
    ensures IndexOf(list, m)
  {
    m := map[];
    for i := 0 to |list|
      invariant IndexOf(list[..i], m)
    {
      assert list[..i + 1] == list[..i] + [list[i]];
      forall x | x in list[..i]
        ensures x.user != list[i].user
      {
        var j :| 0 <= j < i && list[j] == x;
      }
      m := m[list[i].user := list[i]];
    }
    assert list[..|list|] == list;
  }

  lemma EnterTwice(cm: ChannelIndex, a: seq<Channel>, cm1: ChannelIndex, b: seq<Channel>, cm2: ChannelIndex)
    requires Entered(cm, a, cm1) && Entered(cm1, b, cm2)
    requires forall x, y :: x in a && y in b ==> x.id != y.id
    ensures Entered(cm, a + b, cm2)
  {
    forall k
      ensures HasChannelId(a + b, k) <==> HasChannelId(a, k) || HasChannelId(b, k)
    {
      assert forall c :: c in a + b <==> c in a || c in b;
    }
    assert forall c :: c in a + b <==> c in a || c in b;
    assert forall c :: c in a ==> HasChannelId(a, c.id);
    forall c | c in a
      ensures c.id in cm2 && cm2[c.id] == c
    {
      assert !HasChannelId(b, c.id);
    }
  }

  method EnterLists(cm: ChannelIndex, channels: seq<Channel>, threads: seq<Channel>) returns (cm': ChannelIndex)
    requires DistinctChannels(channels) && DistinctChannels(threads)
    requires forall x, y :: x in channels && y in threads ==> x.id != y.id
    ensures Entered(cm, channels + threads, cm')
  {
    var cm1 := EnterChannels(cm, channels);
    cm' := EnterChannels(cm1, threads);
    EnterTwice(cm, channels, cm1, threads, cm');
  }

  lemma EnteredKeys(cm: ChannelIndex, list: seq<Channel>, cm': ChannelIndex)
    requires Entered(cm, list, cm') && forall k :: k in cm ==> cm[k].id == k
    ensures forall k :: k in cm' ==> cm'[k].id == k
  {
    forall k | k in cm'
      ensures cm'[k].id == k
    {
      if HasChannelId(list, k) {
        var c :| c in list && c.id == k;
      }
    }
  }

  ghost predicate GuildsIndexed(list: seq<Guild>, gm: map<string, Guild>) {
    DistinctGuilds(list) && forall g :: g in list ==> g.id in gm && gm[g.id] == g
  }

  // ---- taking out and appending ----

  /** The loop that looks for an id in a list. */
  method Find(ids: seq<string>, id: string) returns (i: nat)
    ensures i == At(ids, id)
  {
    i := 0;
    while i < |ids| && ids[i] != id
      invariant i <= |ids| && forall j :: 0 <= j < i ==> ids[j] != id
    {
      i := i + 1;
    }
  }

  lemma CutHas<T>(s: seq<T>, i: nat, x: T)
    requires i < |s| && forall j :: 0 <= j < |s| && j != i ==> s[j] != s[i]
    ensures x in Cut(s, i) <==> x in s && x != s[i]
  {
    assert s == s[..i] + [s[i]] + s[i + 1..];
  }

  lemma CutDistinctChannels(list: seq<Channel>, id: string)
    requires DistinctChannels(list)
    ensures var rest := Cut(list, ChannelAt(list, id));
            DistinctChannels(rest) && forall c :: c in rest <==> c in list && c.id != id
  {
    var i := ChannelAt(list, id);
    if i < |list| {
      forall c
        ensures c in Cut(list, i) <==> c in list && c != list[i]
      {
        CutHas(list, i, c);
      }
      forall c | c in list && c != list[i]
        ensures c.id != id
      {
        var j :| 0 <= j < |list| && list[j] == c;
      }
    }
  }

  lemma CutDistinctMembers(list: seq<Member>, id: string)
    requires DistinctMembers(list)
    ensures var rest := Cut(list, MemberAt(list, id));
            DistinctMembers(rest) && forall m :: m in rest <==> m in list && m.user != id
  {
    var i := MemberAt(list, id);
    if i < |list| {
      forall m
        ensures m in Cut(list, i) <==> m in list && m != list[i]
      {
        CutHas(list, i, m);
      }
      forall m | m in list && m != list[i]
        ensures m.user != id
      {
        var j :| 0 <= j < |list| && list[j] == m;
      }
    }
  }

  lemma CutDistinctGuilds(list: seq<Guild>, id: string)
    requires DistinctGuilds(list)
    ensures var rest := Cut(list, GuildAt(list, id));
            DistinctGuilds(rest) && forall g :: g in rest <==> g in list && g.id != id
  {
    var i := GuildAt(list, id);
    if i < |list| {
      forall g
        ensures g in Cut(list, i) <==> g in list && g != list[i]
      {
        CutHas(list, i, g);
      }
      forall g | g in list && g != list[i]
        ensures g.id != id
      {
        var j :| 0 <= j < |list| && list[j] == g;
      }
    }
  }

  lemma AppendPlaced(list: seq<Channel>, home: string -> Home, h: Home, c: Channel)
    requires Placed(list, home, h) && home(c.id) == h && forall x :: x in list ==> x.id != c.id
    ensures Placed(list + [c], home, h)
  {
    var all := list + [c];
    forall i, j | 0 <= i < j < |all|
      ensures all[i].id != all[j].id
    {
      assert list[i] in list;
    }
  }

  lemma AppendDistinctMembers(list: seq<Member>, m: Member)
    requires DistinctMembers(list) && forall x :: x in list ==> x.user != m.user
    ensures DistinctMembers(list + [m])
  {
    var all := list + [m];
    forall i, j | 0 <= i < j < |all|
      ensures all[i].user != all[j].user
    {
      assert list[i] in list;
    }
  }

  lemma AppendIndexed(guilds: seq<Guild>, gm: map<string, Guild>, g: Guild)
    requires GuildsIndexed(guilds, gm) && g.id !in gm
    ensures GuildsIndexed(guilds + [g], gm[g.id := g])
  {
    var all := guilds + [g];
    forall i, j | 0 <= i < j < |all|
      ensures all[i].id != all[j].id
    {
      assert guilds[i] in guilds;
    }
  }
}
