/** The cache's content as one value, its invariant, and what each step does to it. */
module CacheView {
  import opened Outcome
  import opened Messages
  import opened CacheLists

  type Homes = string -> Home
  type MemberIndexes = map<string, map<string, Member>>

  /** The lists, the three maps, and under `structs` what the guilds of the guild map point to. */
  datatype View = View(guilds: seq<Guild>, private: seq<Channel>, guildMap: map<string, Guild>,
                       structs: map<string, GuildData>, channelMap: ChannelIndex, memberMap: MemberIndexes)

  // ---- the invariant ----

  ghost predicate KeysMatch(v: View) {
    && v.structs.Keys == v.guildMap.Keys
    && (forall k :: k in v.guildMap ==> v.guildMap[k].id == k)
    && (forall k :: k in v.channelMap ==> v.channelMap[k].id == k)
    && (forall k, u :: k in v.memberMap && u in v.memberMap[k] ==> v.memberMap[k][u].user == u)
  }

  /** The lists of a guild: channels and threads at home there and found through the index, members found
      through the guild's own index. */
  ghost predicate DataOk(id: string, d: GuildData, cm: ChannelIndex, mm: MemberIndexes, home: Homes) {
    && Placed(Elems(d.channels), home, InGuild(id)) && ChannelsIndexed(Elems(d.channels), cm)
    && Placed(Elems(d.threads), home, InThreads(id)) && ChannelsIndexed(Elems(d.threads), cm)
    && DistinctMembers(Elems(d.members)) && id in mm && MembersIndexed(Elems(d.members), mm[id])
  }

  ghost predicate GuildsOk(guilds: seq<Guild>, ds: map<string, GuildData>, cm: ChannelIndex, mm: MemberIndexes,
                           home: Homes) {
    forall g :: g in guilds ==> g.id in ds && DataOk(g.id, ds[g.id], cm, mm, home)
  }

  /** What a cached guild lists belongs there, whether or not the guild itself is still listed. */
  ghost predicate AtHome(ds: map<string, GuildData>, home: Homes) {
    && (forall k, c :: k in ds && c in Elems(ds[k].channels) ==> home(c.id) == InGuild(k))
    && (forall k, c :: k in ds && c in Elems(ds[k].threads) ==> home(c.id) == InThreads(k))
  }

  /** Whatever is listed is found through the index, as the very same object. */
  ghost predicate Indexed(v: View, home: Homes) {
    && KeysMatch(v) && AtHome(v.structs, home)
    && GuildsIndexed(v.guilds, v.guildMap)
    && Placed(v.private, home, Private) && ChannelsIndexed(v.private, v.channelMap)
    && GuildsOk(v.guilds, v.structs, v.channelMap, v.memberMap, home)
  }

  /** An indexed channel is in the list it belongs to. */
  ghost predicate ChannelListed(c: Channel, h: Home, private: seq<Channel>, ds: map<string, GuildData>) {
    match h
    case Private => c in private
    case InGuild(g) => g in ds && c in Elems(ds[g].channels)
    case InThreads(g) => g in ds && c in Elems(ds[g].threads)
  }

  ghost predicate ChannelsListed(private: seq<Channel>, ds: map<string, GuildData>, cm: ChannelIndex, home: Homes) {
    forall k :: k in cm ==> ChannelListed(cm[k], home(k), private, ds)
  }

  ghost predicate MembersListed(ds: map<string, GuildData>, mm: MemberIndexes) {
    forall g, u :: g in mm && u in mm[g] ==> g in ds && mm[g][u] in Elems(ds[g].members)
  }

  /** Whatever is found through the index is listed. */
  ghost predicate Exact(v: View, home: Homes) {
    && (forall k :: k in v.guildMap ==> v.guildMap[k] in v.guilds)
    && ChannelsListed(v.private, v.structs, v.channelMap, home)
    && MembersListed(v.structs, v.memberMap)
  }

  // ---- what the invariant is for: searching the lists ----

  /** Every channel and thread listed: the private ones, then guild by guild. */
  ghost function AllChannels(v: View): seq<Channel>
    requires forall g :: g in v.guilds ==> g.id in v.structs
  {
    v.private + GuildChannels(v.guilds, v.structs)
  }

  ghost function GuildChannels(guilds: seq<Guild>, ds: map<string, GuildData>): seq<Channel>
    requires forall g :: g in guilds ==> g.id in ds
  {
    if guilds == [] then []
    else
      assert guilds[0] in guilds;
      Elems(ds[guilds[0].id].channels) + Elems(ds[guilds[0].id].threads) + GuildChannels(guilds[1..], ds)
  }

  lemma {:induction false} InGuildChannels(guilds: seq<Guild>, ds: map<string, GuildData>, c: Channel)
    requires forall g :: g in guilds ==> g.id in ds
    ensures c in GuildChannels(guilds, ds)
            <==> exists g :: g in guilds && (c in Elems(ds[g.id].channels) || c in Elems(ds[g.id].threads))
  {
    if guilds != [] {
      assert guilds == [guilds[0]] + guilds[1..];
      InGuildChannels(guilds[1..], ds, c);
    }
  }

  /** The first match of a linear search, if any. */
  ghost function SearchChannel(list: seq<Channel>, id: string): Option<Channel> {
    var i := ChannelAt(list, id);
    if i < |list| then Some(list[i]) else None
  }

  ghost function SearchGuild(list: seq<Guild>, id: string): Option<Guild> {
    var i := GuildAt(list, id);
    if i < |list| then Some(list[i]) else None
  }

  ghost function SearchMember(list: seq<Member>, user: string): Option<Member> {
    var i := MemberAt(list, user);
    if i < |list| then Some(list[i]) else None
  }

  function Lookup<T>(m: map<string, T>, k: string): Option<T> {
    if k in m then Some(m[k]) else None
  }

  /** Whatever channel or thread a search of the lists finds, the index gives the same object; if the index
      is exact the two always agree. */
  lemma ChannelSearchAgrees(v: View, home: Homes, id: string)
    requires Indexed(v, home)
    ensures SearchChannel(AllChannels(v), id).Some? ==> Lookup(v.channelMap, id) == SearchChannel(AllChannels(v), id)
    ensures Exact(v, home) ==> Lookup(v.channelMap, id) == SearchChannel(AllChannels(v), id)
  {
    var all := AllChannels(v);
    var i := ChannelAt(all, id);
    if i < |all| {
      assert all[i] in all;
      InGuildChannels(v.guilds, v.structs, all[i]);
    }
    if Exact(v, home) && id in v.channelMap {
      var c := v.channelMap[id];
      assert ChannelListed(c, home(id), v.private, v.structs);
      ListedIsSearched(v, home, c);
      var j :| 0 <= j < |all| && all[j] == c;
    }
  }

  lemma ListedIsSearched(v: View, home: Homes, c: Channel)
    requires Indexed(v, home) && Exact(v, home) && c.id in v.channelMap && v.channelMap[c.id] == c
    ensures c in AllChannels(v)
  {
    assert ChannelListed(c, home(c.id), v.private, v.structs);
    InGuildChannels(v.guilds, v.structs, c);
    match home(c.id)
    case Private =>
    case InGuild(g) => assert v.guildMap[g] in v.guilds;
    case InThreads(g) => assert v.guildMap[g] in v.guilds;
  }

  lemma GuildSearchAgrees(v: View, home: Homes, id: string)
    requires Indexed(v, home)
    ensures SearchGuild(v.guilds, id).Some? ==> Lookup(v.guildMap, id) == SearchGuild(v.guilds, id)
    ensures Exact(v, home) ==> Lookup(v.guildMap, id) == SearchGuild(v.guilds, id)
  {
    var i := GuildAt(v.guilds, id);
    if i < |v.guilds| {
      assert v.guilds[i] in v.guilds;
    }
    if Exact(v, home) && id in v.guildMap {
      var j :| 0 <= j < |v.guilds| && v.guilds[j] == v.guildMap[id];
    }
  }

  lemma MemberSearchAgrees(v: View, home: Homes, g: Guild, user: string)
    requires Indexed(v, home) && g in v.guilds
    ensures var found := SearchMember(Elems(v.structs[g.id].members), user);
            && (found.Some? ==> Lookup(v.memberMap[g.id], user) == found)
            && (Exact(v, home) ==> Lookup(v.memberMap[g.id], user) == found)
  {
    var list := Elems(v.structs[g.id].members);
    var i := MemberAt(list, user);
    if i < |list| {
      assert list[i] in list;
    }
    if Exact(v, home) && user in v.memberMap[g.id] {
      var j :| 0 <= j < |list| && list[j] == v.memberMap[g.id][user];
    }
  }

  // ---- GuildAdd ----

  /** What a guild event brings: its lists name distinct channels that belong there, and distinct members. */
  ghost predicate GuildEvent(id: string, d: GuildData, home: Homes) {
    && Placed(Elems(d.channels), home, InGuild(id)) && Placed(Elems(d.threads), home, InThreads(id))
    && DistinctMembers(Elems(d.members))
  }

  /** What `*g = *guild` writes: the fields the event does not carry are taken from the cached guild. */
  function Preserve(update: GuildData, present: GuildData): GuildData {
    update.(memberCount := if update.memberCount == 0 then present.memberCount else update.memberCount,
            roles := Later(update.roles, present.roles),
            emojis := Later(update.emojis, present.emojis),
            members := Later(update.members, present.members),
            presences := Later(update.presences, present.presences),
            channels := Later(update.channels, present.channels),
            threads := Later(update.threads, present.threads),
            voiceStates := Later(update.voiceStates, present.voiceStates))
  }

  /** What a guild keeps through an event: each field the event lacks has its old value, each it carries the
      event's. */
  ghost predicate Survives(before: GuildData, event: GuildData, after: GuildData) {
    && after.name == event.name
    && (event.memberCount == 0 ==> after.memberCount == before.memberCount)
    && (event.memberCount != 0 ==> after.memberCount == event.memberCount)
    && Taken(before.roles, event.roles, after.roles)
    && Taken(before.emojis, event.emojis, after.emojis)
    && Taken(before.members, event.members, after.members)
    && Taken(before.presences, event.presences, after.presences)
    && Taken(before.channels, event.channels, after.channels)
    && Taken(before.threads, event.threads, after.threads)
    && Taken(before.voiceStates, event.voiceStates, after.voiceStates)
  }

  /** The members' indexes after those of a guild event have been entered: a new list gets a new index, none
      at all leaves the old one. */
  ghost predicate MembersEntered(id: string, members: Option<seq<Member>>, mm: MemberIndexes, mm': MemberIndexes) {
    && id in mm' && (forall k :: k in mm ==> k in mm') && (forall k :: k in mm' ==> k == id || k in mm)
    && (forall k :: k in mm && k != id ==> mm'[k] == mm[k])
    && (if members.Some? then IndexOf(members.value, mm'[id]) else mm'[id] == if id in mm then mm[id] else map[])
  }

  /** The maps after the lists of a guild event have been entered. */
  ghost predicate GuildEntered(id: string, d: GuildData, cm: ChannelIndex, mm: MemberIndexes, cm': ChannelIndex,
                               mm': MemberIndexes) {
    Entered(cm, Elems(d.channels) + Elems(d.threads), cm') && MembersEntered(id, d.members, mm, mm')
  }

  /** The cache after a guild event: a cached guild is overwritten in place, another one appended. */
  ghost predicate GuildAdded(v: View, guild: Guild, d: GuildData, v': View)
    requires guild.id in v.guildMap ==> guild.id in v.structs
  {
    && GuildEntered(guild.id, d, v.channelMap, v.memberMap, v'.channelMap, v'.memberMap)
    && v'.private == v.private
    && (if guild.id in v.guildMap then
          v'.guilds == v.guilds && v'.guildMap == v.guildMap
              && v'.structs == v.structs[guild.id := Preserve(d, v.structs[guild.id])]
        else
          v'.guilds == v.guilds + [guild] && v'.guildMap == v.guildMap[guild.id := guild]
              && v'.structs == v.structs[guild.id := d])
  }

  /** A guild keeps its index when other channels are entered or removed and its members' index stays. */
  lemma DataKept(id: string, d: GuildData, cm: ChannelIndex, mm: MemberIndexes, home: Homes, cm': ChannelIndex,
                 mm': MemberIndexes)
    requires DataOk(id, d, cm, mm, home) && id in mm' && mm'[id] == mm[id]
    requires forall k :: k in cm && (home(k) == InGuild(id) || home(k) == InThreads(id)) ==> k in cm' && cm'[k] == cm[k]
    ensures DataOk(id, d, cm', mm', home)
  {
  }

  lemma EventOk(id: string, d: GuildData, cm: ChannelIndex, mm: MemberIndexes, home: Homes, cm': ChannelIndex,
                mm': MemberIndexes)
    requires GuildEvent(id, d, home) && GuildEntered(id, d, cm, mm, cm', mm')
    ensures DataOk(id, d, cm', mm', home)
  {
    var all := Elems(d.channels) + Elems(d.threads);
    assert forall c :: c in all <==> c in Elems(d.channels) || c in Elems(d.threads);
  }

  /** The event's lists and those kept from the cached guild are both in the new index. */
  lemma MergedOk(id: string, d: GuildData, present: GuildData, cm: ChannelIndex, mm: MemberIndexes, home: Homes,
                 cm': ChannelIndex, mm': MemberIndexes)
    requires GuildEvent(id, d, home) && GuildEntered(id, d, cm, mm, cm', mm') && DataOk(id, present, cm, mm, home)
    ensures DataOk(id, Preserve(d, present), cm', mm', home)
  {
    EventOk(id, d, cm, mm, home, cm', mm');
    var all := Elems(d.channels) + Elems(d.threads);
    assert forall c :: c in all <==> c in Elems(d.channels) || c in Elems(d.threads);
    if d.channels.None? {
      forall c | c in Elems(present.channels)
        ensures c.id in cm' && cm'[c.id] == c
      {
        assert home(c.id) == InGuild(id);
        assert !HasChannelId(all, c.id);
      }
    }
    if d.threads.None? {
      forall c | c in Elems(present.threads)
        ensures c.id in cm' && cm'[c.id] == c
      {
        assert home(c.id) == InThreads(id);
        assert !HasChannelId(all, c.id);
      }
    }
  }

  /** Channels of other homes keep their entry while a guild event is entered. */
  lemma OthersKept(id: string, d: GuildData, cm: ChannelIndex, home: Homes, cm': ChannelIndex)
    requires GuildEvent(id, d, home) && Entered(cm, Elems(d.channels) + Elems(d.threads), cm')
    ensures forall k :: k in cm && home(k) != InGuild(id) && home(k) != InThreads(id) ==> k in cm' && cm'[k] == cm[k]
  {
    var all := Elems(d.channels) + Elems(d.threads);
    assert forall c :: c in all <==> c in Elems(d.channels) || c in Elems(d.threads);
  }

  lemma OtherGuildsOk(guilds: seq<Guild>, ds: map<string, GuildData>, id: string, d: GuildData, cm: ChannelIndex,
                      mm: MemberIndexes, home: Homes, cm': ChannelIndex, mm': MemberIndexes)
    requires GuildEvent(id, d, home) && GuildEntered(id, d, cm, mm, cm', mm') && GuildsOk(guilds, ds, cm, mm, home)
    ensures forall g :: g in guilds && g.id != id ==> DataOk(g.id, ds[g.id], cm', mm', home)
  {
    OthersKept(id, d, cm, home, cm');
    forall g | g in guilds && g.id != id
      ensures DataOk(g.id, ds[g.id], cm', mm', home)
    {
      DataKept(g.id, ds[g.id], cm, mm, home, cm', mm');
    }
  }

  lemma GuildAddKeys(v: View, guild: Guild, d: GuildData, v': View)
    requires KeysMatch(v) && GuildAdded(v, guild, d, v')
    ensures KeysMatch(v')
  {
    EnteredKeys(v.channelMap, Elems(d.channels) + Elems(d.threads), v'.channelMap);
  }

  lemma GuildAddKeepsIndexed(v: View, home: Homes, guild: Guild, d: GuildData, v': View)
    requires Indexed(v, home) && GuildEvent(guild.id, d, home) && GuildAdded(v, guild, d, v')
    ensures Indexed(v', home)
  {
    var id, cm, mm, cm', mm' := guild.id, v.channelMap, v.memberMap, v'.channelMap, v'.memberMap;
    GuildAddKeys(v, guild, d, v');
    OtherGuildsOk(v.guilds, v.structs, id, d, cm, mm, home, cm', mm');
    OthersKept(id, d, cm, home, cm');
    EventOk(id, d, cm, mm, home, cm', mm');
    forall g | g in v'.guilds
      ensures g.id in v'.structs && DataOk(g.id, v'.structs[g.id], cm', mm', home)
    {
      if g.id == id && g in v.guilds {
        MergedOk(id, d, v.structs[id], cm, mm, home, cm', mm');
      }
    }
    if id !in v.guildMap {
      AppendIndexed(v.guilds, v.guildMap, guild);
    }
  }

  lemma ChannelsStayListed(private: seq<Channel>, ds: map<string, GuildData>, cm: ChannelIndex, home: Homes, id: string,
                           d: GuildData, cm': ChannelIndex)
    requires ChannelsListed(private, ds, cm, home) && id !in ds && GuildEvent(id, d, home)
    requires Entered(cm, Elems(d.channels) + Elems(d.threads), cm')
    ensures ChannelsListed(private, ds[id := d], cm', home)
  {
    var ds', all := ds[id := d], Elems(d.channels) + Elems(d.threads);
    assert forall c :: c in all <==> c in Elems(d.channels) || c in Elems(d.threads);
    forall k | k in cm'
      ensures ChannelListed(cm'[k], home(k), private, ds')
    {
      if HasChannelId(all, k) {
        var c :| c in all && c.id == k;
      } else {
        assert ChannelListed(cm[k], home(k), private, ds);
      }
    }
  }

  /** A guild that was not cached brings its own index entries with it. */
  lemma GuildAddKeepsExact(v: View, home: Homes, guild: Guild, d: GuildData, v': View)
    requires Indexed(v, home) && Exact(v, home) && GuildEvent(guild.id, d, home) && GuildAdded(v, guild, d, v')
    requires guild.id !in v.guildMap
    ensures Exact(v', home)
  {
    ChannelsStayListed(v.private, v.structs, v.channelMap, home, guild.id, d, v'.channelMap);
  }

  // ---- GuildRemove ----

  function GuildDropped(v: View, id: string): View {
    v.(guildMap := v.guildMap - {id}, structs := v.structs - {id}, guilds := Cut(v.guilds, GuildAt(v.guilds, id)))
  }

  lemma GuildDropKeepsIndexed(v: View, home: Homes, id: string)
    requires Indexed(v, home)
    ensures Indexed(GuildDropped(v, id), home)
  {
    CutDistinctGuilds(v.guilds, id);
    var v' := GuildDropped(v, id);
    assert KeysMatch(v') && AtHome(v'.structs, home) && GuildsIndexed(v'.guilds, v'.guildMap);
  }

  predicate BareGuild(d: GuildData) {
    Elems(d.channels) == [] && Elems(d.threads) == [] && Elems(d.members) == []
  }

  lemma BareDropChannels(v: View, home: Homes, id: string)
    requires ChannelsListed(v.private, v.structs, v.channelMap, home) && id in v.structs && BareGuild(v.structs[id])
    ensures ChannelsListed(v.private, v.structs - {id}, v.channelMap, home)
  {
    forall k | k in v.channelMap
      ensures ChannelListed(v.channelMap[k], home(k), v.private, v.structs - {id})
    {
      assert ChannelListed(v.channelMap[k], home(k), v.private, v.structs);
    }
  }

  lemma BareDropMembers(ds: map<string, GuildData>, mm: MemberIndexes, id: string)
    requires MembersListed(ds, mm) && id in ds && BareGuild(ds[id])
    ensures MembersListed(ds - {id}, mm)
  {
  }

  lemma BareDropKeepsExact(v: View, home: Homes, id: string)
    requires Indexed(v, home) && Exact(v, home) && id in v.guildMap && BareGuild(v.structs[id])
    ensures Exact(GuildDropped(v, id), home)
  {
    CutDistinctGuilds(v.guilds, id);
    BareDropChannels(v, home, id);
    BareDropMembers(v.structs, v.memberMap, id);
  }

  lemma DropLeavesStale(v: View, home: Homes, id: string)
    requires Indexed(v, home) && id in v.guildMap && v.guildMap[id] in v.guilds && !BareGuild(v.structs[id])
    ensures !Exact(GuildDropped(v, id), home)
  {
    var d, v' := v.structs[id], GuildDropped(v, id);
    if Elems(d.channels) != [] {
      var c := Elems(d.channels)[0];
      assert c in Elems(d.channels) && home(c.id) == InGuild(id);
      assert !ChannelListed(c, home(c.id), v'.private, v'.structs);
    } else if Elems(d.threads) != [] {
      var c := Elems(d.threads)[0];
      assert c in Elems(d.threads) && home(c.id) == InThreads(id);
      assert !ChannelListed(c, home(c.id), v'.private, v'.structs);
    } else {
      var m := Elems(d.members)[0];
      assert m in Elems(d.members) && m.user in v.memberMap[id];
    }
  }

  /** GuildRemove leaves the entries of the guild's channels, threads and members behind: the index stays
      exact only if the guild has none. */
  lemma GuildDropExactly(v: View, home: Homes, id: string)
    requires Indexed(v, home) && Exact(v, home) && id in v.guildMap
    ensures Exact(GuildDropped(v, id), home) <==> BareGuild(v.structs[id])
  {
    if BareGuild(v.structs[id]) {
      BareDropKeepsExact(v, home, id);
    } else {
      DropLeavesStale(v, home, id);
    }
  }

  // ---- members ----

  /** A new member at the end of a guild's list. */
  function MemberPut(v: View, id: string, m: Member): View
    requires id in v.structs && id in v.memberMap
  {
    v.(structs := v.structs[id := v.structs[id].(members := Append(v.structs[id].members, m))],
       memberMap := v.memberMap[id := v.memberMap[id][m.user := m]])
  }

  lemma MemberPutOk(id: string, d: GuildData, cm: ChannelIndex, mm: MemberIndexes, home: Homes, m: Member)
    requires DataOk(id, d, cm, mm, home) && m.user !in mm[id]
    ensures DataOk(id, d.(members := Append(d.members, m)), cm, mm[id := mm[id][m.user := m]], home)
  {
    AppendDistinctMembers(Elems(d.members), m);
  }

  lemma MemberPutKeepsIndexed(v: View, home: Homes, id: string, m: Member)
    requires Indexed(v, home) && id in v.guildMap && id in v.memberMap && m.user !in v.memberMap[id]
    ensures Indexed(MemberPut(v, id, m), home)
  {
    var v' := MemberPut(v, id, m);
    forall g | g in v.guilds
      ensures g.id in v'.structs && DataOk(g.id, v'.structs[g.id], v'.channelMap, v'.memberMap, home)
    {
      if g.id == id {
        MemberPutOk(id, v.structs[id], v.channelMap, v.memberMap, home, m);
      } else {
        DataKept(g.id, v.structs[g.id], v.channelMap, v.memberMap, home, v'.channelMap, v'.memberMap);
      }
    }
  }

  lemma MemberPutKeepsExact(v: View, home: Homes, id: string, m: Member)
    requires Exact(v, home) && id in v.structs && id in v.memberMap
    ensures Exact(MemberPut(v, id, m), home)
  {
    OnlyMembersChanged(v, home, MemberPut(v, id, m), id);
    MemberPutListed(v.structs, v.memberMap, id, m);
  }

  /** Channels stay listed when a guild's struct changes in its members only. */
  lemma OnlyMembersChanged(v: View, home: Homes, v': View, id: string)
    requires id in v.structs && v'.private == v.private && v'.channelMap == v.channelMap
    requires v'.structs.Keys == v.structs.Keys
    requires forall g :: g in v.structs ==>
              v'.structs[g].channels == v.structs[g].channels && v'.structs[g].threads == v.structs[g].threads
    ensures ChannelsListed(v.private, v.structs, v.channelMap, home) ==>
            ChannelsListed(v'.private, v'.structs, v'.channelMap, home)
  {
    if ChannelsListed(v.private, v.structs, v.channelMap, home) {
      forall k | k in v.channelMap
        ensures ChannelListed(v.channelMap[k], home(k), v'.private, v'.structs)
      {
        assert ChannelListed(v.channelMap[k], home(k), v.private, v.structs);
      }
    }
  }

  lemma MemberPutListed(ds: map<string, GuildData>, mm: MemberIndexes, id: string, m: Member)
    requires MembersListed(ds, mm) && id in ds && id in mm
    ensures MembersListed(ds[id := ds[id].(members := Append(ds[id].members, m))], mm[id := mm[id][m.user := m]])
  {
  }

  /** One member taken out of the index and out of the guild's list. */
  function MemberDropped(v: View, id: string, user: string): View
    requires id in v.structs && id in v.memberMap
  {
    v.(structs := v.structs[id := v.structs[id].(members := CutMember(v.structs[id].members, user))],
       memberMap := v.memberMap[id := v.memberMap[id] - {user}])
  }

  function CutMember(members: Option<seq<Member>>, user: string): Option<seq<Member>> {
    if members.Some? then Some(Cut(members.value, MemberAt(members.value, user))) else None
  }

  lemma MemberDropOk(id: string, d: GuildData, cm: ChannelIndex, mm: MemberIndexes, home: Homes, user: string)
    requires DataOk(id, d, cm, mm, home)
    ensures DataOk(id, d.(members := CutMember(d.members, user)), cm, mm[id := mm[id] - {user}], home)
  {
    CutDistinctMembers(Elems(d.members), user);
  }

  lemma MemberDropListed(v: View, home: Homes, id: string, user: string)
    requires Indexed(v, home) && Exact(v, home) && id in v.guildMap && id in v.memberMap
    ensures MembersListed(MemberDropped(v, id, user).structs, MemberDropped(v, id, user).memberMap)
  {
    assert v.guildMap[id] in v.guilds;
    CutDistinctMembers(Elems(v.structs[id].members), user);
  }

  lemma MemberDropKeepsIndexed(v: View, home: Homes, id: string, user: string)
    requires Indexed(v, home) && id in v.guildMap && id in v.memberMap
    ensures Indexed(MemberDropped(v, id, user), home)
  {
    var v' := MemberDropped(v, id, user);
    forall g | g in v.guilds
      ensures g.id in v'.structs && DataOk(g.id, v'.structs[g.id], v'.channelMap, v'.memberMap, home)
    {
      if g.id == id {
        MemberDropOk(id, v.structs[id], v.channelMap, v.memberMap, home, user);
      } else {
        DataKept(g.id, v.structs[g.id], v.channelMap, v.memberMap, home, v'.channelMap, v'.memberMap);
      }
    }
  }

  lemma MemberDropKeepsExact(v: View, home: Homes, id: string, user: string)
    requires Indexed(v, home) && Exact(v, home) && id in v.guildMap && id in v.memberMap
    ensures Exact(MemberDropped(v, id, user), home)
  {
    OnlyMembersChanged(v, home, MemberDropped(v, id, user), id);
    MemberDropListed(v, home, id, user);
  }
}
