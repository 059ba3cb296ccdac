/** What a search of the lists and a lookup in the maps give after each step of the cache. */
module CacheEffects {
  import opened Outcome
  import opened CacheLists
  import opened CacheView
  import opened CacheSteps

  /** The list of a home. */
  ghost function ListAt(v: View, h: Home): seq<Channel>
    requires HasList(v, h)
  {
    match h
    case Private => v.private
    case InGuild(g) => Elems(v.structs[g].channels)
    case InThreads(g) => Elems(v.structs[g].threads)
  }

  /** Guilds, members and everything else of a guild but its channels and threads. */
  ghost predicate OnlyChannels(v: View, v': View) {
    && v'.guilds == v.guilds && v'.guildMap == v.guildMap && v'.memberMap == v.memberMap
    && v'.structs.Keys == v.structs.Keys
    && forall g :: g in v.structs ==>
         v'.structs[g].(channels := None, threads := None) == v.structs[g].(channels := None, threads := None)
  }

  // ---- searching ----

  lemma SearchFinds(list: seq<Channel>, c: Channel)
    requires DistinctChannels(list) && c in list
    ensures SearchChannel(list, c.id) == Some(c)
  {
    var i :| 0 <= i < |list| && list[i] == c;
  }

  lemma SearchNone(list: seq<Channel>, id: string)
    ensures SearchChannel(list, id).Some? <==> HasChannelId(list, id)
    ensures SearchChannel(list, id).Some? ==> SearchChannel(list, id).value in list
  {
    if HasChannelId(list, id) {
      var c :| c in list && c.id == id;
      var i :| 0 <= i < |list| && list[i] == c;
    }
  }

  lemma SearchMemberFinds(list: seq<Member>, m: Member)
    requires DistinctMembers(list) && m in list
    ensures SearchMember(list, m.user) == Some(m)
  {
    var i :| 0 <= i < |list| && list[i] == m;
  }

  lemma SearchAfterCut(list: seq<Channel>, id: string, k: string)
    requires DistinctChannels(list)
    ensures SearchChannel(Cut(list, ChannelAt(list, id)), k) == if k == id then None else SearchChannel(list, k)
  {
    CutDistinctChannels(list, id);
    var rest := Cut(list, ChannelAt(list, id));
    SearchNone(list, k);
    SearchNone(rest, k);
    if SearchChannel(rest, k).Some? {
      SearchFinds(list, SearchChannel(rest, k).value);
    }
    if k != id && SearchChannel(list, k).Some? {
      SearchFinds(rest, SearchChannel(list, k).value);
    }
  }

  lemma SearchMemberAfterCut(list: seq<Member>, user: string, u: string)
    requires DistinctMembers(list)
    ensures SearchMember(Cut(list, MemberAt(list, user)), u) == if u == user then None else SearchMember(list, u)
  {
    CutDistinctMembers(list, user);
    var rest := Cut(list, MemberAt(list, user));
    var i, j := MemberAt(list, u), MemberAt(rest, u);
    if j < |rest| {
      assert rest[j] in rest;
      SearchMemberFinds(list, rest[j]);
    }
    if u != user && i < |list| {
      assert list[i] in list;
      SearchMemberFinds(rest, list[i]);
    }
  }

  lemma SearchGuildAfterCut(list: seq<Guild>, id: string, k: string)
    requires DistinctGuilds(list)
    ensures SearchGuild(Cut(list, GuildAt(list, id)), k) == if k == id then None else SearchGuild(list, k)
  {
    CutDistinctGuilds(list, id);
    var rest := Cut(list, GuildAt(list, id));
    var i, j := GuildAt(list, k), GuildAt(rest, k);
    if j < |rest| {
      assert rest[j] in rest;
      var n :| 0 <= n < |list| && list[n] == rest[j];
    }
    if k != id && i < |list| {
      assert list[i] in rest;
      var n :| 0 <= n < |rest| && rest[n] == list[i];
    }
  }

  // ---- entering ----

  /** The index after a list was entered: what the list has is found there, the rest as before. */
  lemma EnteredFound(m: ChannelIndex, list: seq<Channel>, m': ChannelIndex, k: string)
    requires DistinctChannels(list) && Entered(m, list, m')
    ensures Lookup(m', k) == if SearchChannel(list, k).Some? then SearchChannel(list, k) else Lookup(m, k)
  {
    SearchNone(list, k);
  }

  lemma MembersFound(list: seq<Member>, m: map<string, Member>, u: string)
    requires DistinctMembers(list) && IndexOf(list, m)
    ensures Lookup(m, u) == SearchMember(list, u)
  {
    var i := MemberAt(list, u);
    if i < |list| {
      assert list[i] in list;
    }
    if u in m {
      SearchMemberFinds(list, m[u]);
    }
  }

  lemma GuildsFound(gm: map<string, Guild>, list: seq<Guild>, gm': map<string, Guild>, k: string)
    requires DistinctGuilds(list) && GuildsEntered(gm, list, gm')
    ensures Lookup(gm', k) == if SearchGuild(list, k).Some? then SearchGuild(list, k) else Lookup(gm, k)
  {
    var i := GuildAt(list, k);
    if i < |list| {
      assert list[i] in list;
    }
  }

  // ---- channels ----

  /** An added channel is the last of its list and is looked up; every other list, lookup, guild and member stays. */
  lemma ChannelPutFound(v: View, c: Channel, h: Home, k: string, other: Home)
    requires HasList(v, h) && HasList(v, other)
    ensures var v' := ChannelPut(v, c, h);
            && HasList(v', other) && OnlyChannels(v, v')
            && ListAt(v', other) == ListAt(v, other) + (if other == h then [c] else [])
            && Lookup(v'.channelMap, k) == if k == c.id then Some(c) else Lookup(v.channelMap, k)
  {
  }

  lemma ChannelDropLists(v: View, id: string, h: Home, other: Home)
    requires HasList(v, h) && HasList(v, other)
    ensures var v' := ChannelDropped(v, id, h);
            && HasList(v', other) && OnlyChannels(v, v')
            && ListAt(v', other)
               == if other == h then Cut(ListAt(v, h), ChannelAt(ListAt(v, h), id)) else ListAt(v, other)
  {
  }

  /** A removed channel is found neither way any more; all else stays. */
  lemma ChannelDropFound(v: View, id: string, h: Home, k: string, other: Home)
    requires HasList(v, h) && HasList(v, other) && DistinctChannels(ListAt(v, h))
    ensures var v' := ChannelDropped(v, id, h);
            && HasList(v', other) && HasList(v', h) && OnlyChannels(v, v')
            && (other != h ==> ListAt(v', other) == ListAt(v, other))
            && SearchChannel(ListAt(v', h), k) == (if k == id then None else SearchChannel(ListAt(v, h), k))
            && Lookup(v'.channelMap, k) == if k == id then None else Lookup(v.channelMap, k)
  {
    SearchAfterCut(ListAt(v, h), id, k);
    ChannelDropLists(v, id, h, h);
    ChannelDropLists(v, id, h, other);
  }

  // ---- members ----

  /** Everything but one guild's members and their index. */
  ghost predicate OnlyMembers(v: View, v': View, g: string) {
    && v'.guilds == v.guilds && v'.guildMap == v.guildMap && v'.private == v.private && v'.channelMap == v.channelMap
    && v'.structs.Keys == v.structs.Keys && v'.memberMap.Keys == v.memberMap.Keys
    && (forall k :: k in v.memberMap && k != g ==> v'.memberMap[k] == v.memberMap[k])
    && forall k :: k in v.structs ==>
         v'.structs[k] == if k == g then v.structs[k].(members := v'.structs[k].members) else v.structs[k]
  }

  lemma MemberPutFound(v: View, g: string, m: Member, u: string)
    requires g in v.structs && g in v.memberMap
    ensures var v' := MemberPut(v, g, m);
            && OnlyMembers(v, v', g)
            && Elems(v'.structs[g].members) == Elems(v.structs[g].members) + [m]
            && Lookup(v'.memberMap[g], u) == if u == m.user then Some(m) else Lookup(v.memberMap[g], u)
  {
  }

  lemma MemberDropFound(v: View, g: string, user: string, u: string)
    requires g in v.structs && g in v.memberMap && DistinctMembers(Elems(v.structs[g].members))
    ensures var v' := MemberDropped(v, g, user);
            && OnlyMembers(v, v', g)
            && SearchMember(Elems(v'.structs[g].members), u)
               == (if u == user then None else SearchMember(Elems(v.structs[g].members), u))
            && Lookup(v'.memberMap[g], u) == if u == user then None else Lookup(v.memberMap[g], u)
  {
    SearchMemberAfterCut(Elems(v.structs[g].members), user, u);
  }

  // ---- guilds ----

  /** After a guild event its guild is found both ways: the cached one if there was one, with everything it had
      that the event lacks, and otherwise the event's. No other guild's one, place, struct or index changes. */
  lemma GuildAddFound(v: View, home: Homes, guild: Guild, d: GuildData, v': View, k: string)
    requires Indexed(v, home) && GuildEvent(guild.id, d, home) && GuildAdded(v, guild, d, v')
    ensures var one := if guild.id in v.guildMap then v.guildMap[guild.id] else guild;
            && Lookup(v'.guildMap, k) == (if k == guild.id then Some(one) else Lookup(v.guildMap, k))
            && (guild.id in v.guildMap ==> v'.guilds == v.guilds)
            && (guild.id !in v.guildMap ==> v'.guilds == v.guilds + [guild])
    ensures guild.id in v'.structs && v'.private == v.private
    ensures guild.id in v.guildMap ==> Survives(v.structs[guild.id], d, v'.structs[guild.id])
    ensures guild.id !in v.guildMap ==> v'.structs[guild.id] == d
    ensures k != guild.id ==> Lookup(v'.structs, k) == Lookup(v.structs, k)
                              && Lookup(v'.memberMap, k) == Lookup(v.memberMap, k)
  {
  }

  /** Its channels, threads and members are looked up; without a member list the guild's old index stays. */
  lemma GuildAddLookups(v: View, home: Homes, guild: Guild, d: GuildData, v': View, k: string)
    requires Indexed(v, home) && GuildEvent(guild.id, d, home) && GuildAdded(v, guild, d, v')
    ensures var found := SearchChannel(Elems(d.channels) + Elems(d.threads), k);
            Lookup(v'.channelMap, k) == if found.Some? then found else Lookup(v.channelMap, k)
    ensures guild.id in v'.memberMap
    ensures d.members.Some? ==> Lookup(v'.memberMap[guild.id], k) == SearchMember(d.members.value, k)
    ensures d.members.None? ==>
              v'.memberMap[guild.id] == if guild.id in v.memberMap then v.memberMap[guild.id] else map[]
  {
    var all := Elems(d.channels) + Elems(d.threads);
    forall i, j | 0 <= i < j < |all|
      ensures all[i].id != all[j].id
    {
      assert i < |Elems(d.channels)| ==> all[i] in Elems(d.channels);
      assert j >= |Elems(d.channels)| ==> all[j] in Elems(d.threads);
    }
    EnteredFound(v.channelMap, all, v'.channelMap, k);
    if d.members.Some? {
      MembersFound(d.members.value, v'.memberMap[guild.id], k);
    }
  }

  /** A removed guild is found neither way; every other guild, and all channels and members, stay where they are. */
  lemma GuildDropFound(v: View, id: string, k: string)
    requires DistinctGuilds(v.guilds)
    ensures var v' := GuildDropped(v, id);
            && SearchGuild(v'.guilds, k) == (if k == id then None else SearchGuild(v.guilds, k))
            && Lookup(v'.guildMap, k) == (if k == id then None else Lookup(v.guildMap, k))
            && Lookup(v'.structs, k) == (if k == id then None else Lookup(v.structs, k))
            && v'.private == v.private && v'.channelMap == v.channelMap && v'.memberMap == v.memberMap
  {
    SearchGuildAfterCut(v.guilds, id, k);
  }

  // ---- ready ----

  /** After a READY its guilds, their members, its private channels and its guilds' channels are looked up; what it
      does not name is looked up as before. */
  lemma ReadyFound(v: View, home: Homes, v': View, k: string)
    requires ReadyTaken(v, v') && ReadyEvent(v'.guilds, v'.structs, v'.private, home)
    ensures var found := SearchGuild(v'.guilds, k);
            Lookup(v'.guildMap, k) == if found.Some? then found else Lookup(v.guildMap, k)
    ensures forall g :: g in v'.guilds ==>
              g.id in v'.memberMap && Lookup(v'.memberMap[g.id], k) == SearchMember(Elems(v'.structs[g.id].members), k)
    ensures SearchGuild(v'.guilds, k).None? ==> Lookup(v'.memberMap, k) == Lookup(v.memberMap, k)
    ensures forall c :: c in v'.private ==> Lookup(v'.channelMap, c.id) == Some(c)
    ensures forall g, c :: g in v'.guilds && c in Elems(v'.structs[g.id].channels) ==>
              Lookup(v'.channelMap, c.id) == Some(c)
    ensures !HasChannelId(ReadyChannels(v'.guilds, v'.structs) + v'.private, k) ==>
              Lookup(v'.channelMap, k) == Lookup(v.channelMap, k)
  {
    GuildsFound(v.guildMap, v'.guilds, v'.guildMap, k);
    forall g | g in v'.guilds
      ensures g.id in v'.memberMap && Lookup(v'.memberMap[g.id], k) == SearchMember(Elems(v'.structs[g.id].members), k)
    {
      MembersFound(Elems(v'.structs[g.id].members), v'.memberMap[g.id], k);
    }
    ReadyMembersStay(v, v', k);
    ReadyChannelsFound(v, v', k);
  }

  lemma ReadyMembersStay(v: View, v': View, k: string)
    requires ReadyTaken(v, v')
    ensures SearchGuild(v'.guilds, k).None? ==> Lookup(v'.memberMap, k) == Lookup(v.memberMap, k)
  {
    if HasGuildId(v'.guilds, k) {
      var g :| g in v'.guilds && g.id == k;
      var j :| 0 <= j < |v'.guilds| && v'.guilds[j] == g;
    }
  }

  lemma ReadyChannelsFound(v: View, v': View, k: string)
    requires ReadyTaken(v, v')
    ensures forall c :: c in v'.private ==> Lookup(v'.channelMap, c.id) == Some(c)
    ensures forall g, c :: g in v'.guilds && c in Elems(v'.structs[g.id].channels) ==>
              Lookup(v'.channelMap, c.id) == Some(c)
    ensures !HasChannelId(ReadyChannels(v'.guilds, v'.structs) + v'.private, k) ==>
              Lookup(v'.channelMap, k) == Lookup(v.channelMap, k)
  {
    var all := ReadyChannels(v'.guilds, v'.structs) + v'.private;
    forall g, c | g in v'.guilds && c in Elems(v'.structs[g.id].channels)
      ensures c in all
    {
      InReadyChannels(v'.guilds, v'.structs, c);
    }
  }

  // ---- thread sync ----

  /** After a sync its threads are looked up, those it drops are not unless it lists them again, and every other
      channel is looked up as before; nothing but the guild's threads changes. */
  lemma SyncFound(v: View, g: string, kept: seq<Channel>, dropped: seq<Channel>, threads: seq<Channel>, v': View,
                  k: string)
    requires ThreadsSynced(v, g, kept, dropped, threads, v') && DistinctChannels(threads)
    ensures Elems(v'.structs[g].threads) == kept + threads && v'.private == v.private && OnlyChannels(v, v')
    ensures forall other :: other in v.structs ==>
              && v'.structs[other].channels == v.structs[other].channels
              && (other != g ==> v'.structs[other].threads == v.structs[other].threads)
    ensures Lookup(v'.channelMap, k)
            == if SearchChannel(threads, k).Some? then SearchChannel(threads, k)
               else if HasChannelId(dropped, k) then None else Lookup(v.channelMap, k)
  {
    SearchNone(threads, k);
    if SearchChannel(threads, k).Some? {
      SearchFinds(threads, SearchChannel(threads, k).value);
    }
  }
}
