/** Runs of the cache: any sequence of the steps its methods take. */
module CacheRuns {
  import opened Outcome
  import opened CacheLists
  import opened CacheView
  import opened CacheSteps

  /** One step, with what the event brought. Overwriting a cached member or channel in place changes no list
      and no map. */
  datatype Change =
    | Ready
    | ReadyDisabled
    | GuildSeen(guild: Guild, data: GuildData)
    | GuildGone(id: string)
    | MemberSeen(guildID: string, member: Member)
    | MemberGone(guildID: string, user: string)
    | ChannelSeen(channel: Channel)
    | ChannelGone(id: string)
    | ThreadsListed(guildID: string, kept: seq<Channel>, dropped: seq<Channel>, threads: seq<Channel>)
    | Overwritten

  ghost predicate Takes(v: View, change: Change, v': View, home: Homes) {
    match change
    case Ready => ReadyTaken(v, v') && ReadyEvent(v'.guilds, v'.structs, v'.private, home)
        && NoThreads(v'.guilds, v'.structs)
    case ReadyDisabled => v' == v.(guilds := [], private := [])
    case GuildSeen(g, d) => (g.id in v.guildMap ==> g.id in v.structs) && GuildEvent(g.id, d, home)
        && GuildAdded(v, g, d, v')
    case GuildGone(id) => v' == GuildDropped(v, id)
    case MemberSeen(g, m) =>
      g in v.guildMap && g in v.structs && g in v.memberMap && m.user !in v.memberMap[g] && v' == MemberPut(v, g, m)
    case MemberGone(g, u) => g in v.guildMap && g in v.structs && g in v.memberMap && v' == MemberDropped(v, g, u)
    case ChannelSeen(c) => c.id !in v.channelMap && HasList(v, home(c.id)) && v' == ChannelPut(v, c, home(c.id))
    case ChannelGone(id) => HasList(v, home(id)) && v' == ChannelDropped(v, id, home(id))
    case ThreadsListed(g, kept, dropped, threads) =>
      && g in v.guildMap && ThreadsSynced(v, g, kept, dropped, threads, v') && Placed(threads, home, InThreads(g))
      && (v.guildMap[g] in v.guilds ==> Apart(kept, threads))
    case Overwritten => v' == v
  }

  const NOTHING := View([], [], map[], map[], map[], map[])

  /** The contents a run goes through, starting from an empty cache. */
  ghost predicate IsRun(views: seq<View>, changes: seq<Change>, home: Homes) {
    && |views| == |changes| + 1 && views[0] == NOTHING
    && forall i :: 0 <= i < |changes| ==> Takes(views[i], changes[i], views[i + 1], home)
  }

  lemma TakesKeepsIndexed(v: View, change: Change, v': View, home: Homes)
    requires Indexed(v, home) && Takes(v, change, v', home)
    ensures Indexed(v', home)
  {
    match change
    case Ready => ReadyIndexed(v, v', home);
    case ReadyDisabled => EmptiedIndexed(v, home);
    case GuildSeen(g, d) => GuildAddKeepsIndexed(v, home, g, d, v');
    case GuildGone(id) => GuildDropKeepsIndexed(v, home, id);
    case MemberSeen(g, m) => MemberPutKeepsIndexed(v, home, g, m);
    case MemberGone(g, u) => MemberDropKeepsIndexed(v, home, g, u);
    case ChannelSeen(c) => ChannelPutKeepsIndexed(v, home, c, home(c.id));
    case ChannelGone(id) => ChannelDropKeepsIndexed(v, home, id, home(id));
    case ThreadsListed(g, kept, dropped, threads) => SyncKeepsIndexed(v, home, g, kept, dropped, threads, v');
    case Overwritten =>
  }

  /** The steps that keep the converse too; the others are those that can leave index entries behind. */
  predicate Tidy(v: View, change: Change) {
    match change
    case Ready => Untouched(v)
    case ReadyDisabled => false
    case GuildSeen(g, _) => g.id !in v.guildMap
    case GuildGone(id) => id in v.structs && BareGuild(v.structs[id])
    case _ => true
  }

  lemma TakesKeepsExact(v: View, change: Change, v': View, home: Homes)
    requires Indexed(v, home) && Exact(v, home) && Takes(v, change, v', home) && Tidy(v, change)
    ensures Exact(v', home)
  {
    match change
    case Ready => FirstReadyExact(v, v', home);
    case GuildSeen(g, d) => GuildAddKeepsExact(v, home, g, d, v');
    case GuildGone(id) => BareDropKeepsExact(v, home, id);
    case MemberSeen(g, m) => MemberPutKeepsExact(v, home, g, m);
    case MemberGone(g, u) => MemberDropKeepsExact(v, home, g, u);
    case ChannelSeen(c) => ChannelPutKeepsExact(v, home, c, home(c.id));
    case ChannelGone(id) => ChannelDropKeepsExact(v, home, id, home(id));
    case ThreadsListed(g, kept, dropped, threads) => SyncKeepsExact(v, home, g, kept, dropped, threads, v');
    case _ =>
  }

  lemma {:induction false} RunIndexed(views: seq<View>, changes: seq<Change>, home: Homes, i: nat)
    requires IsRun(views, changes, home) && i < |views|
    ensures Indexed(views[i], home)
  {
    if i > 0 {
      RunIndexed(views, changes, home, i - 1);
      TakesKeepsIndexed(views[i - 1], changes[i - 1], views[i], home);
    }
  }

  lemma {:induction false} TidyRunExact(views: seq<View>, changes: seq<Change>, home: Homes, i: nat)
    requires IsRun(views, changes, home) && i < |views|
    requires forall j :: 0 <= j < i ==> Tidy(views[j], changes[j])
    ensures Exact(views[i], home)
  {
    if i > 0 {
      TidyRunExact(views, changes, home, i - 1);
      RunIndexed(views, changes, home, i - 1);
      TakesKeepsExact(views[i - 1], changes[i - 1], views[i], home);
    }
  }

  /** What a search of the lists of v finds under an id: a guild, a channel, or a member of a listed guild. */
  ghost predicate SearchAgrees(v: View, id: string)
    requires forall g :: g in v.guilds ==> g.id in v.structs && g.id in v.memberMap
  {
    && (SearchChannel(AllChannels(v), id).Some? ==> Lookup(v.channelMap, id) == SearchChannel(AllChannels(v), id))
    && (SearchGuild(v.guilds, id).Some? ==> Lookup(v.guildMap, id) == SearchGuild(v.guilds, id))
    && forall g :: g in v.guilds && SearchMember(Elems(v.structs[g.id].members), id).Some? ==>
                     Lookup(v.memberMap[g.id], id) == SearchMember(Elems(v.structs[g.id].members), id)
  }

  ghost predicate SearchEquals(v: View, id: string)
    requires forall g :: g in v.guilds ==> g.id in v.structs && g.id in v.memberMap
  {
    && Lookup(v.channelMap, id) == SearchChannel(AllChannels(v), id)
    && Lookup(v.guildMap, id) == SearchGuild(v.guilds, id)
    && forall g :: g in v.guilds ==> Lookup(v.memberMap[g.id], id) == SearchMember(Elems(v.structs[g.id].members), id)
  }

  lemma SearchIn(v: View, home: Homes, id: string)
    requires Indexed(v, home)
    ensures forall g :: g in v.guilds ==> g.id in v.structs && g.id in v.memberMap
    ensures SearchAgrees(v, id) && (Exact(v, home) ==> SearchEquals(v, id))
  {
    ChannelSearchAgrees(v, home, id);
    GuildSearchAgrees(v, home, id);
    forall g | g in v.guilds
      ensures var found := SearchMember(Elems(v.structs[g.id].members), id);
              && (found.Some? ==> Lookup(v.memberMap[g.id], id) == found)
              && (Exact(v, home) ==> Lookup(v.memberMap[g.id], id) == found)
    {
      MemberSearchAgrees(v, home, g, id);
    }
  }

  /** At every moment of every run, whatever guild, channel or member a linear search of the lists finds, the
      index gives as the same object; and after tidy steps only, search and index agree for every id. */
  lemma SearchAgreesOverRuns(views: seq<View>, changes: seq<Change>, home: Homes, i: nat, id: string)
    requires IsRun(views, changes, home) && i < |views|
    ensures Indexed(views[i], home)
    ensures SearchAgrees(views[i], id)
    ensures (forall j :: 0 <= j < i ==> Tidy(views[j], changes[j])) ==> SearchEquals(views[i], id)
  {
    RunIndexed(views, changes, home, i);
    if forall j :: 0 <= j < i ==> Tidy(views[j], changes[j]) {
      TidyRunExact(views, changes, home, i);
    }
    SearchIn(views[i], home, id);
  }

  // ---- where it fails ----

  function Bare(name: string): GuildData {
    GuildData(name, 0, None, None, None, None, None, None, None)
  }

  /** A guild with one thread. */
  function WithThread(t: Channel): GuildData {
    Bare("").(threads := Some([t]))
  }

  /** One guild without members and the channels of `cm`. */
  function OneGuild(guild: Guild, d: GuildData, cm: ChannelIndex): View {
    View([guild], [], map[guild.id := guild], map[guild.id := d], cm, map[guild.id := map[]])
  }

  lemma OneChannelEntered(guild: Guild, c: Channel)
    ensures var d := Bare("").(channels := Some([c]));
            GuildEntered(guild.id, d, map[], map[], map[c.id := c], map[guild.id := map[]])
  {
    var d := Bare("").(channels := Some([c]));
    assert Elems(d.channels) + Elems(d.threads) == [c];
    assert c in [c] && HasChannelId([c], c.id);
  }

  lemma OneChannelSeen(guild: Guild, c: Channel, home: Homes)
    requires home(c.id) == InGuild(guild.id)
    ensures var d := Bare("").(channels := Some([c]));
            Takes(NOTHING, GuildSeen(guild, d), OneGuild(guild, d, map[c.id := c]), home)
  {
    OneChannelEntered(guild, c);
  }

  lemma OneGuildDropped(guild: Guild, d: GuildData, cm: ChannelIndex)
    ensures GuildDropped(OneGuild(guild, d, cm), guild.id) == View([], [], map[], map[], cm, map[guild.id := map[]])
  {
    assert GuildAt([guild], guild.id) == 0;
    assert [guild][..0] + [guild][1..] == [];
  }

  /** A guild with one channel is seen and removed: the channel is listed nowhere, and the index still has it. */
  lemma RemovedGuildLeavesChannel(guild: Guild, c: Channel, home: Homes)
    requires home(c.id) == InGuild(guild.id)
    ensures var d := Bare("").(channels := Some([c]));
            var v := OneGuild(guild, d, map[c.id := c]);
            var v' := GuildDropped(v, guild.id);
            && IsRun([NOTHING, v, v'], [GuildSeen(guild, d), GuildGone(guild.id)], home)
            && v'.guilds == [] && v'.private == [] && Lookup(v'.channelMap, c.id) == Some(c) && !Exact(v', home)
  {
    var d := Bare("").(channels := Some([c]));
    var v := OneGuild(guild, d, map[c.id := c]);
    var v' := GuildDropped(v, guild.id);
    OneChannelSeen(guild, c, home);
    OneGuildDropped(guild, d, map[c.id := c]);
    assert Takes(v, GuildGone(guild.id), v', home);
    TwoSteps(NOTHING, GuildSeen(guild, d), v, GuildGone(guild.id), v', home);
    assert !ChannelListed(c, home(c.id), v'.private, v'.structs);
  }

  lemma TwoSteps(v: View, first: Change, v': View, second: Change, v'': View, home: Homes)
    requires v == NOTHING && Takes(v, first, v', home) && Takes(v', second, v'', home)
    ensures IsRun([v, v', v''], [first, second], home)
  {
    var views, changes := [v, v', v''], [first, second];
    assert views[0] == v && views[1] == v' && views[2] == v'' && changes[0] == first && changes[1] == second;
  }

  lemma OneThreadTaken(guild: Guild, t: Channel)
    ensures ReadyTaken(NOTHING, OneGuild(guild, WithThread(t), map[]))
  {
    var v := OneGuild(guild, WithThread(t), map[]);
    assert guild in [guild] && HasGuildId([guild], guild.id);
    assert GuildsEntered(map[], v.guilds, v.guildMap) && IndexesEntered(map[], v.guilds, v.structs, v.memberMap);
    assert ReadyChannels([guild][..0], v.structs) == [];
    assert ReadyChannels(v.guilds, v.structs) + v.private == [];
    assert Entered(map[], [], map[]);
  }

  lemma OneThreadEvent(guild: Guild, t: Channel, home: Homes)
    requires home(t.id) == InThreads(guild.id)
    ensures var v := OneGuild(guild, WithThread(t), map[]);
            ReadyEvent(v.guilds, v.structs, v.private, home)
  {
  }

  lemma OneThreadFound(guild: Guild, t: Channel)
    ensures var v := OneGuild(guild, WithThread(t), map[]);
            SearchChannel(AllChannels(v), t.id) == Some(t)
  {
    var v := OneGuild(guild, WithThread(t), map[]);
    assert [guild][1..] == [] && GuildChannels([guild][1..], v.structs) == [];
    assert AllChannels(v) == [t];
  }

  /** The first READY brings a guild with one thread: the search finds it, and the index does not. */
  lemma ReadyThreadNotIndexed(guild: Guild, t: Channel, home: Homes)
    requires home(t.id) == InThreads(guild.id)
    ensures var v := OneGuild(guild, WithThread(t), map[]);
            && ReadyTaken(NOTHING, v) && ReadyEvent(v.guilds, v.structs, v.private, home)
            && SearchChannel(AllChannels(v), t.id) == Some(t) && Lookup(v.channelMap, t.id) == None
  {
    OneThreadTaken(guild, t);
    OneThreadEvent(guild, t, home);
    OneThreadFound(guild, t);
  }

  lemma OneThreadEntered(guild: Guild, t: Channel)
    ensures GuildEntered(guild.id, WithThread(t), map[], map[], map[t.id := t], map[guild.id := map[]])
  {
    var d := WithThread(t);
    assert Elems(d.channels) + Elems(d.threads) == [t];
    assert t in [t] && HasChannelId([t], t.id);
  }

  lemma OneThreadSeen(guild: Guild, t: Channel, home: Homes)
    requires home(t.id) == InThreads(guild.id)
    ensures Takes(NOTHING, GuildSeen(guild, WithThread(t)), OneGuild(guild, WithThread(t), map[t.id := t]), home)
  {
    OneThreadEntered(guild, t);
  }

  /** A guild with a thread is seen, and a sync of it lists another object with that thread's id: the search
      finds the old object and the index gives the new one. */
  lemma ClashingSync(guild: Guild, t: Channel, t': Channel, home: Homes)
    requires home(t.id) == InThreads(guild.id) && t' != t && t'.id == t.id
    ensures var v := OneGuild(guild, WithThread(t), map[t.id := t]);
            var v' := OneGuild(guild, Bare("").(threads := Some([t, t'])), map[t.id := t']);
            && IsRun([NOTHING, v], [GuildSeen(guild, WithThread(t))], home)
            && ThreadsSynced(v, guild.id, [t], [], [t'], v') && Placed([t'], home, InThreads(guild.id))
            && SearchChannel(AllChannels(v'), t.id) == Some(t) && Lookup(v'.channelMap, t.id) == Some(t')
            && !Indexed(v', home)
  {
    var v := OneGuild(guild, WithThread(t), map[t.id := t]);
    var v' := OneGuild(guild, Bare("").(threads := Some([t, t'])), map[t.id := t']);
    OneThreadSeen(guild, t, home);
    assert [NOTHING, v][0] == NOTHING && [NOTHING, v][1] == v;
    assert t in [t] && t' in [t'] && HasChannelId([t'], t.id);
    assert [t] + [t'] == [t, t'] && Split([t], [t], []);
    assert ThreadsSynced(v, guild.id, [t], [], [t'], v');
    assert [guild][1..] == [] && GuildChannels([guild][1..], v'.structs) == [];
    assert AllChannels(v') == [t, t'] && [t, t'][0] == t;
    SyncClash(v, home, guild.id, [t], [], [t'], v');
  }
}
