/** The channel, thread-sync and ready steps of the cache, as changes of its content. */
module CacheSteps {
  import opened Outcome
  import opened CacheLists
  import opened CacheView

  // ---- ChannelAdd and ChannelRemove ----

  function GuildPut(d: GuildData, thread: bool, c: Channel): GuildData {
    if thread then d.(threads := Append(d.threads, c)) else d.(channels := Append(d.channels, c))
  }

  function CutChannel(list: Option<seq<Channel>>, id: string): Option<seq<Channel>> {
    if list.Some? then Some(Cut(list.value, ChannelAt(list.value, id))) else None
  }

  function GuildCut(d: GuildData, thread: bool, id: string): GuildData {
    if thread then d.(threads := CutChannel(d.threads, id)) else d.(channels := CutChannel(d.channels, id))
  }

  /** The list a channel of this home goes to is there. */
  predicate HasList(v: View, h: Home) {
    h.Private? || (h.guild in v.guildMap && h.guild in v.structs)
  }

  /** A new channel at the end of the list it belongs to. */
  function ChannelPut(v: View, c: Channel, h: Home): View {
    var v' := v.(channelMap := v.channelMap[c.id := c]);
    if h.Private? then v'.(private := v.private + [c])
    else if h.guild !in v.structs then v'
    else v'.(structs := v.structs[h.guild := GuildPut(v.structs[h.guild], h.InThreads?, c)])
  }

  function ChannelDropped(v: View, id: string, h: Home): View {
    var v' := v.(channelMap := v.channelMap - {id});
    if h.Private? then v'.(private := Cut(v.private, ChannelAt(v.private, id)))
    else if h.guild !in v.structs then v'
    else v'.(structs := v.structs[h.guild := GuildCut(v.structs[h.guild], h.InThreads?, id)])
  }

  lemma GuildPutOk(g: string, d: GuildData, cm: ChannelIndex, mm: MemberIndexes, home: Homes, c: Channel, h: Home)
    requires DataOk(g, d, cm, mm, home) && c.id !in cm && home(c.id) == h && !h.Private? && h.guild == g
    ensures DataOk(g, GuildPut(d, h.InThreads?, c), cm[c.id := c], mm, home)
  {
    AppendPlaced(if h.InThreads? then Elems(d.threads) else Elems(d.channels), home, h, c);
  }

  lemma ListCutOk(list: seq<Channel>, cm: ChannelIndex, home: Homes, h: Home, id: string)
    requires Placed(list, home, h) && ChannelsIndexed(list, cm)
    ensures Placed(Cut(list, ChannelAt(list, id)), home, h)
    ensures ChannelsIndexed(Cut(list, ChannelAt(list, id)), cm - {id})
    ensures home(id) != h ==> ChannelsIndexed(list, cm - {id})
  {
    CutDistinctChannels(list, id);
  }

  lemma GuildCutOk(g: string, d: GuildData, cm: ChannelIndex, mm: MemberIndexes, home: Homes, id: string, h: Home)
    requires DataOk(g, d, cm, mm, home) && home(id) == h && !h.Private? && h.guild == g
    ensures DataOk(g, GuildCut(d, h.InThreads?, id), cm - {id}, mm, home)
  {
    ListCutOk(Elems(d.channels), cm, home, InGuild(g), id);
    ListCutOk(Elems(d.threads), cm, home, InThreads(g), id);
  }

  lemma ChannelPutGuilds(v: View, home: Homes, c: Channel, h: Home)
    requires Indexed(v, home) && c.id !in v.channelMap && home(c.id) == h && HasList(v, h)
    ensures var v' := ChannelPut(v, c, h); GuildsOk(v'.guilds, v'.structs, v'.channelMap, v'.memberMap, home)
  {
    var v' := ChannelPut(v, c, h);
    forall g | g in v.guilds
      ensures g.id in v'.structs && DataOk(g.id, v'.structs[g.id], v'.channelMap, v'.memberMap, home)
    {
      if !h.Private? && h.guild == g.id {
        GuildPutOk(g.id, v.structs[g.id], v.channelMap, v.memberMap, home, c, h);
      } else {
        DataKept(g.id, v.structs[g.id], v.channelMap, v.memberMap, home, v'.channelMap, v'.memberMap);
      }
    }
  }

  lemma ChannelPutKeepsIndexed(v: View, home: Homes, c: Channel, h: Home)
    requires Indexed(v, home) && c.id !in v.channelMap && home(c.id) == h && HasList(v, h)
    ensures Indexed(ChannelPut(v, c, h), home)
  {
    ChannelPutGuilds(v, home, c, h);
    if h.Private? {
      AppendPlaced(v.private, home, h, c);
    }
  }

  lemma ChannelPutListed(v: View, home: Homes, c: Channel, h: Home)
    requires ChannelsListed(v.private, v.structs, v.channelMap, home) && home(c.id) == h && HasList(v, h)
    ensures var v' := ChannelPut(v, c, h); ChannelsListed(v'.private, v'.structs, v'.channelMap, home)
  {
    var v' := ChannelPut(v, c, h);
    forall k | k in v'.channelMap
      ensures ChannelListed(v'.channelMap[k], home(k), v'.private, v'.structs)
    {
      if k != c.id {
        assert ChannelListed(v.channelMap[k], home(k), v.private, v.structs);
      }
    }
  }

  lemma MembersStayListed(ds: map<string, GuildData>, mm: MemberIndexes, ds': map<string, GuildData>)
    requires MembersListed(ds, mm) && ds'.Keys == ds.Keys && forall g :: g in ds ==> ds'[g].members == ds[g].members
    ensures MembersListed(ds', mm)
  {
  }

  lemma ChannelPutKeepsExact(v: View, home: Homes, c: Channel, h: Home)
    requires Exact(v, home) && home(c.id) == h && HasList(v, h) && v.structs.Keys == v.guildMap.Keys
    ensures Exact(ChannelPut(v, c, h), home)
  {
    ChannelPutListed(v, home, c, h);
    MembersStayListed(v.structs, v.memberMap, ChannelPut(v, c, h).structs);
  }

  lemma ChannelDropGuilds(v: View, home: Homes, id: string, h: Home)
    requires Indexed(v, home) && home(id) == h && HasList(v, h)
    ensures var v' := ChannelDropped(v, id, h); GuildsOk(v'.guilds, v'.structs, v'.channelMap, v'.memberMap, home)
  {
    var v' := ChannelDropped(v, id, h);
    forall g | g in v.guilds
      ensures g.id in v'.structs && DataOk(g.id, v'.structs[g.id], v'.channelMap, v'.memberMap, home)
    {
      if !h.Private? && h.guild == g.id {
        GuildCutOk(g.id, v.structs[g.id], v.channelMap, v.memberMap, home, id, h);
      } else {
        DataKept(g.id, v.structs[g.id], v.channelMap, v.memberMap, home, v'.channelMap, v'.memberMap);
      }
    }
  }

  lemma CutPart<T>(s: seq<T>, i: nat)
    ensures forall x :: x in Cut(s, i) ==> x in s
  {
  }

  lemma ChannelDropAtHome(v: View, home: Homes, id: string, h: Home)
    requires AtHome(v.structs, home) && HasList(v, h)
    ensures AtHome(ChannelDropped(v, id, h).structs, home)
  {
    if !h.Private? {
      var list := Elems(if h.InThreads? then v.structs[h.guild].threads else v.structs[h.guild].channels);
      CutPart(list, ChannelAt(list, id));
    }
  }

  lemma ChannelDropKeepsIndexed(v: View, home: Homes, id: string, h: Home)
    requires Indexed(v, home) && home(id) == h && HasList(v, h)
    ensures Indexed(ChannelDropped(v, id, h), home)
  {
    ChannelDropGuilds(v, home, id, h);
    ChannelDropAtHome(v, home, id, h);
    CutDistinctChannels(v.private, id);
  }

  lemma CutChannelListed(list: Option<seq<Channel>>, id: string, c: Channel)
    requires DistinctChannels(Elems(list)) && c in Elems(list) && c.id != id
    ensures c in Elems(CutChannel(list, id))
  {
    CutDistinctChannels(Elems(list), id);
  }

  /** A channel other than the removed one is still in its list. */
  lemma StillListed(v: View, home: Homes, id: string, h: Home, c: Channel)
    requires KeysMatch(v) && GuildsOk(v.guilds, v.structs, v.channelMap, v.memberMap, home)
    requires DistinctChannels(v.private)
    requires (forall k :: k in v.guildMap ==> v.guildMap[k] in v.guilds) && HasList(v, h)
    requires c.id != id && ChannelListed(c, home(c.id), v.private, v.structs)
    ensures var v' := ChannelDropped(v, id, h); ChannelListed(c, home(c.id), v'.private, v'.structs)
  {
    match home(c.id)
    case Private => CutChannelListed(Some(v.private), id, c);
    case InGuild(g) =>
      assert v.guildMap[g] in v.guilds;
      CutChannelListed(v.structs[g].channels, id, c);
    case InThreads(g) =>
      assert v.guildMap[g] in v.guilds;
      CutChannelListed(v.structs[g].threads, id, c);
  }

  lemma ChannelDropListed(v: View, home: Homes, id: string, h: Home)
    requires KeysMatch(v) && GuildsOk(v.guilds, v.structs, v.channelMap, v.memberMap, home)
    requires DistinctChannels(v.private)
    requires Exact(v, home) && HasList(v, h)
    ensures var v' := ChannelDropped(v, id, h); ChannelsListed(v'.private, v'.structs, v'.channelMap, home)
  {
    var v' := ChannelDropped(v, id, h);
    forall k | k in v'.channelMap
      ensures ChannelListed(v'.channelMap[k], home(k), v'.private, v'.structs)
    {
      StillListed(v, home, id, h, v.channelMap[k]);
    }
  }

  lemma ChannelDropKeepsExact(v: View, home: Homes, id: string, h: Home)
    requires Indexed(v, home) && Exact(v, home) && home(id) == h && HasList(v, h)
    ensures Exact(ChannelDropped(v, id, h), home)
  {
    ChannelDropListed(v, home, id, h);
    MembersStayListed(v.structs, v.memberMap, ChannelDropped(v, id, h).structs);
  }

  // ---- ThreadListSync ----

  /** The old threads divided into those kept and those dropped. */
  ghost predicate Split(before: seq<Channel>, kept: seq<Channel>, dropped: seq<Channel>) {
    && (forall c :: c in before ==> c in kept || c in dropped)
    && (forall c :: c in kept ==> c in before)
    && (forall c :: c in dropped ==> c in before)
    && (DistinctChannels(before) ==> DistinctChannels(kept) && Apart(kept, dropped))
  }

  /** The index after the dropped threads are deleted and the synced ones entered. */
  ghost predicate Synced(cm: ChannelIndex, dropped: seq<Channel>, threads: seq<Channel>, cm': ChannelIndex) {
    && ChannelsIndexed(threads, cm')
    && (forall k :: k in cm && !HasChannelId(threads, k) && !HasChannelId(dropped, k) ==> k in cm' && cm'[k] == cm[k])
    && (forall k :: k in cm' ==> HasChannelId(threads, k) || (k in cm && !HasChannelId(dropped, k)))
  }

  ghost predicate Apart(a: seq<Channel>, b: seq<Channel>) {
    forall x, y :: x in a && y in b ==> x.id != y.id
  }

  lemma ApartIds(a: seq<Channel>, b: seq<Channel>, c: Channel)
    requires Apart(a, b) && c in a
    ensures !HasChannelId(b, c.id)
  {
  }

  /** For every id of an old or a synced thread the index agrees with the new list, exactly when no synced
      thread has the id of a kept one. */
  lemma SyncAgreesExactly(cm: ChannelIndex, before: seq<Channel>, kept: seq<Channel>, dropped: seq<Channel>,
                          threads: seq<Channel>, cm': ChannelIndex)
    requires ChannelsIndexed(before, cm) && DistinctChannels(before) && Split(before, kept, dropped)
    requires DistinctChannels(threads) && Synced(cm, dropped, threads, cm') && forall t :: t in threads ==> t !in before
    ensures (forall k :: HasChannelId(before, k) || HasChannelId(threads, k) ==>
            Lookup(cm', k) == SearchChannel(kept + threads, k))
            <==> Apart(kept, threads)
  {
    if Apart(kept, threads) {
      forall k | HasChannelId(before, k) || HasChannelId(threads, k)
        ensures Lookup(cm', k) == SearchChannel(kept + threads, k)
      {
        SyncAgrees(cm, before, kept, dropped, threads, cm', k);
      }
    } else {
      var x, y :| x in kept && y in threads && x.id == y.id;
      var i := ChannelAt(kept + threads, x.id);
      var j :| 0 <= j < |kept| && kept[j] == x;
      assert (kept + threads)[j] == x;
      assert i <= j;
      assert HasChannelId(threads, x.id);
    }
  }

  lemma SyncAgrees(cm: ChannelIndex, before: seq<Channel>, kept: seq<Channel>, dropped: seq<Channel>,
                   threads: seq<Channel>, cm': ChannelIndex, k: string)
    requires ChannelsIndexed(before, cm) && DistinctChannels(before) && Split(before, kept, dropped)
    requires DistinctChannels(threads) && Synced(cm, dropped, threads, cm')
    requires Apart(kept, threads) && (HasChannelId(before, k) || HasChannelId(threads, k))
    ensures Lookup(cm', k) == SearchChannel(kept + threads, k)
  {
    var all := kept + threads;
    var i := ChannelAt(all, k);
    if i < |all| {
      var c := all[i];
      assert c in kept || c in threads;
      if c in kept {
        ApartIds(kept, threads, c);
        ApartIds(kept, dropped, c);
      }
    } else {
      NoneThere(all, k);
      assert forall c :: c in all <==> c in kept || c in threads;
      assert !HasChannelId(threads, k) && !HasChannelId(kept, k);
    }
  }

  lemma NoneThere(list: seq<Channel>, k: string)
    requires ChannelAt(list, k) == |list|
    ensures !HasChannelId(list, k)
  {
    forall c | c in list
      ensures c.id != k
    {
      var j :| 0 <= j < |list| && list[j] == c;
    }
  }

  /** The content after a thread sync of guild g. */
  ghost predicate ThreadsSynced(v: View, g: string, kept: seq<Channel>, dropped: seq<Channel>, threads: seq<Channel>,
                                v': View) {
    && g in v.structs && g in v'.structs
    && v'.guilds == v.guilds && v'.private == v.private && v'.guildMap == v.guildMap && v'.memberMap == v.memberMap
    && Split(Elems(v.structs[g].threads), kept, dropped)
    && Elems(v'.structs[g].threads) == kept + threads
    && v'.structs == v.structs[g := v.structs[g].(threads := v'.structs[g].threads)]
    && Synced(v.channelMap, dropped, threads, v'.channelMap)
  }

  lemma JoinPlaced(a: seq<Channel>, b: seq<Channel>, home: Homes, h: Home)
    requires Placed(a, home, h) && Placed(b, home, h) && Apart(a, b)
    ensures Placed(a + b, home, h)
  {
    var c := a + b;
    forall i, j | 0 <= i < j < |c|
      ensures c[i].id != c[j].id
    {
      if i < |a| <= j {
        assert a[i] in a && b[j - |a|] in b;
      }
    }
  }

  lemma SyncedElsewhere(cm: ChannelIndex, dropped: seq<Channel>, threads: seq<Channel>, cm': ChannelIndex,
                        home: Homes, h: Home)
    requires Synced(cm, dropped, threads, cm') && Placed(threads, home, h)
    requires forall c :: c in dropped ==> home(c.id) == h
    ensures forall k :: k in cm && home(k) != h ==> k in cm' && cm'[k] == cm[k]
  {
  }

  lemma SyncedOk(g: string, d: GuildData, kept: seq<Channel>, dropped: seq<Channel>, threads: seq<Channel>,
                 slice: Option<seq<Channel>>, cm: ChannelIndex, mm: MemberIndexes, home: Homes, cm': ChannelIndex)
    requires DataOk(g, d, cm, mm, home) && Split(Elems(d.threads), kept, dropped) && Placed(threads, home, InThreads(g))
    requires Apart(kept, threads)
    requires Synced(cm, dropped, threads, cm') && Elems(slice) == kept + threads
    ensures DataOk(g, d.(threads := slice), cm', mm, home)
  {
    JoinPlaced(kept, threads, home, InThreads(g));
    SyncedElsewhere(cm, dropped, threads, cm', home, InThreads(g));
    forall c | c in kept + threads
      ensures c.id in cm' && cm'[c.id] == c
    {
      if c in kept {
        ApartIds(kept, threads, c);
        ApartIds(kept, dropped, c);
      }
    }
  }

  lemma SyncKeys(v: View, g: string, kept: seq<Channel>, dropped: seq<Channel>, threads: seq<Channel>, v': View)
    requires KeysMatch(v) && ThreadsSynced(v, g, kept, dropped, threads, v')
    ensures KeysMatch(v')
  {
    forall k | k in v'.channelMap
      ensures v'.channelMap[k].id == k
    {
      if HasChannelId(threads, k) {
        var c :| c in threads && c.id == k;
      }
    }
  }

  lemma SyncAtHome(v: View, home: Homes, g: string, kept: seq<Channel>, dropped: seq<Channel>, threads: seq<Channel>,
                   v': View)
    requires AtHome(v.structs, home) && ThreadsSynced(v, g, kept, dropped, threads, v')
    requires Placed(threads, home, InThreads(g))
    ensures AtHome(v'.structs, home)
  {
    assert forall c :: c in kept + threads <==> c in kept || c in threads;
  }

  /** A thread sync keeps the index right. */
  lemma SyncKeepsIndexed(v: View, home: Homes, g: string, kept: seq<Channel>, dropped: seq<Channel>,
                         threads: seq<Channel>, v': View)
    requires Indexed(v, home) && ThreadsSynced(v, g, kept, dropped, threads, v') && g in v.guildMap
    requires Placed(threads, home, InThreads(g)) && (v.guildMap[g] in v.guilds ==> Apart(kept, threads))
    ensures Indexed(v', home)
  {
    SyncKeys(v, g, kept, dropped, threads, v');
    SyncAtHome(v, home, g, kept, dropped, threads, v');
    SyncedElsewhere(v.channelMap, dropped, threads, v'.channelMap, home, InThreads(g));
    forall x | x in v.guilds
      ensures x.id in v'.structs && DataOk(x.id, v'.structs[x.id], v'.channelMap, v'.memberMap, home)
    {
      if x.id == g {
        var slice := v'.structs[g].threads;
        SyncedOk(g, v.structs[g], kept, dropped, threads, slice, v.channelMap, v.memberMap, home, v'.channelMap);
      } else {
        DataKept(x.id, v.structs[x.id], v.channelMap, v.memberMap, home, v'.channelMap, v'.memberMap);
      }
    }
  }

  /** With the guild listed, two threads of one id cannot both be found through the index. */
  lemma SyncClash(v: View, home: Homes, g: string, kept: seq<Channel>, dropped: seq<Channel>, threads: seq<Channel>,
                  v': View)
    requires ThreadsSynced(v, g, kept, dropped, threads, v') && g in v.guildMap && v.guildMap[g] in v.guilds
    requires v.guildMap[g].id == g
    requires !Apart(kept, threads)
    ensures !Indexed(v', home)
  {
    var x, y :| x in kept && y in threads && x.id == y.id;
    var i :| 0 <= i < |kept| && kept[i] == x;
    var j :| 0 <= j < |threads| && threads[j] == y;
    var all := kept + threads;
    assert all[i] == x && all[|kept| + j] == y;
    assert !DistinctChannels(Elems(v'.structs[g].threads));
  }

  /** The index is right after a thread sync exactly when the guild is not listed any more or no synced thread
      has the id of a kept one. */
  lemma SyncIndexedExactly(v: View, home: Homes, g: string, kept: seq<Channel>, dropped: seq<Channel>,
                           threads: seq<Channel>, v': View)
    requires Indexed(v, home) && ThreadsSynced(v, g, kept, dropped, threads, v') && g in v.guildMap
    requires Placed(threads, home, InThreads(g))
    ensures Indexed(v', home) <==> v.guildMap[g] !in v.guilds || Apart(kept, threads)
  {
    if v.guildMap[g] !in v.guilds || Apart(kept, threads) {
      SyncKeepsIndexed(v, home, g, kept, dropped, threads, v');
    } else {
      SyncClash(v, home, g, kept, dropped, threads, v');
    }
  }

  lemma SyncKeepsListed(v: View, home: Homes, g: string, kept: seq<Channel>, dropped: seq<Channel>,
                        threads: seq<Channel>, v': View)
    requires KeysMatch(v) && ChannelsListed(v.private, v.structs, v.channelMap, home)
    requires ThreadsSynced(v, g, kept, dropped, threads, v')
    requires Placed(threads, home, InThreads(g))
    ensures ChannelsListed(v'.private, v'.structs, v'.channelMap, home)
  {
    forall k | k in v'.channelMap
      ensures ChannelListed(v'.channelMap[k], home(k), v'.private, v'.structs)
    {
      if HasChannelId(threads, k) {
        var c :| c in threads && c.id == k;
        assert c in kept + threads;
      } else {
        var c := v.channelMap[k];
        assert ChannelListed(c, home(k), v.private, v.structs);
        if home(k) == InThreads(g) {
          assert c !in dropped;
          assert c in kept + threads;
        }
      }
    }
  }

  /** And exact if it was. */
  lemma SyncKeepsExact(v: View, home: Homes, g: string, kept: seq<Channel>, dropped: seq<Channel>,
                       threads: seq<Channel>, v': View)
    requires KeysMatch(v) && Exact(v, home) && ThreadsSynced(v, g, kept, dropped, threads, v')
    requires Placed(threads, home, InThreads(g))
    ensures Exact(v', home)
  {
    SyncKeepsListed(v, home, g, kept, dropped, threads, v');
    MembersStayListed(v.structs, v.memberMap, v'.structs);
  }

  // ---- onReady ----

  /** The channels of all guilds, threads not among them. */
  ghost function ReadyChannels(guilds: seq<Guild>, ds: map<string, GuildData>): seq<Channel>
    requires forall g :: g in guilds ==> g.id in ds
  {
    if guilds == [] then []
    else
      var n := |guilds| - 1;
      assert guilds[n] in guilds;
      ReadyChannels(guilds[..n], ds) + Elems(ds[guilds[n].id].channels)
  }

  /** The guild map after these guilds have been entered. */
  ghost predicate GuildsEntered(gm: map<string, Guild>, guilds: seq<Guild>, gm': map<string, Guild>) {
    && (forall g :: g in guilds ==> g.id in gm' && gm'[g.id] == g)
    && (forall k :: k in gm && !HasGuildId(guilds, k) ==> k in gm' && gm'[k] == gm[k])
    && (forall k :: k in gm' ==> k in gm || HasGuildId(guilds, k))
  }

  /** The member map after a new index for each of these guilds. */
  ghost predicate IndexesEntered(mm: MemberIndexes, guilds: seq<Guild>, ds: map<string, GuildData>, mm': MemberIndexes)
    requires forall g :: g in guilds ==> g.id in ds
  {
    && (forall g :: g in guilds ==> g.id in mm' && IndexOf(Elems(ds[g.id].members), mm'[g.id]))
    && (forall k :: k in mm && !HasGuildId(guilds, k) ==> k in mm' && mm'[k] == mm[k])
    && (forall k :: k in mm' ==> k in mm || HasGuildId(guilds, k))
  }

  ghost predicate HasGuildId(guilds: seq<Guild>, id: string) {
    exists g :: g in guilds && g.id == id
  }

  /** The content after a READY: its lists replace the old ones, its guilds, channels and private channels
      are entered in the maps, its threads are not. */
  ghost predicate ReadyTaken(v: View, v': View) {
    && (forall g :: g in v'.guilds ==> g.id in v'.structs)
    && GuildsEntered(v.guildMap, v'.guilds, v'.guildMap)
    && IndexesEntered(v.memberMap, v'.guilds, v'.structs, v'.memberMap)
    && v'.structs.Keys == v'.guildMap.Keys
    && (forall k :: k in v.structs && !HasGuildId(v'.guilds, k) ==> k in v'.structs && v'.structs[k] == v.structs[k])
    && Entered(v.channelMap, ReadyChannels(v'.guilds, v'.structs) + v'.private, v'.channelMap)
  }

  /** What a READY brings: distinct guilds that are each as a guild event, and channels at home. */
  ghost predicate ReadyEvent(guilds: seq<Guild>, ds: map<string, GuildData>, private: seq<Channel>, home: Homes) {
    && DistinctGuilds(guilds) && Placed(private, home, Private)
    && forall g :: g in guilds ==> g.id in ds && GuildEvent(g.id, ds[g.id], home)
  }

  ghost predicate NoThreads(guilds: seq<Guild>, ds: map<string, GuildData>) {
    forall g :: g in guilds ==> g.id in ds && Elems(ds[g.id].threads) == []
  }

  /** The threads a READY brings are new objects. */
  ghost predicate NewThreads(cm: ChannelIndex, guilds: seq<Guild>, ds: map<string, GuildData>) {
    forall g, t :: g in guilds && g.id in ds && t in Elems(ds[g.id].threads) && t.id in cm ==> cm[t.id] != t
  }

  lemma {:induction false} InReadyChannels(guilds: seq<Guild>, ds: map<string, GuildData>, c: Channel)
    requires forall g :: g in guilds ==> g.id in ds
    ensures c in ReadyChannels(guilds, ds) <==> exists g :: g in guilds && c in Elems(ds[g.id].channels)
  {
    if guilds != [] {
      var n := |guilds| - 1;
      assert guilds == guilds[..n] + [guilds[n]];
      InReadyChannels(guilds[..n], ds, c);
    }
  }

  /** None of the channels a READY enters is at home in a thread list. */
  lemma ReadyEntersNoThread(v': View, home: Homes, c: Channel)
    requires ReadyEvent(v'.guilds, v'.structs, v'.private, home)
    requires c in ReadyChannels(v'.guilds, v'.structs) + v'.private
    ensures !home(c.id).InThreads?
  {
    InReadyChannels(v'.guilds, v'.structs, c);
  }

  lemma ReadyGuild(v: View, v': View, home: Homes, g: Guild)
    requires ReadyTaken(v, v') && ReadyEvent(v'.guilds, v'.structs, v'.private, home) && g in v'.guilds
    requires Elems(v'.structs[g.id].threads) == []
    ensures DataOk(g.id, v'.structs[g.id], v'.channelMap, v'.memberMap, home)
  {
    var d := v'.structs[g.id];
    forall c | c in Elems(d.channels)
      ensures c.id in v'.channelMap && v'.channelMap[c.id] == c
    {
      InReadyChannels(v'.guilds, v'.structs, c);
      assert c in ReadyChannels(v'.guilds, v'.structs) + v'.private;
    }
  }

  lemma ReadyKeys(v: View, v': View)
    requires KeysMatch(v) && ReadyTaken(v, v')
    ensures KeysMatch(v')
  {
    EnteredKeys(v.channelMap, ReadyChannels(v'.guilds, v'.structs) + v'.private, v'.channelMap);
    forall k | k in v'.guildMap
      ensures v'.guildMap[k].id == k
    {
      if HasGuildId(v'.guilds, k) {
        var g :| g in v'.guilds && g.id == k;
      }
    }
    forall k, u | k in v'.memberMap && u in v'.memberMap[k]
      ensures v'.memberMap[k][u].user == u
    {
      if HasGuildId(v'.guilds, k) {
        var g :| g in v'.guilds && g.id == k;
      }
    }
  }

  lemma ReadyPrivate(v: View, v': View)
    requires ReadyTaken(v, v')
    ensures ChannelsIndexed(v'.private, v'.channelMap)
  {
    forall c | c in v'.private
      ensures c.id in v'.channelMap && v'.channelMap[c.id] == c
    {
      assert c in ReadyChannels(v'.guilds, v'.structs) + v'.private;
    }
  }

  lemma ReadyAtHome(v: View, v': View, home: Homes)
    requires AtHome(v.structs, home) && KeysMatch(v) && ReadyTaken(v, v')
    requires ReadyEvent(v'.guilds, v'.structs, v'.private, home)
    ensures AtHome(v'.structs, home)
  {
    forall k | k in v'.structs
      ensures forall c :: c in Elems(v'.structs[k].channels) ==> home(c.id) == InGuild(k)
      ensures forall c :: c in Elems(v'.structs[k].threads) ==> home(c.id) == InThreads(k)
    {
      if HasGuildId(v'.guilds, k) {
        var g :| g in v'.guilds && g.id == k;
      }
    }
  }

  lemma ReadyIndexed(v: View, v': View, home: Homes)
    requires KeysMatch(v) && AtHome(v.structs, home) && ReadyTaken(v, v')
    requires ReadyEvent(v'.guilds, v'.structs, v'.private, home)
    requires NoThreads(v'.guilds, v'.structs)
    ensures Indexed(v', home)
  {
    ReadyAtHome(v, v', home);
    ReadyKeys(v, v');
    ReadyPrivate(v, v');
    forall g | g in v'.guilds
      ensures g.id in v'.structs && DataOk(g.id, v'.structs[g.id], v'.channelMap, v'.memberMap, home)
    {
      ReadyGuild(v, v', home, g);
    }
  }

  /** The index is right after a READY exactly when no guild in it brings a thread, given that threads are
      new objects. */
  lemma ReadyIndexedExactly(v: View, v': View, home: Homes)
    requires KeysMatch(v) && AtHome(v.structs, home) && ReadyTaken(v, v')
    requires ReadyEvent(v'.guilds, v'.structs, v'.private, home)
    requires NewThreads(v.channelMap, v'.guilds, v'.structs)
    ensures Indexed(v', home) <==> NoThreads(v'.guilds, v'.structs)
  {
    if NoThreads(v'.guilds, v'.structs) {
      ReadyIndexed(v, v', home);
    } else {
      var g :| g in v'.guilds && Elems(v'.structs[g.id].threads) != [];
      ReadyThreadMissed(v, v', home, g);
    }
  }

  lemma ReadyThreadMissed(v: View, v': View, home: Homes, g: Guild)
    requires ReadyTaken(v, v') && ReadyEvent(v'.guilds, v'.structs, v'.private, home)
    requires g in v'.guilds && Elems(v'.structs[g.id].threads) != []
    requires forall t :: t in Elems(v'.structs[g.id].threads) && t.id in v.channelMap ==> v.channelMap[t.id] != t
    ensures !ChannelsIndexed(Elems(v'.structs[g.id].threads), v'.channelMap)
  {
    var t := Elems(v'.structs[g.id].threads)[0];
    assert t in Elems(v'.structs[g.id].threads) && home(t.id) == InThreads(g.id);
    var all := ReadyChannels(v'.guilds, v'.structs) + v'.private;
    forall c | c in all
      ensures c.id != t.id
    {
      ReadyEntersNoThread(v', home, c);
    }
  }

  lemma ReadyListed(v': View, home: Homes, c: Channel)
    requires ReadyEvent(v'.guilds, v'.structs, v'.private, home)
    requires c in ReadyChannels(v'.guilds, v'.structs) + v'.private
    ensures ChannelListed(c, home(c.id), v'.private, v'.structs)
  {
    if c !in v'.private {
      InReadyChannels(v'.guilds, v'.structs, c);
      var g :| g in v'.guilds && c in Elems(v'.structs[g.id].channels);
      assert home(c.id) == InGuild(g.id);
    }
  }

  lemma FirstReadyChannels(v': View, home: Homes)
    requires ReadyEvent(v'.guilds, v'.structs, v'.private, home)
    requires Entered(map[], ReadyChannels(v'.guilds, v'.structs) + v'.private, v'.channelMap)
    ensures ChannelsListed(v'.private, v'.structs, v'.channelMap, home)
  {
    var all := ReadyChannels(v'.guilds, v'.structs) + v'.private;
    forall k | k in v'.channelMap
      ensures ChannelListed(v'.channelMap[k], home(k), v'.private, v'.structs)
    {
      var c :| c in all && c.id == k;
      ReadyListed(v', home, c);
    }
  }

  lemma FirstReadyMembers(v': View)
    requires forall g :: g in v'.guilds ==> g.id in v'.structs
    requires GuildsEntered(map[], v'.guilds, v'.guildMap) && IndexesEntered(map[], v'.guilds, v'.structs, v'.memberMap)
    ensures MembersListed(v'.structs, v'.memberMap) && forall k :: k in v'.guildMap ==> v'.guildMap[k] in v'.guilds
  {
    forall k | HasGuildId(v'.guilds, k)
      ensures k in v'.structs && k in v'.guildMap && v'.guildMap[k] in v'.guilds
      ensures k in v'.memberMap && IndexOf(Elems(v'.structs[k].members), v'.memberMap[k])
    {
      var g :| g in v'.guilds && g.id == k;
    }
  }

  /** Nothing has been cached yet. */
  predicate Untouched(v: View) {
    v.guildMap == map[] && v.channelMap == map[] && v.memberMap == map[]
  }

  /** A first READY makes the index exact. */
  lemma FirstReadyExact(v: View, v': View, home: Homes)
    requires Untouched(v)
    requires ReadyTaken(v, v') && ReadyEvent(v'.guilds, v'.structs, v'.private, home)
    ensures Exact(v', home)
  {
    FirstReadyChannels(v', home);
    FirstReadyMembers(v');
  }

  /** The parts of a READY put together. */
  lemma ReadyAssembled(v: View, v': View, ds: map<string, GuildData>)
    requires GuildsEntered(v.guildMap, v'.guilds, v'.guildMap) && v'.structs.Keys == v'.guildMap.Keys
    requires v.structs.Keys == v.guildMap.Keys
    requires forall g :: g in v'.guilds ==> g.id in ds && g.id in v'.structs && v'.structs[g.id] == ds[g.id]
    requires forall k :: k in v.structs && !HasGuildId(v'.guilds, k) ==>
            k in v'.structs && v'.structs[k] == v.structs[k]
    requires IndexesEntered(v.memberMap, v'.guilds, ds, v'.memberMap)
    requires Entered(v.channelMap, ReadyChannels(v'.guilds, ds) + v'.private, v'.channelMap)
    ensures ReadyTaken(v, v')
  {
    SameReady(v'.guilds, ds, v'.structs);
  }

  lemma {:induction false} SameReady(list: seq<Guild>, ds: map<string, GuildData>, ds': map<string, GuildData>)
    requires forall g :: g in list ==> g.id in ds && g.id in ds' && ds'[g.id] == ds[g.id]
    ensures ReadyChannels(list, ds') == ReadyChannels(list, ds)
  {
    if list != [] {
      SameReady(list[..|list| - 1], ds, ds');
    }
  }

  /** With the state cache disabled a READY only empties the lists. */
  lemma EmptiedIndexed(v: View, home: Homes)
    requires Indexed(v, home)
    ensures Indexed(v.(guilds := [], private := []), home)
  {
  }
}
