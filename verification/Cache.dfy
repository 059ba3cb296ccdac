/** The state cache itself (discordgo/state.go): every method runs under the cache's lock and is tied to a
    step on the cache's content, which keeps the index and the lists in agreement. */
module Cache {
  import opened Outcome
  import opened Messages
  import opened CacheLists
  import opened CacheView
  import opened CacheSteps
  import opened CacheRuns

  /** The structs the guild index points to. */
  ghost function Structs(gm: map<string, Guild>): map<string, GuildData>
    reads gm.Values
  {
    map k | k in gm :: gm[k].data
  }

  // ---- loops over lists ----

  method EnterMembers(id: string, members: Option<seq<Member>>, mm: MemberIndexes) returns (mm': MemberIndexes)
    requires DistinctMembers(Elems(members))
    ensures MembersEntered(id, members, mm, mm')
  {
    if members.Some? {
      var m := IndexMembers(members.value);
      mm' := mm[id := m];
    } else if id !in mm {
      mm' := mm[id := map[]];
    } else {
      mm' := mm;
    }
  }

  /** A thread's id and what its member entry becomes. */
  type ThreadMember = (string, string)

  /** The source dereferences the metadata of every cached thread. */
  predicate HaveMetadata(threads: seq<Channel>)
    reads threads
  {
    forall t :: t in threads ==> t.data.archived.Some?
  }

  /** A thread stays in a sync of these parent channels, or of the whole guild if there are none. */
  predicate Stays(d: ChannelData, channelIDs: Option<seq<string>>) {
    d.archived == Some(false) && channelIDs.Some? && d.parentID !in channelIDs.value
  }

  /** A thread goes when it is archived, when the sync is of the whole guild, or when its parent is one of the
      channels synced. */
  predicate Goes(d: ChannelData, channelIDs: Option<seq<string>>) {
    d.archived != Some(false) || channelIDs == None || d.parentID in channelIDs.value
  }

  /** The threads that stay, or the others, in order. */
  function Select(list: seq<Channel>, channelIDs: Option<seq<string>>, stays: bool): seq<Channel>
    reads list
  {
    if list == [] then []
    else
      var n := |list| - 1;
      Select(list[..n], channelIDs, stays) + (if Stays(list[n].data, channelIDs) == stays then [list[n]] else [])
  }

  lemma {:induction false} SelectHas(list: seq<Channel>, channelIDs: Option<seq<string>>, stays: bool, c: Channel)
    ensures c in Select(list, channelIDs, stays) <==> c in list && Stays(c.data, channelIDs) == stays
  {
    if list != [] {
      var n := |list| - 1;
      assert list == list[..n] + [list[n]];
      SelectHas(list[..n], channelIDs, stays, c);
    }
  }

  /** The kept threads are those that do not go, the dropped ones the others. */
  ghost predicate Divided(list: seq<Channel>, channelIDs: Option<seq<string>>, kept: seq<Channel>,
                          dropped: seq<Channel>)
    reads list
  {
    forall t :: t in list ==>
      (t in kept <==> !Goes(t.data, channelIDs)) && (t in dropped <==> Goes(t.data, channelIDs))
  }

  lemma SelectDivides(list: seq<Channel>, channelIDs: Option<seq<string>>)
    ensures Divided(list, channelIDs, Select(list, channelIDs, true), Select(list, channelIDs, false))
  {
    forall t | t in list
      ensures t in Select(list, channelIDs, true) <==> !Goes(t.data, channelIDs)
      ensures t in Select(list, channelIDs, false) <==> Goes(t.data, channelIDs)
    {
      SelectHas(list, channelIDs, true, t);
      SelectHas(list, channelIDs, false, t);
    }
  }

  lemma {:induction false} SelectDistinct(list: seq<Channel>, channelIDs: Option<seq<string>>, stays: bool)
    requires DistinctChannels(list)
    ensures DistinctChannels(Select(list, channelIDs, stays))
  {
    if list != [] {
      var n := |list| - 1;
      SelectDistinct(list[..n], channelIDs, stays);
      forall c | c in Select(list[..n], channelIDs, stays)
        ensures c.id != list[n].id
      {
        SelectHas(list[..n], channelIDs, stays, c);
        var j :| 0 <= j < n && list[j] == c;
      }
      var s := Select(list[..n], channelIDs, stays);
      assert forall i :: 0 <= i < |s| ==> s[i] in s;
    }
  }

  lemma DifferentIds(list: seq<Channel>, x: Channel, y: Channel)
    requires DistinctChannels(list) && x in list && y in list && x != y
    ensures x.id != y.id
  {
    var i :| 0 <= i < |list| && list[i] == x;
    var j :| 0 <= j < |list| && list[j] == y;
  }

  /** The two selections divide the list. */
  lemma SelectSplits(list: seq<Channel>, channelIDs: Option<seq<string>>)
    ensures Split(list, Select(list, channelIDs, true), Select(list, channelIDs, false))
  {
    forall c | c in list || c in Select(list, channelIDs, true) || c in Select(list, channelIDs, false)
      ensures c in Select(list, channelIDs, true) <==> c in list && Stays(c.data, channelIDs)
      ensures c in Select(list, channelIDs, false) <==> c in list && !Stays(c.data, channelIDs)
    {
      SelectHas(list, channelIDs, true, c);
      SelectHas(list, channelIDs, false, c);
    }
    if DistinctChannels(list) {
      SelectDistinct(list, channelIDs, true);
      forall x, y | x in Select(list, channelIDs, true) && y in Select(list, channelIDs, false)
        ensures x.id != y.id
      {
        SelectHas(list, channelIDs, true, x);
        SelectHas(list, channelIDs, false, y);
        DifferentIds(list, x, y);
      }
    }
  }

  method Contains(list: seq<string>, x: string) returns (found: bool)
    ensures found == (x in list)
  {
    for i := 0 to |list|
      invariant x !in list[..i]
    {
      if list[i] == x {
        return true;
      }
    }
    return false;
  }

  /** The index without the entries of these channels. */
  ghost predicate Deleted(cm: ChannelIndex, dropped: seq<Channel>, cm': ChannelIndex) {
    && (forall k :: k in cm' <==> k in cm && !HasChannelId(dropped, k))
    && (forall k :: k in cm' ==> cm'[k] == cm[k])
  }

  lemma DeleteOne(cm: ChannelIndex, dropped: seq<Channel>, cm': ChannelIndex, t: Channel)
    requires Deleted(cm, dropped, cm')
    ensures Deleted(cm, dropped + [t], cm' - {t.id})
  {
    HasAppendAll(dropped, t);
  }

  method StaysHere(t: Channel, channelIDs: Option<seq<string>>) returns (stays: bool)
    requires t.data.archived.Some?
    ensures stays == Stays(t.data, channelIDs)
  {
    if t.data.archived.value || channelIDs.None? {
      return false;
    }
    var child := Contains(channelIDs.value, t.data.parentID);
    return !child;
  }

  /** The compaction loop of ThreadListSync, which writes the threads that stay to the front of the array it
      reads from and deletes the others from the index. */
  method Compact(a: array<Channel>, channelIDs: Option<seq<string>>, cm: ChannelIndex)
    returns (index: nat, cm': ChannelIndex)
    requires forall i :: 0 <= i < a.Length ==> a[i].data.archived.Some?
    modifies a
    ensures index <= a.Length && a[..index] == Select(old(a[..]), channelIDs, true)
    ensures Deleted(cm, Select(old(a[..]), channelIDs, false), cm')
  {
    ghost var list := a[..];
    ghost var kept: seq<Channel>, dropped: seq<Channel> := [], [];
    index, cm' := 0, cm;
    for i := 0 to a.Length
      invariant index <= i && a[i..] == list[i..] && a[..index] == kept
      invariant old(Select(list[..i], channelIDs, true)) == kept && old(Select(list[..i], channelIDs, false)) == dropped
      invariant Deleted(cm, dropped, cm')
    {
      var t := a[i];
      assert t == a[i..][0] == list[i];
      assert list[..i + 1][..i] == list[..i];
      var stays := StaysHere(t, channelIDs);
      if stays {
        PutBack(a, index, i, t);
        index, kept := index + 1, kept + [t];
      } else {
        DeleteOne(cm, dropped, cm', t);
        dropped, cm' := dropped + [t], cm' - {t.id};
      }
    }
    assert list[..a.Length] == list;
  }

  /** The write of the loop leaves what is still to be read alone. */
  method PutBack(a: array<Channel>, index: nat, i: nat, t: Channel)
    requires index <= i < a.Length
    modifies a
    ensures a[..index + 1] == old(a[..index]) + [t] && a[i + 1..] == old(a[i..])[1..]
  {
    a[index] := t;
  }

  lemma HasAppendAll(list: seq<Channel>, c: Channel)
    ensures forall k :: HasChannelId(list + [c], k) <==> HasChannelId(list, k) || k == c.id
  {
    forall k
      ensures HasChannelId(list + [c], k) <==> HasChannelId(list, k) || k == c.id
    {
      HasAppend(list, c, k);
    }
  }

  lemma DeletedThenEntered(cm: ChannelIndex, dropped: seq<Channel>, cm1: ChannelIndex, threads: seq<Channel>,
                           cm2: ChannelIndex)
    requires Deleted(cm, dropped, cm1) && Entered(cm1, threads, cm2)
    ensures Synced(cm, dropped, threads, cm2)
  {
  }

  /** Overwriting one guild's struct changes that guild's entry only. */
  lemma OneStruct(gm: map<string, Guild>, ds: map<string, GuildData>, id: string)
    requires id in gm && ds.Keys == gm.Keys && forall k :: k in gm && k != id ==> gm[k].data == ds[k]
    ensures Structs(gm) == ds[id := gm[id].data]
  {
  }

  /** What `*c = *channel` writes. */
  function PreserveChannel(update: ChannelData, present: ChannelData): ChannelData {
    update.(messages := Later(update.messages, present.messages),
            overwrites := Later(update.overwrites, present.overwrites),
            archived := Later(update.archived, present.archived))
  }

  /** What a channel keeps through an event: its messages, overwrites and thread metadata if the event has none. */
  ghost predicate ChannelSurvives(before: ChannelData, event: ChannelData, after: ChannelData) {
    && after.guildID == event.guildID && after.kind == event.kind && after.parentID == event.parentID
    && after.name == event.name && after.member == event.member
    && Taken(before.messages, event.messages, after.messages)
    && Taken(before.overwrites, event.overwrites, after.overwrites)
    && Taken(before.archived, event.archived, after.archived)
  }

  /** `*m = *member`. */
  method OverwriteMember(m: Member, member: Member)
    requires m.user == member.user
    modifies m, member
    ensures m.data == old(member.data).(joinedAt := Later(old(member.data).joinedAt, old(m.data).joinedAt))
  {
    if member.data.joinedAt.None? {
      member.data := member.data.(joinedAt := m.data.joinedAt);
    }
    m.data := member.data;
  }

  /** `*c = *channel`. */
  method OverwriteChannel(c: Channel, channel: Channel)
    requires c.id == channel.id
    modifies c, channel
    ensures c.data == PreserveChannel(old(channel.data), old(c.data))
  {
    if channel.data.messages.None? {
      channel.data := channel.data.(messages := c.data.messages);
    }
    if channel.data.overwrites.None? {
      channel.data := channel.data.(overwrites := c.data.overwrites);
    }
    if channel.data.archived.None? {
      channel.data := channel.data.(archived := c.data.archived);
    }
    c.data := channel.data;
  }

  /** `*g = *guild`, field by field what the event does not carry. */
  method OverwriteGuild(g: Guild, guild: Guild)
    requires g.id == guild.id
    modifies g, guild
    ensures g.data == Preserve(old(guild.data), old(g.data))
  {
    guild.data := Preserve(guild.data, g.data);
    g.data := guild.data;
  }

  method RemoveChannel(list: Option<seq<Channel>>, id: string) returns (rest: Option<seq<Channel>>)
    ensures rest == CutChannel(list, id)
  {
    var i := Find(ChannelIds(Elems(list)), id);
    rest := if i < |Elems(list)| then Some(Elems(list)[..i] + Elems(list)[i + 1..]) else list;
  }

  /** The structs of a list of guilds, by id. */
  ghost function DataOf(list: seq<Guild>): (ds: map<string, GuildData>)
    requires DistinctGuilds(list)
    reads list
    ensures forall g :: g in list ==> g.id in ds && ds[g.id] == g.data
  {
    if list == [] then map[]
    else
      var n := |list| - 1;
      assert list == list[..n] + [list[n]];
      DataOf(list[..n])[list[n].id := list[n].data]
  }

  lemma HasGuildStep(list: seq<Guild>, i: nat)
    requires i < |list| && DistinctGuilds(list)
    ensures forall k :: HasGuildId(list[..i + 1], k) <==> HasGuildId(list[..i], k) || k == list[i].id
    ensures forall x :: x in list[..i + 1] ==> x in list[..i] || x == list[i]
    ensures !HasGuildId(list[..i], list[i].id)
  {
    var g := list[i];
    assert list[..i + 1] == list[..i] + [g];
    forall k
      ensures HasGuildId(list[..i + 1], k) <==> HasGuildId(list[..i], k) || k == g.id
    {
      assert g in list[..i + 1];
      if HasGuildId(list[..i], k) {
        var x :| x in list[..i] && x.id == k;
        assert x in list[..i + 1];
      }
    }
    forall x | x in list[..i]
      ensures x.id != g.id
    {
      var j :| 0 <= j < i && list[j] == x;
    }
  }

  lemma EnterGuildStep(gm: map<string, Guild>, list: seq<Guild>, i: nat, gm': map<string, Guild>)
    requires DistinctGuilds(list) && i < |list| && GuildsEntered(gm, list[..i], gm')
    ensures GuildsEntered(gm, list[..i + 1], gm'[list[i].id := list[i]])
  {
    HasGuildStep(list, i);
  }

  lemma EnterIndexStep(mm: MemberIndexes, list: seq<Guild>, i: nat, ds: map<string, GuildData>, mm': MemberIndexes,
                       members: map<string, Member>)
    requires DistinctGuilds(list) && i < |list| && forall g :: g in list ==> g.id in ds
    requires IndexesEntered(mm, list[..i], ds, mm') && IndexOf(Elems(ds[list[i].id].members), members)
    ensures IndexesEntered(mm, list[..i + 1], ds, mm'[list[i].id := members])
  {
    HasGuildStep(list, i);
  }

  /** The loop of onReady over the guilds, on the guild and member maps. */
  method EnterGuilds(gm: map<string, Guild>, mm: MemberIndexes, list: seq<Guild>)
    returns (gm': map<string, Guild>, mm': MemberIndexes)
    requires DistinctGuilds(list) && forall g :: g in list ==> DistinctMembers(Elems(g.data.members))
    ensures GuildsEntered(gm, list, gm') && IndexesEntered(mm, list, DataOf(list), mm')
  {
    gm', mm' := gm, mm;
    ghost var ds := DataOf(list);
    for i := 0 to |list|
      invariant GuildsEntered(gm, list[..i], gm') && IndexesEntered(mm, list[..i], ds, mm')
    {
      var g := list[i];
      var members := IndexMembers(Elems(g.data.members));
      EnterGuildStep(gm, list, i, gm');
      EnterIndexStep(mm, list, i, ds, mm', members);
      gm' := gm'[g.id := g];
      mm' := mm'[g.id := members];
    }
    assert list[..|list|] == list;
  }

  /** The same loop on the channel map. */
  method EnterReadyChannels(cm: ChannelIndex, list: seq<Guild>, ghost home: Homes) returns (cm': ChannelIndex)
    requires DistinctGuilds(list) && forall g :: g in list ==> Placed(Elems(g.data.channels), home, InGuild(g.id))
    ensures Entered(cm, ReadyChannels(list, DataOf(list)), cm')
  {
    cm' := cm;
    ghost var ds := DataOf(list);
    for i := 0 to |list|
      invariant Entered(cm, ReadyChannels(list[..i], ds), cm')
    {
      var cm1 := cm';
      cm' := EnterChannels(cm1, Elems(list[i].data.channels));
      ReadyChannelsStep(list, i, ds, home);
      EnterTwice(cm, ReadyChannels(list[..i], ds), cm1, Elems(list[i].data.channels), cm');
    }
    assert list[..|list|] == list;
  }

  method EnterReadyLists(cm: ChannelIndex, list: seq<Guild>, private: seq<Channel>, ghost home: Homes)
    returns (cm': ChannelIndex)
    requires DistinctGuilds(list) && forall g :: g in list ==> Placed(Elems(g.data.channels), home, InGuild(g.id))
    requires Placed(private, home, Private)
    ensures Entered(cm, ReadyChannels(list, DataOf(list)) + private, cm')
  {
    var cm1 := EnterReadyChannels(cm, list, home);
    cm' := EnterChannels(cm1, private);
    PrivateApart(list, DataOf(list), private, home);
    EnterTwice(cm, ReadyChannels(list, DataOf(list)), cm1, private, cm');
  }

  lemma ReadyChannelsStep(list: seq<Guild>, i: nat, ds: map<string, GuildData>, home: Homes)
    requires DistinctGuilds(list) && i < |list|
    requires forall g :: g in list ==>
            g.id in ds && ds[g.id] == g.data && Placed(Elems(g.data.channels), home, InGuild(g.id))
    ensures ReadyChannels(list[..i + 1], ds) == ReadyChannels(list[..i], ds) + Elems(list[i].data.channels)
    ensures forall x, y :: x in ReadyChannels(list[..i], ds) && y in Elems(list[i].data.channels) ==> x.id != y.id
  {
    assert list[..i + 1][..i] == list[..i];
    forall x, y | x in ReadyChannels(list[..i], ds) && y in Elems(list[i].data.channels)
      ensures x.id != y.id
    {
      InReadyChannels(list[..i], ds, x);
      var g :| g in list[..i] && x in Elems(ds[g.id].channels);
      var j :| 0 <= j < i && list[j] == g;
      assert home(x.id) == InGuild(g.id) && home(y.id) == InGuild(list[i].id);
    }
  }

  lemma StructsEntered(gm: map<string, Guild>, list: seq<Guild>, gm': map<string, Guild>)
    requires GuildsEntered(gm, list, gm')
    ensures Structs(gm').Keys == gm'.Keys && Structs(gm).Keys == gm.Keys
    ensures forall g :: g in list ==> g.id in Structs(gm') && Structs(gm')[g.id] == g.data
    ensures forall k :: k in Structs(gm) && !HasGuildId(list, k) ==>
            k in Structs(gm') && Structs(gm')[k] == Structs(gm)[k]
  {
  }

  method ReadyMaps(cm: ChannelIndex, gm: map<string, Guild>, mm: MemberIndexes, list: seq<Guild>, private: seq<Channel>,
                   ghost home: Homes)
    returns (cm': ChannelIndex, gm': map<string, Guild>, mm': MemberIndexes)
    requires DistinctGuilds(list) && ReadyEvent(list, DataOf(list), private, home)
    ensures GuildsEntered(gm, list, gm') && IndexesEntered(mm, list, DataOf(list), mm')
    ensures Entered(cm, ReadyChannels(list, DataOf(list)) + private, cm')
  {
    EventGives(list, private, home);
    cm' := EnterReadyLists(cm, list, private, home);
    gm', mm' := EnterGuilds(gm, mm, list);
  }

  lemma EventGives(list: seq<Guild>, private: seq<Channel>, home: Homes)
    requires DistinctGuilds(list) && ReadyEvent(list, DataOf(list), private, home)
    ensures forall g :: g in list ==>
              Placed(Elems(g.data.channels), home, InGuild(g.id)) && DistinctMembers(Elems(g.data.members))
    ensures Placed(private, home, Private)
  {
  }

  ghost predicate AgreesOn(list: seq<Guild>, ds: map<string, GuildData>, ds': map<string, GuildData>) {
    forall g :: g in list ==> g.id in ds && g.id in ds' && ds'[g.id] == ds[g.id]
  }

  lemma ReadyAssembles(v: View, list: seq<Guild>, private: seq<Channel>, gm: map<string, Guild>,
                       cm: ChannelIndex, mm: MemberIndexes)
    requires v.structs == Structs(v.guildMap) && DistinctGuilds(list)
    requires GuildsEntered(v.guildMap, list, gm) && IndexesEntered(v.memberMap, list, DataOf(list), mm)
    requires Entered(v.channelMap, ReadyChannels(list, DataOf(list)) + private, cm)
    ensures ReadyTaken(v, View(list, private, gm, Structs(gm), cm, mm)) && AgreesOn(list, DataOf(list), Structs(gm))
  {
    StructsEntered(v.guildMap, list, gm);
    ReadyAssembled(v, View(list, private, gm, Structs(gm), cm, mm), DataOf(list));
  }

  lemma SameEvent(cm: ChannelIndex, list: seq<Guild>, ds: map<string, GuildData>, ds': map<string, GuildData>,
                  private: seq<Channel>, home: Homes)
    requires AgreesOn(list, ds, ds')
    ensures ReadyEvent(list, ds, private, home) ==> ReadyEvent(list, ds', private, home)
    ensures NewThreads(cm, list, ds) ==> NewThreads(cm, list, ds')
    ensures NoThreads(list, ds) <==> NoThreads(list, ds')
  {
  }

  lemma ReadyOutcome(v: View, v': View, home: Homes, ds: map<string, GuildData>)
    requires Indexed(v, home) && ReadyTaken(v, v') && ReadyEvent(v'.guilds, ds, v'.private, home)
    requires NewThreads(v.channelMap, v'.guilds, ds)
    requires AgreesOn(v'.guilds, ds, v'.structs)
    ensures Indexed(v', home) <==> NoThreads(v'.guilds, ds)
    ensures Untouched(v) ==> Exact(v', home)
  {
    SameEvent(v.channelMap, v'.guilds, ds, v'.structs, v'.private, home);
    ReadyIndexedExactly(v, v', home);
    if Untouched(v) {
      FirstReadyExact(v, v', home);
    }
  }

  class State {
    ghost const home: Homes
    var guilds: seq<Guild>
    var privateChannels: seq<Channel>
    var guildMap: map<string, Guild>
    var channelMap: ChannelIndex
    var memberMap: MemberIndexes

    ghost function Now(): View
      reads this, guildMap.Values
    {
      View(guilds, privateChannels, guildMap, Structs(guildMap), channelMap, memberMap)
    }

    ghost predicate Valid()
      reads this, guildMap.Values
    {
      Indexed(Now(), home)
    }

    ghost predicate IsExact()
      reads this, guildMap.Values
    {
      Exact(Now(), home)
    }

    ghost predicate IdsMatch()
      reads this, guildMap.Values
    {
      forall k :: k in guildMap ==> guildMap[k].id == k
    }

    constructor (ghost home: Homes)
      ensures Valid() && IsExact() && this.home == home
    {
      this.home := home;
      guilds, privateChannels, guildMap, channelMap, memberMap := [], [], map[], map[], map[];
    }

    // ---- ready ----

    /** With the state cache disabled a READY only empties the lists. Otherwise the index ends up right
        exactly when no guild brings threads, which are not entered. */
    method OnReady(stateEnabled: bool, list: seq<Guild>, private: seq<Channel>)
      requires Valid() && DistinctGuilds(list) && ReadyEvent(list, DataOf(list), private, home)
      requires NewThreads(channelMap, list, DataOf(list))
      modifies this
      ensures !stateEnabled ==> Valid() && Now() == old(Now()).(guilds := [], private := [])
      ensures stateEnabled ==> ReadyTaken(old(Now()), Now()) && guilds == list && privateChannels == private
      ensures stateEnabled ==> (Valid() <==> NoThreads(list, DataOf(list)))
      ensures stateEnabled && old(Untouched(Now())) ==> IsExact()
      ensures stateEnabled && NoThreads(list, DataOf(list)) ==> Takes(old(Now()), Ready, Now(), home)
      ensures !stateEnabled ==> Takes(old(Now()), ReadyDisabled, Now(), home)
    {
      if stateEnabled {
        TakeReady(list, private);
      } else {
        EmptiedIndexed(Now(), home);
        guilds, privateChannels := [], [];
      }
    }

    method TakeReady(list: seq<Guild>, private: seq<Channel>)
      requires Valid() && DistinctGuilds(list) && ReadyEvent(list, DataOf(list), private, home)
      requires NewThreads(channelMap, list, DataOf(list))
      modifies this
      ensures ReadyTaken(old(Now()), Now()) && guilds == list && privateChannels == private
      ensures Valid() <==> NoThreads(list, DataOf(list))
      ensures old(Untouched(Now())) ==> IsExact()
    {
      ghost var v, ds := Now(), DataOf(list);
      EnterReady(list, private);
      ReadyOutcome(v, Now(), home, ds);
    }

    /** The fields of `*r` and the filled maps. */
    method SetAll(list: seq<Guild>, private: seq<Channel>, gm: map<string, Guild>, cm: ChannelIndex, mm: MemberIndexes)
      modifies this
      ensures Now() == View(list, private, gm, old(Structs(gm)), cm, mm)
    {
      guilds, privateChannels, guildMap, channelMap, memberMap := list, private, gm, cm, mm;
    }

    method EnterReady(list: seq<Guild>, private: seq<Channel>)
      requires DistinctGuilds(list) && ReadyEvent(list, DataOf(list), private, home)
      modifies this
      ensures ReadyTaken(old(Now()), Now()) && guilds == list && privateChannels == private
      ensures AgreesOn(list, DataOf(list), Structs(guildMap))
    {
      ghost var v := Now();
      var cm, gm, mm := ReadyMaps(channelMap, guildMap, memberMap, list, private, home);
      ReadyAssembles(v, list, private, gm, cm, mm);
      SetAll(list, private, gm, cm, mm);
    }

    // ---- guilds ----

    /** A cached guild is overwritten in place, keeping what the event does not carry; another is appended. */
    method GuildAdd(guild: Guild)
      requires Valid() && GuildEvent(guild.id, guild.data, home)
      modifies this, guild, if guild.id in guildMap then {guildMap[guild.id]} else {}
      ensures Valid() && GuildAdded(old(Now()), guild, old(guild.data), Now())
      ensures guild.id in old(guildMap) ==>
                var g := old(guildMap[guild.id]);
                Survives(old(g.data), old(guild.data), g.data) && guildMap == old(guildMap) && guilds == old(guilds)
      ensures guild.id !in old(guildMap) ==>
                guild.data == old(guild.data) && guildMap == old(guildMap)[guild.id := guild]
                && guilds == old(guilds) + [guild]
      ensures guild.id !in old(guildMap) && old(IsExact()) ==> IsExact()
      ensures Takes(old(Now()), GuildSeen(guild, old(guild.data)), Now(), home)
    {
      ghost var v, d := Now(), guild.data;
      StoreGuild(guild);
      GuildAddKeepsIndexed(v, home, guild, d, Now());
      if guild.id !in v.guildMap && Exact(v, home) {
        GuildAddKeepsExact(v, home, guild, d, Now());
      }
    }

    method StoreGuild(guild: Guild)
      requires IdsMatch() && GuildEvent(guild.id, guild.data, home)
      modifies this, guild, if guild.id in guildMap then {guildMap[guild.id]} else {}
      ensures GuildAdded(old(Now()), guild, old(guild.data), Now())
    {
      ghost var ds := Structs(guildMap);
      channelMap := EnterLists(channelMap, Elems(guild.data.channels), Elems(guild.data.threads));
      memberMap := EnterMembers(guild.id, guild.data.members, memberMap);
      if guild.id in guildMap {
        OverwriteGuild(guildMap[guild.id], guild);
        OneStruct(guildMap, ds, guild.id);
      } else {
        guilds := guilds + [guild];
        guildMap := guildMap[guild.id := guild];
        OneStruct(guildMap, ds[guild.id := guild.data], guild.id);
      }
    }

    /** Only the first guild of that id is taken out of the list; there is no other. */
    method GuildRemove(id: string) returns (found: bool)
      requires Valid()
      modifies this`guilds, this`guildMap
      ensures Valid() && found == (id in old(guildMap))
      ensures Now() == if found then GuildDropped(old(Now()), id) else old(Now())
      ensures Takes(old(Now()), if found then GuildGone(id) else Overwritten, Now(), home)
    {
      found := id in guildMap;
      if found {
        GuildDropKeepsIndexed(Now(), home, id);
        CutGuildOut(id);
      }
    }

    method CutGuildOut(id: string)
      requires id in guildMap
      modifies this`guilds, this`guildMap
      ensures Now() == GuildDropped(old(Now()), id)
    {
      ghost var ds := Structs(guildMap);
      guildMap := guildMap - {id};
      assert Structs(guildMap) == ds - {id};
      var i := Find(GuildIds(guilds), id);
      if i < |guilds| {
        guilds := guilds[..i] + guilds[i + 1..];
      }
    }

    // ---- members ----

    /** A cached member is overwritten in place, keeping its join date if the event has none; another one is
        appended to its guild. */
    method MemberAdd(member: Member) returns (ok: bool)
      requires Valid()
      modifies this`memberMap, member, if member.data.guildID in guildMap then {guildMap[member.data.guildID]} else {}
      modifies
        if member.data.guildID in memberMap && member.user in memberMap[member.data.guildID]
        then {memberMap[member.data.guildID][member.user]}
        else {}
      ensures Valid() && (old(IsExact()) ==> IsExact())
      ensures ok == (old(member.data.guildID) in guildMap && old(member.data.guildID) in old(memberMap))
      ensures !ok ==> Now() == old(Now()) && member.data == old(member.data)
      ensures ok && member.user !in old(memberMap)[old(member.data.guildID)] ==>
                Now() == MemberPut(old(Now()), old(member.data.guildID), member) && member.data == old(member.data)
      ensures ok && member.user in old(memberMap)[old(member.data.guildID)] ==>
                var m := old(memberMap[member.data.guildID][member.user]);
                && Now() == old(Now()) && m.data == old(member.data).(joinedAt := m.data.joinedAt)
                && Taken(old(m.data).joinedAt, old(member.data).joinedAt, m.data.joinedAt)
      ensures var unseen := ok && member.user !in old(memberMap)[old(member.data.guildID)];
              var change := if unseen then MemberSeen(old(member.data.guildID), member) else Overwritten;
              Takes(old(Now()), change, Now(), home)
    {
      var g := member.data.guildID;
      if g !in guildMap || g !in memberMap {
        return false;
      }
      var members := memberMap[g];
      if member.user in members {
        OverwriteMember(members[member.user], member);
      } else {
        AppendMember(guildMap[g], member);
      }
      return true;
    }

    method AppendMember(guild: Guild, member: Member)
      requires Valid() && guild.id in guildMap && guildMap[guild.id] == guild
      requires guild.id in memberMap && member.user !in memberMap[guild.id]
      modifies this`memberMap, guild
      ensures Valid() && (old(IsExact()) ==> IsExact()) && Now() == MemberPut(old(Now()), guild.id, member)
    {
      ghost var v := Now();
      MemberPutKeepsIndexed(v, home, guild.id, member);
      if Exact(v, home) {
        MemberPutKeepsExact(v, home, guild.id, member);
      }
      PutMember(guild, member);
    }

    method PutMember(guild: Guild, member: Member)
      requires IdsMatch() && guild.id in guildMap && guildMap[guild.id] == guild && guild.id in memberMap
      modifies this`memberMap, guild
      ensures Now() == MemberPut(old(Now()), guild.id, member)
    {
      ghost var ds := Structs(guildMap);
      var members := memberMap[guild.id];
      memberMap := memberMap[guild.id := members[member.user := member]];
      guild.data := guild.data.(members := Append(guild.data.members, member));
      OneStruct(guildMap, ds, guild.id);
    }

    /** The index entry is deleted first; an error after that says the list had no such member. */
    method MemberRemove(g: string, user: string) returns (found: bool)
      requires Valid()
      modifies this`memberMap, if g in guildMap then {guildMap[g]} else {}
      ensures Valid() && (old(IsExact()) ==> IsExact())
      ensures var known := g in guildMap && g in old(memberMap) && user in old(memberMap)[g];
              && Now() == (if known then MemberDropped(old(Now()), g, user) else old(Now()))
              && found == (known && HasMember(old(guildMap[g].data.members), user))
      ensures old(IsExact()) ==> found == (g in guildMap && g in old(memberMap) && user in old(memberMap)[g])
      ensures var known := g in guildMap && g in old(memberMap) && user in old(memberMap)[g];
              Takes(old(Now()), if known then MemberGone(g, user) else Overwritten, Now(), home)
    {
      if g !in guildMap || g !in memberMap || user !in memberMap[g] {
        return false;
      }
      ghost var v := Now();
      MemberDropKeepsIndexed(v, home, g, user);
      if Exact(v, home) {
        MemberDropKeepsExact(v, home, g, user);
        ListedMember(v, home, g, user);
      }
      found := CutMemberOut(g, user);
    }

    method CutMemberOut(g: string, user: string) returns (found: bool)
      requires IdsMatch() && g in guildMap && g in memberMap
      modifies this`memberMap, guildMap[g]
      ensures Now() == MemberDropped(old(Now()), g, user) && found == HasMember(old(guildMap[g].data.members), user)
    {
      ghost var ds := Structs(guildMap);
      memberMap := memberMap[g := memberMap[g] - {user}];
      var guild := guildMap[g];
      var list := Elems(guild.data.members);
      var i := Find(MemberIds(list), user);
      found := i < |list|;
      if found {
        guild.data := guild.data.(members := Some(list[..i] + list[i + 1..]));
      }
      OneStruct(guildMap, ds, g);
    }

    // ---- channels ----

    /** A cached channel is overwritten in place, keeping its messages, overwrites and thread metadata if the
        event has none; another one is appended where it belongs. */
    method ChannelAdd(channel: Channel) returns (ok: bool)
      requires Valid() && (channel.id !in channelMap ==> home(channel.id) == HomeOf(channel.data))
      modifies this`channelMap, this`privateChannels, channel
      modifies if channel.id in channelMap then {channelMap[channel.id]} else {}
      modifies if channel.data.guildID in guildMap then {guildMap[channel.data.guildID]} else {}
      ensures Valid() && (old(IsExact()) ==> IsExact())
      ensures ok == (channel.id in old(channelMap) || old(channel.data).kind in {1, 3}
          || old(channel.data).guildID in guildMap)
      ensures channel.id in old(channelMap) ==>
                var c := old(channelMap)[channel.id];
                Now() == old(Now()) && ChannelSurvives(old(c.data), old(channel.data), c.data)
      ensures channel.id !in old(channelMap) ==>
                channel.data == old(channel.data)
                && Now() == if ok then ChannelPut(old(Now()), channel, HomeOf(old(channel.data))) else old(Now())
      ensures var change := if ok && channel.id !in old(channelMap) then ChannelSeen(channel) else Overwritten;
              Takes(old(Now()), change, Now(), home)
    {
      if channel.id in channelMap {
        OverwriteCached(channel);
        return true;
      }
      if !IsDM(channel.data.kind) && channel.data.guildID !in guildMap {
        return false;
      }
      AppendChannel(channel);
      return true;
    }

    method OverwriteCached(channel: Channel)
      requires KeysMatch(Now()) && channel.id in channelMap
      modifies channel, channelMap[channel.id]
      ensures Now() == old(Now())
      ensures channelMap[channel.id].data == PreserveChannel(old(channel.data), old(channelMap[channel.id].data))
    {
      OverwriteChannel(channelMap[channel.id], channel);
    }

    method AppendChannel(channel: Channel)
      requires Valid() && channel.id !in channelMap && home(channel.id) == HomeOf(channel.data)
      requires IsDM(channel.data.kind) || channel.data.guildID in guildMap
      modifies this`channelMap, this`privateChannels,
          if channel.data.guildID in guildMap then {guildMap[channel.data.guildID]} else {}
      ensures Valid() && (old(IsExact()) ==> IsExact())
      ensures Now() == ChannelPut(old(Now()), channel, HomeOf(channel.data))
    {
      ghost var v, h := Now(), HomeOf(channel.data);
      PutChannel(channel);
      ChannelPutKeepsIndexed(v, home, channel, h);
      if Exact(v, home) {
        ChannelPutKeepsExact(v, home, channel, h);
      }
    }

    method PutChannel(channel: Channel)
      requires IdsMatch() && (IsDM(channel.data.kind) || channel.data.guildID in guildMap)
      modifies this`channelMap, this`privateChannels,
          if channel.data.guildID in guildMap then {guildMap[channel.data.guildID]} else {}
      ensures Now() == ChannelPut(old(Now()), channel, HomeOf(channel.data))
    {
      ghost var ds := Structs(guildMap);
      channelMap := channelMap[channel.id := channel];
      if IsDM(channel.data.kind) {
        privateChannels := privateChannels + [channel];
        return;
      }
      var guild := guildMap[channel.data.guildID];
      if IsThread(channel.data.kind) {
        guild.data := guild.data.(threads := Append(guild.data.threads, channel));
      } else {
        guild.data := guild.data.(channels := Append(guild.data.channels, channel));
      }
      OneStruct(guildMap, ds, guild.id);
    }

    /** The event names the type and the guild under which the channel is cached. */
    method ChannelRemove(channel: Channel) returns (ok: bool)
      requires Valid() && (channel.id in channelMap ==> home(channel.id) == HomeOf(channel.data))
      modifies this`channelMap, this`privateChannels,
          if channel.data.guildID in guildMap then {guildMap[channel.data.guildID]} else {}
      ensures Valid() && (old(IsExact()) ==> IsExact())
      ensures ok == (channel.id in old(channelMap) && (channel.data.kind in {1, 3} || channel.data.guildID in guildMap))
      ensures ok ==> Now() == ChannelDropped(old(Now()), channel.id, HomeOf(channel.data))
      ensures !ok ==> Now() == old(Now())
      ensures ok ==> Takes(old(Now()), ChannelGone(channel.id), Now(), home)
    {
      ok := channel.id in channelMap && (IsDM(channel.data.kind) || channel.data.guildID in guildMap);
      if ok {
        CutChannelOut(channel);
      }
    }

    method CutChannelOut(channel: Channel)
      requires Valid() && home(channel.id) == HomeOf(channel.data)
      requires (IsDM(channel.data.kind) || channel.data.guildID in guildMap)
      modifies this`channelMap, this`privateChannels,
          if channel.data.guildID in guildMap then {guildMap[channel.data.guildID]} else {}
      ensures Valid() && (old(IsExact()) ==> IsExact())
      ensures Now() == ChannelDropped(old(Now()), channel.id, HomeOf(channel.data))
      ensures Takes(old(Now()), ChannelGone(channel.id), Now(), home)
    {
      ghost var v, h := Now(), HomeOf(channel.data);
      DropChannel(channel.id, channel.data);
      ChannelDropKeepsIndexed(v, home, channel.id, h);
      if Exact(v, home) {
        ChannelDropKeepsExact(v, home, channel.id, h);
      }
    }

    method DropChannel(id: string, d: ChannelData)
      requires IdsMatch() && (IsDM(d.kind) || d.guildID in guildMap)
      modifies this`channelMap, this`privateChannels, if d.guildID in guildMap then {guildMap[d.guildID]} else {}
      ensures Now() == ChannelDropped(old(Now()), id, HomeOf(d))
    {
      if IsDM(d.kind) {
        DropPrivate(id);
      } else {
        DropFromGuild(id, guildMap[d.guildID], IsThread(d.kind));
      }
    }

    method DropPrivate(id: string)
      modifies this`channelMap, this`privateChannels
      ensures Now() == ChannelDropped(old(Now()), id, Private)
    {
      channelMap := channelMap - {id};
      var i := Find(ChannelIds(privateChannels), id);
      if i < |privateChannels| {
        privateChannels := privateChannels[..i] + privateChannels[i + 1..];
      }
    }

    method DropFromGuild(id: string, guild: Guild, thread: bool)
      requires IdsMatch() && guild.id in guildMap && guildMap[guild.id] == guild
      modifies this`channelMap, guild
      ensures Now() == ChannelDropped(old(Now()), id, if thread then InThreads(guild.id) else InGuild(guild.id))
    {
      ghost var ds := Structs(guildMap);
      channelMap := channelMap - {id};
      var rest := RemoveChannel(if thread then guild.data.threads else guild.data.channels, id);
      guild.data := if thread then guild.data.(threads := rest) else guild.data.(channels := rest);
      OneStruct(guildMap, ds, guild.id);
    }

    // ---- thread lists ----

    /** The threads of a guild after a sync are the old ones that stay, in order, and then the synced ones.
        The index stays right exactly when the guild is not listed any more or no synced thread has the id of
        one that stays. */
    method ThreadListSync(g: string, channelIDs: Option<seq<string>>, threads: seq<Channel>, members: seq<ThreadMember>)
      returns (ok: bool, ghost kept: seq<Channel>, ghost dropped: seq<Channel>)
      requires Valid() && Placed(threads, home, InThreads(g))
      requires g in guildMap ==> HaveMetadata(Elems(guildMap[g].data.threads))
      modifies this`channelMap, channelMap.Values, threads, if g in guildMap then {guildMap[g]} else {}
      ensures ok == (g in guildMap)
      ensures !ok ==> Now() == old(Now())
      ensures ok ==> kept == old(Select(Elems(guildMap[g].data.threads), channelIDs, true))
      ensures ok ==> dropped == old(Select(Elems(guildMap[g].data.threads), channelIDs, false))
      ensures ok ==> ThreadsSynced(old(Now()), g, kept, dropped, threads, Now())
      ensures ok ==> (Valid() <==> guildMap[g] !in guilds || Apart(kept, threads))
      ensures ok ==> Marked(old(channelMap).Values + (set t | t in threads), channelMap, members)
      ensures ok && Valid() ==> Takes(old(Now()), ThreadsListed(g, kept, dropped, threads), Now(), home)
      ensures old(IsExact()) ==> IsExact()
    {
      ok, kept, dropped := g in guildMap, [], [];
      if ok {
        ghost var channels := channelMap.Values + (set t | t in threads);
        kept, dropped := SyncAndMark(g, channelIDs, threads, members, channels);
      }
    }

    method SyncAndMark(g: string, channelIDs: Option<seq<string>>, threads: seq<Channel>, members: seq<ThreadMember>,
                       ghost channels: set<Channel>)
      returns (ghost kept: seq<Channel>, ghost dropped: seq<Channel>)
      requires Valid() && g in guildMap && Placed(threads, home, InThreads(g))
      requires HaveMetadata(Elems(guildMap[g].data.threads))
      modifies this`channelMap, channelMap.Values, threads, guildMap[g]
      ensures kept == old(Select(Elems(guildMap[g].data.threads), channelIDs, true))
      ensures dropped == old(Select(Elems(guildMap[g].data.threads), channelIDs, false))
      ensures ThreadsSynced(old(Now()), g, kept, dropped, threads, Now())
      ensures Valid() <==> guildMap[g] !in guilds || Apart(kept, threads)
      ensures old(IsExact()) ==> IsExact()
      ensures Marked(channels, channelMap, members)
    {
      kept, dropped := SyncThreads(g, channelIDs, threads);
      MarkThreads(members, channels);
    }

    method MarkThreads(members: seq<ThreadMember>, ghost channels: set<Channel>)
      requires forall k :: k in channelMap ==> channelMap[k].id == k
      modifies channelMap.Values
      ensures Now() == old(Now())
      ensures Marked(channels, channelMap, members)
    {
      SetThreadMembers(channelMap, members);
    }

    method SyncThreads(g: string, channelIDs: Option<seq<string>>, threads: seq<Channel>)
      returns (ghost kept: seq<Channel>, ghost dropped: seq<Channel>)
      requires Valid() && g in guildMap && Placed(threads, home, InThreads(g))
      requires HaveMetadata(Elems(guildMap[g].data.threads))
      modifies this`channelMap, guildMap[g]
      ensures kept == old(Select(Elems(guildMap[g].data.threads), channelIDs, true))
      ensures dropped == old(Select(Elems(guildMap[g].data.threads), channelIDs, false))
      ensures ThreadsSynced(old(Now()), g, kept, dropped, threads, Now())
      ensures Valid() <==> guildMap[g] !in guilds || Apart(kept, threads)
      ensures old(IsExact()) ==> IsExact()
      ensures forall k :: k in channelMap ==> channelMap[k].id == k
      ensures forall c :: c in channelMap.Values ==> c in old(channelMap).Values || c in threads
    {
      ghost var v := Now();
      kept, dropped := ReplaceThreads(g, channelIDs, threads);
      SyncIndexedExactly(v, home, g, kept, dropped, threads, Now());
      SyncKeys(v, g, kept, dropped, threads, Now());
      if Exact(v, home) {
        SyncKeepsExact(v, home, g, kept, dropped, threads, Now());
      }
      SyncedValues(v.channelMap, dropped, threads, channelMap);
    }

    method ReplaceThreads(g: string, channelIDs: Option<seq<string>>, threads: seq<Channel>)
      returns (ghost before: seq<Channel>, ghost dropped: seq<Channel>)
      requires IdsMatch() && g in guildMap && DistinctChannels(threads)
      requires HaveMetadata(Elems(guildMap[g].data.threads))
      modifies this`channelMap, guildMap[g]
      ensures before == old(Select(Elems(guildMap[g].data.threads), channelIDs, true))
      ensures dropped == old(Select(Elems(guildMap[g].data.threads), channelIDs, false))
      ensures ThreadsSynced(old(Now()), g, before, dropped, threads, Now())
    {
      ghost var ds := Structs(guildMap);
      var guild := guildMap[g];
      var list := guild.data.threads;
      SelectSplits(Elems(list), channelIDs);
      before, dropped := Select(Elems(list), channelIDs, true), Select(Elems(list), channelIDs, false);
      var kept, cm := Resync(Elems(list), channelIDs, threads, channelMap);
      channelMap := cm;
      guild.data := guild.data.(threads := if list.None? && threads == [] then None else Some(kept + threads));
      OneStruct(guildMap, ds, g);
    }
  }

  method Resync(list: seq<Channel>, channelIDs: Option<seq<string>>, threads: seq<Channel>, cm: ChannelIndex)
    returns (kept: seq<Channel>, cm': ChannelIndex)
    requires DistinctChannels(threads) && HaveMetadata(list)
    ensures kept == Select(list, channelIDs, true) && Synced(cm, Select(list, channelIDs, false), threads, cm')
  {
    var a := new Channel[|list|](i requires 0 <= i < |list| => list[i]);
    assert a[..] == list;
    var index, cm1 := Compact(a, channelIDs, cm);
    cm' := EnterChannels(cm1, threads);
    DeletedThenEntered(cm, Select(list, channelIDs, false), cm1, threads, cm');
    kept := a[..index];
  }

  lemma SyncedValues(cm: ChannelIndex, dropped: seq<Channel>, threads: seq<Channel>, cm': ChannelIndex)
    requires Synced(cm, dropped, threads, cm')
    ensures forall c :: c in cm'.Values ==> c in cm.Values || c in threads
  {
    forall c | c in cm'.Values
      ensures c in cm.Values || c in threads
    {
      var k :| k in cm' && cm'[k] == c;
      if HasChannelId(threads, k) {
        var x :| x in threads && x.id == k;
      }
    }
  }

  /** The thread member entries of a sync go to whichever cached channel has their id. */
  /** Of these channels those in the index have the member entry the list has for them; nothing else changed. */
  twostate predicate Marked(channels: set<Channel>, new cm: ChannelIndex, members: seq<ThreadMember>)
    reads channels
  {
    forall c :: c in channels ==>
      c.data == old(c.data).(member := if Lookup(cm, c.id) == Some(c) then MemberFor(members, c.id, old(c.data).member)
                                       else old(c.data).member)
  }

  method SetThreadMembers(cm: ChannelIndex, members: seq<ThreadMember>)
    requires forall k :: k in cm ==> cm[k].id == k
    modifies cm.Values
    ensures forall k :: k in cm ==>
            cm[k].data == old(cm[k].data).(member := MemberFor(members, k, old(cm[k].data).member))
  {
    for i := 0 to |members|
      invariant forall k :: k in cm ==>
              cm[k].data == old(cm[k].data).(member := MemberFor(members[..i], k, old(cm[k].data).member))
    {
      assert members[..i + 1][..i] == members[..i];
      var (id, m) := members[i];
      if id in cm {
        cm[id].data := cm[id].data.(member := Some(m));
      }
    }
    assert members[..|members|] == members;
  }

  /** The last entry for the id, or what was there. */
  function MemberFor(members: seq<ThreadMember>, id: string, present: Option<string>): Option<string> {
    if members == [] then present
    else if members[|members| - 1].0 == id then Some(members[|members| - 1].1)
    else MemberFor(members[..|members| - 1], id, present)
  }

  /** Without an entry for the id nothing changes; of several the last one counts. */
  lemma {:induction false} LastEntryCounts(members: seq<ThreadMember>, id: string, present: Option<string>)
    ensures (forall i :: 0 <= i < |members| ==> members[i].0 != id) ==> MemberFor(members, id, present) == present
    ensures forall i ::
              0 <= i < |members| && members[i].0 == id && (forall j :: i < j < |members| ==> members[j].0 != id) ==>
                MemberFor(members, id, present) == Some(members[i].1)
  {
    if members != [] && members[|members| - 1].0 != id {
      LastEntryCounts(members[..|members| - 1], id, present);
    }
  }

  lemma PrivateApart(list: seq<Guild>, ds: map<string, GuildData>, private: seq<Channel>, home: Homes)
    requires Placed(private, home, Private)
    requires forall g :: g in list ==> g.id in ds && Placed(Elems(ds[g.id].channels), home, InGuild(g.id))
    ensures forall x, y :: x in ReadyChannels(list, ds) && y in private ==> x.id != y.id
  {
    forall x | x in ReadyChannels(list, ds)
      ensures home(x.id).InGuild?
    {
      InReadyChannels(list, ds, x);
    }
  }

  ghost predicate HasMember(members: Option<seq<Member>>, user: string) {
    exists m :: m in Elems(members) && m.user == user
  }

  lemma ListedMember(v: View, home: Homes, g: string, user: string)
    requires KeysMatch(v) && Exact(v, home) && g in v.memberMap && user in v.memberMap[g]
    ensures g in v.structs && HasMember(v.structs[g].members, user)
  {
    var list := Elems(v.structs[g].members);
    var j :| 0 <= j < |list| && list[j] == v.memberMap[g][user];
  }
}
