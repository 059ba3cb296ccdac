/** Composite keys in the bucket of idmap/service.go: a real (group, user) pair and its virtual pair
    are each other's value, in one key space. */
module IdPairs {
  import opened Outcome
  import opened Decimal
  import opened Text
  import opened Keys
  import opened RowId
  import opened IdSingles

  /** Each composite key is its partner's partner. */
  ghost predicate Involution(b: Bucket)
    requires Shape(b)
  {
    forall k :: k in b && k.Composite? ==> b[k].key in b && b[b[k].key] == Partner(k)
  }

  function VirtualKey(row: int64, subRow: int64): Key {
    Composite(FormatInt(row), FormatInt(subRow))
  }

  lemma VirtualKeyGenuine(row: int64, subRow: int64)
    ensures Genuine(VirtualKey(row, subRow)) && ScanPair(KeyText(VirtualKey(row, subRow))) == (row, subRow)
  {
    RowKeyTextShape(row);
    RowKeyTextShape(subRow);
    ScanFormattedPair(row, subRow);
  }

  /** Make two keys each other's partner. */
  function Link(b: Bucket, k: Key, k': Key): Bucket {
    b[k := Partner(k')][k' := Partner(k)]
  }

  /** Give the partner of `oldKey` the partner `newKey` instead. */
  function Rebind(b: Bucket, oldKey: Key, newKey: Key): Txn<()>
    requires Shape(b) && oldKey.Composite? && newKey.Composite?
  {
    if oldKey !in b then Txn(b, Err(NotFound))
    else if newKey in b then Txn(b, Err(AlreadyBound))
    else
      var partner := b[oldKey].key;
      Txn(Link(b - {oldKey} - {partner}, newKey, partner), Ok(()))
  }

  /** StoreIDPro: return the stored partner, or cut a fresh virtual pair out of the two digests. */
  function StoreIDPro(cfg: Config, b: Bucket, id: string, subid: string): Txn<(int64, int64)>
    requires Shape(b)
  {
    var forward := Composite(id, subid);
    if forward in b then Txn(b, Ok(ScanPair(KeyText(b[forward].key))))
    else match RowOf(cfg.md5(id), 9)
      case Err(e) => Txn(b, Err(RowGeneration(e)))
      case Ok(row) =>
        match RowOf(cfg.md5(subid), 9)
        case Err(e) => Txn(b, Err(RowGeneration(e)))
        case Ok(subRow) =>
          var reverse := VirtualKey(row, subRow);
          Txn(Link(b, forward, reverse), Ok((row, subRow)))
  }

  function UpdateVirtualValuePro(b: Bucket, old1: int64, new1: int64, old2: int64, new2: int64): Txn<()>
    requires Shape(b)
  {
    Rebind(b, VirtualKey(old1, old2), VirtualKey(new1, new2))
  }

  /** The three Retrieve…Pro lookups: the two halves of the partner. */
  function RetrievePair(b: Bucket, x: string, y: string): Result<(string, string), IdError>
    requires Shape(b)
  {
    if Composite(x, y) !in b then Err(NotFound)
    else
      var value := KeyText(b[Composite(x, y)].key);
      if IsPair(value) then Ok((Left(value), Right(value))) else Err(BadPair)
  }

  lemma RetrieveIsPartner(b: Bucket, x: string, y: string)
    requires Shape(b)
    ensures RetrievePair(b, x, y) ==
            if Composite(x, y) in b then Ok((b[Composite(x, y)].key.a, b[Composite(x, y)].key.b)) else Err(NotFound)
  {
    if Composite(x, y) in b {
      SeparatorMarksComposite(b[Composite(x, y)].key);
    }
  }

  /** Looking up what a lookup returned gives back the pair one started from. */
  lemma RetrieveRoundTrip(b: Bucket, x: string, y: string)
    requires Shape(b) && Involution(b) && RetrievePair(b, x, y).Ok?
    ensures var (u, v) := RetrievePair(b, x, y).value; RetrievePair(b, u, v) == Ok((x, y))
  {
    RetrieveIsPartner(b, x, y);
    var p := b[Composite(x, y)].key;
    RetrieveIsPartner(b, p.a, p.b);
  }

  // ---- storing and rebinding ----

  lemma LinkKeepsShape(b: Bucket, k: Key, k': Key)
    requires Shape(b) && k.Composite? && k'.Composite? && Genuine(k) && Genuine(k')
    ensures Shape(Link(b, k, k'))
  {
  }

  lemma StoreProKeepsShape(cfg: Config, b: Bucket, id: string, subid: string)
    requires Shape(b) && NoColon(id) && NoColon(subid)
    ensures Shape(StoreIDPro(cfg, b, id, subid).bucket)
  {
    var t := StoreIDPro(cfg, b, id, subid);
    if t.result.Ok? && Composite(id, subid) !in b {
      VirtualKeyGenuine(t.result.value.0, t.result.value.1);
      LinkKeepsShape(b, Composite(id, subid), VirtualKey(t.result.value.0, t.result.value.1));
    }
  }

  /** Linking a new key keeps the involution exactly when the other key is free or its own partner:
      otherwise that key's former partner is orphaned. */
  lemma LinkExactly(b: Bucket, k: Key, k': Key)
    requires Shape(b) && Involution(b) && k.Composite? && k'.Composite? && Genuine(k) && Genuine(k') && k !in b
    ensures Shape(Link(b, k, k'))
    ensures Involution(Link(b, k, k')) <==> k' !in b || b[k'] == Partner(k')
  {
    LinkKeepsShape(b, k, k');
    if k' in b && b[k'] != Partner(k') {
      var orphan := b[k'].key;
      assert Link(b, k, k')[orphan] == Partner(k') && Link(b, k, k')[k'] == Partner(k);
    }
  }

  /** The virtual pair StoreIDPro uses for a new pair. */
  predicate DrawsPair(cfg: Config, id: string, subid: string, row: int64, subRow: int64) {
    RowOf(cfg.md5(id), 9) == Ok(row) && RowOf(cfg.md5(subid), 9) == Ok(subRow)
  }

  /** StoreIDPro never looks whether the virtual pair is taken. For a new pair it keeps the
      involution exactly when that key is free or is its own partner. */
  lemma StoreProExactly(cfg: Config, b: Bucket, id: string, subid: string, row: int64, subRow: int64)
    requires Shape(b) && Involution(b) && NoColon(id) && NoColon(subid)
    requires Composite(id, subid) !in b && DrawsPair(cfg, id, subid, row, subRow)
    ensures Shape(StoreIDPro(cfg, b, id, subid).bucket)
    ensures Involution(StoreIDPro(cfg, b, id, subid).bucket)
            <==> VirtualKey(row, subRow) !in b || b[VirtualKey(row, subRow)] == Partner(VirtualKey(row, subRow))
  {
    VirtualKeyGenuine(row, subRow);
    LinkExactly(b, Composite(id, subid), VirtualKey(row, subRow));
  }

  /** Two users whose digests agree on nine digits in the same group: the second store orphans the first pair. */
  lemma StoreProCanOrphan(cfg: Config, id: string, sub1: string, sub2: string, row: int64, subRow: int64)
    requires NoColon(id) && NoColon(sub1) && NoColon(sub2) && sub1 != sub2
    requires DrawsPair(cfg, id, sub1, row, subRow) && DrawsPair(cfg, id, sub2, row, subRow)
    requires Composite(id, sub1) != VirtualKey(row, subRow) && Composite(id, sub2) != VirtualKey(row, subRow)
    ensures var b1 := StoreIDPro(cfg, map[], id, sub1).bucket;
            Shape(b1) && Involution(b1) &&
            Shape(StoreIDPro(cfg, b1, id, sub2).bucket) && !Involution(StoreIDPro(cfg, b1, id, sub2).bucket)
  {
    StoreProExactly(cfg, map[], id, sub1, row, subRow);
    StoreProExactly(cfg, StoreIDPro(cfg, map[], id, sub1).bucket, id, sub2, row, subRow);
  }

  lemma LastTwo(n: nat)
    requires n >= 10
    ensures var s := FormatInt(n); |s| >= 2 && s[|s| - 1] == Digit(n % 10) && s[|s| - 2] == Digit(n / 10 % 10)
  {
    assert Digits(n) == Digits(n / 10) + [Digit(n % 10)];
  }

  lemma NotThisRow()
    ensures FormatInt(224747127) != "1939" && FormatInt(224747127) != "6587"
    ensures NoColon("1939") && NoColon("6587")
  {
    LastTwo(224747127);
    assert "1939"[3] == '9' && "6587"[2] == '8';
    assert forall i :: 0 <= i < 4 ==> "1939"[i] != ':' && "6587"[i] != ':';
  }

  /** The users 1939 and 6587 are such two, whatever the group. */
  lemma TwoUsersOrphan(cfg: Config, id: string, row: int64)
    requires NoColon(id) && RowOf(cfg.md5(id), 9) == Ok(row)
    requires cfg.md5("1939") == DIGEST_OF_1939 && cfg.md5("6587") == DIGEST_OF_6587
    ensures NoColon("1939") && NoColon("6587")
    ensures var b1 := StoreIDPro(cfg, map[], id, "1939").bucket;
            Shape(b1) && Involution(b1) &&
            Shape(StoreIDPro(cfg, b1, id, "6587").bucket) && !Involution(StoreIDPro(cfg, b1, id, "6587").bucket)
  {
    TwoDigestsAgree();
    NotThisRow();
    StoreProCanOrphan(cfg, id, "1939", "6587", row, 224747127);
  }

  /** A text that is the decimal form of the number it denotes. */
  predicate Canonical(s: string) {
    ParseInt(s).ok && FormatInt(ParseInt(s).value) == s
  }

  /** Both halves of the key are decimal forms, as in every virtual pair. */
  predicate VirtualForm(k: Key) {
    k.Composite? && Canonical(k.a) && Canonical(k.b)
  }

  lemma VirtualFormExactly(k: Key)
    ensures VirtualForm(k) <==> exists row: int64, subRow: int64 :: k == VirtualKey(row, subRow)
  {
    if VirtualForm(k) {
      assert k == VirtualKey(ParseInt(k.a).value, ParseInt(k.b).value);
    }
    if row: int64, subRow: int64 :| k == VirtualKey(row, subRow) {
      ParseFormat(row);
      ParseFormat(subRow);
    }
  }

  lemma VirtualKeyForm(row: int64, subRow: int64)
    ensures VirtualForm(VirtualKey(row, subRow))
  {
    ParseFormat(row);
    ParseFormat(subRow);
  }

  /** Whenever a pair's partner is a virtual pair, StoreIDPro returns that pair and writes nothing. */
  lemma StoreProReturnsPartner(cfg: Config, b: Bucket, id: string, subid: string, row: int64, subRow: int64)
    requires Shape(b) && Composite(id, subid) in b && b[Composite(id, subid)] == Partner(VirtualKey(row, subRow))
    ensures StoreIDPro(cfg, b, id, subid) == Txn(b, Ok((row, subRow)))
  {
    VirtualKeyGenuine(row, subRow);
  }

  /** For a pair already stored, the answer names the partner exactly when that consists of two decimal
      forms; otherwise it is what the scan makes of other text. */
  lemma StoreProAnswersExactly(cfg: Config, b: Bucket, id: string, subid: string)
    requires Shape(b) && Composite(id, subid) in b
    ensures var t := StoreIDPro(cfg, b, id, subid);
            && t.bucket == b && t.result.Ok?
            && (b[Composite(id, subid)] == Partner(VirtualKey(t.result.value.0, t.result.value.1))
                <==> VirtualForm(b[Composite(id, subid)].key))
  {
    var p := b[Composite(id, subid)].key;
    assert EntryOk(Composite(id, subid), b[Composite(id, subid)]);
    var (row, subRow) := StoreIDPro(cfg, b, id, subid).result.value;
    if VirtualForm(p) {
      VirtualFormExactly(p);
      var r: int64, s: int64 :| p == VirtualKey(r, s);
      StoreProReturnsPartner(cfg, b, id, subid, r, s);
    }
    VirtualKeyForm(row, subRow);
  }

  /** It does happen: after (a, b) is stored, asking for its virtual pair answers with two zeros, although the
      partner of that is a:b. */
  lemma StoreProAnswersZeros(cfg: Config, row: int64, subRow: int64)
    requires DrawsPair(cfg, "a", "b", row, subRow)
    ensures var t := StoreIDPro(cfg, map[], "a", "b");
            && t.result == Ok((row, subRow)) && Shape(t.bucket)
            && t.bucket == Link(map[], Composite("a", "b"), VirtualKey(row, subRow))
            && StoreIDPro(cfg, t.bucket, FormatInt(row), FormatInt(subRow)) == Txn(t.bucket, Ok((0, 0)))
  {
    assert "a"[0] == 'a' && "b"[0] == 'b';
    if 'a' in FormatInt(row) {
      FormatChars(row, 'a');
    }
    StoreProKeepsShape(cfg, map[], "a", "b");
    var v := KeyText(Composite("a", "b"));
    assert v == "a:b" && v[0] == 'a';
    assert DigitRun(v) == 0 && v[0..] == v && v[..0] == "";
  }

  /** A fresh store answers with the pair it wrote; storing again answers the same and writes nothing. */
  lemma StoreProRepeats(cfg: Config, b: Bucket, id: string, subid: string, row: int64, subRow: int64)
    requires Shape(b) && NoColon(id) && NoColon(subid) && Composite(id, subid) !in b
    requires DrawsPair(cfg, id, subid, row, subRow)
    ensures var t := StoreIDPro(cfg, b, id, subid);
            t.result == Ok((row, subRow)) && Shape(t.bucket) && StoreIDPro(cfg, t.bucket, id, subid) == t
  {
    StoreProKeepsShape(cfg, b, id, subid);
    StoreProReturnsPartner(cfg, Link(b, Composite(id, subid), VirtualKey(row, subRow)), id, subid, row, subRow);
  }

  lemma RebindKeepsInvolution(b: Bucket, oldKey: Key, newKey: Key)
    requires Shape(b) && Involution(b) && oldKey.Composite? && newKey.Composite? && Genuine(newKey)
    ensures Shape(Rebind(b, oldKey, newKey).bucket) && Involution(Rebind(b, oldKey, newKey).bucket)
  {
    if oldKey in b && newKey !in b {
      LinkKeepsShape(b - {oldKey} - {b[oldKey].key}, newKey, b[oldKey].key);
    }
  }

  /** A rebind puts the new key in the place of the old one and repoints its partner. It moves exactly
      that pair precisely when the old key is not its own partner; a self-partnered key stays behind. */
  lemma RebindMovesOne(b: Bucket, oldKey: Key, newKey: Key)
    requires Shape(b) && Involution(b) && oldKey.Composite? && newKey.Composite? && Rebind(b, oldKey, newKey).result.Ok?
    ensures var b' := Rebind(b, oldKey, newKey).bucket;
            oldKey in b && newKey !in b &&
            var p := b[oldKey].key;
            p in b && newKey in b' && b'[newKey] == Partner(p) && p in b' && b'[p] == Partner(newKey)
            && (forall k :: k != oldKey && k != newKey && k != p ==>
                    (k in b' <==> k in b) && (k in b ==> b'[k] == b[k]))
            && (oldKey !in b' <==> p != oldKey)
  {
  }

  // ---- renaming a group ----

  function Group(b: Bucket, id: string): set<Key> {
    set k | k in b && k.Composite? && k.a == id
  }

  function NewName(k: Key, newID: string): Key
    requires k.Composite?
  {
    Composite(newID, k.b)
  }

  function NewNames(done: set<Key>, newID: string): set<Key>
    requires forall g :: g in done ==> g.Composite?
  {
    set g | g in done :: NewName(g, newID)
  }

  lemma NewNamesMember(b: Bucket, done: set<Key>, id: string, newID: string, k: Key)
    requires done <= Group(b, id)
    ensures k in NewNames(done, newID) <==> k.Composite? && k.a == newID && Composite(id, k.b) in done
  {
    if k.Composite? && k.a == newID && Composite(id, k.b) in done {
      assert k == NewName(Composite(id, k.b), newID);
    }
  }

  /** One round of the renaming loop: `key` and the partner value collected for it beforehand. */
  function RenameOne(b: Bucket, key: Key, reverse: Key, id: string, newID: string): Txn<()>
    requires Shape(b) && Genuine(key) && key.Composite? && Genuine(reverse) && reverse.Composite?
    requires NoColon(id) && NoColon(newID)
  {
    if reverse !in b then Txn(b, Err(ReverseMissing))
    else
      var newKey := ReplaceInKey(key, id, newID);
      var newValue := ReplaceInKey(b[reverse].key, id, newID);
      Txn((b - {key})[newKey := Partner(reverse)][reverse := Partner(newValue)], Ok(()))
  }

  lemma RenameOneKeepsShape(b: Bucket, key: Key, reverse: Key, id: string, newID: string)
    requires Shape(b) && Genuine(key) && key.Composite? && Genuine(reverse) && reverse.Composite?
    requires NoColon(id) && NoColon(newID)
    ensures Shape(RenameOne(b, key, reverse, id, newID).bucket)
  {
    if reverse in b {
      var newKey := ReplaceInKey(key, id, newID);
      var newValue := ReplaceInKey(b[reverse].key, id, newID);
      assert EntryOk(newKey, Partner(reverse)) && EntryOk(reverse, Partner(newValue));
    }
  }

  /** The round as the loop runs it: the partner is the one collected from `b`, the bucket has come to `tx`. */
  function Round(b: Bucket, tx: Bucket, key: Key, id: string, newID: string): (t: Txn<()>)
    requires Shape(b) && Shape(tx) && NoColon(id) && NoColon(newID) && key in Group(b, id)
    ensures Shape(t.bucket)
  {
    assert EntryOk(key, b[key]);
    RenameOneKeepsShape(tx, key, b[key].key, id, newID);
    RenameOne(tx, key, b[key].key, id, newID)
  }

  /** The next round, unless one has failed; the first error gives everything back. */
  function Onwards(b: Bucket, t: Txn<()>, key: Key, id: string, newID: string): (u: Txn<()>)
    requires Shape(b) && Shape(t.bucket) && NoColon(id) && NoColon(newID) && key in Group(b, id)
    ensures Shape(u.bucket)
  {
    if t.result.Err? then t
    else
      var u := Round(b, t.bucket, key, id, newID);
      if u.result.Err? then Txn(b, Err(ReverseMissing)) else u
  }

  /** The whole loop when the map iteration yields the collected keys in this order. */
  function InOrder(b: Bucket, order: seq<Key>, id: string, newID: string): (t: Txn<()>)
    requires Shape(b) && NoColon(id) && NoColon(newID) && forall k :: k in order ==> k in Group(b, id)
    ensures Shape(t.bucket) && (t.result.Err? ==> t == Txn(b, Err(ReverseMissing)))
  {
    if order == [] then Txn(b, Ok(()))
    else
      var n := |order| - 1;
      assert order[n] in order;
      Onwards(b, InOrder(b, order[..n], id, newID), order[n], id, newID)
  }

  lemma InOrderStep(b: Bucket, order: seq<Key>, key: Key, id: string, newID: string)
    requires Shape(b) && NoColon(id) && NoColon(newID) && forall k :: k in order + [key] ==> k in Group(b, id)
    ensures (forall k :: k in order ==> k in Group(b, id)) && key in Group(b, id)
    ensures InOrder(b, order + [key], id, newID) == Onwards(b, InOrder(b, order, id, newID), key, id, newID)
  {
    assert (order + [key])[..|order|] == order;
    assert key in order + [key];
  }

  /** Each element once. */
  ghost predicate Ordering(order: seq<Key>, s: set<Key>) {
    && (forall k :: k in order <==> k in s)
    && (forall i, j :: 0 <= i < j < |order| ==> order[i] != order[j])
  }

  lemma SomeOrdering(s: set<Key>) returns (order: seq<Key>)
    ensures Ordering(order, s)
  {
    if s == {} {
      order := [];
    } else {
      var k :| k in s;
      order := SomeOrdering(s - {k});
      order := order + [k];
    }
  }

  lemma OrderingInit(order: seq<Key>, s: set<Key>)
    requires Ordering(order, s) && order != []
    ensures var n := |order| - 1; Ordering(order[..n], s - {order[n]}) && order[n] in s
  {
    var n := |order| - 1;
    assert order == order[..n] + [order[n]];
  }

  lemma SplitLast(order: seq<Key>, s: set<Key>) returns (init: seq<Key>, last: Key)
    requires Ordering(order, s) && order != []
    ensures order == init + [last] && Ordering(init, s - {last}) && last in s && s == s - {last} + {last}
  {
    init, last := order[..|order| - 1], order[|order| - 1];
    OrderingInit(order, s);
  }

  lemma OrderingNext(order: seq<Key>, s: set<Key>, rest: set<Key>, key: Key)
    requires Ordering(order, s - rest) && key in rest && rest <= s
    ensures Ordering(order + [key], s - (rest - {key}))
  {
  }

  lemma OrderingJoins(order: seq<Key>, others: seq<Key>, s: set<Key>, rest: set<Key>)
    requires Ordering(order, s - rest) && Ordering(others, rest) && rest <= s
    ensures Ordering(order + others, s)
  {
    forall i, j | 0 <= i < j < |order + others|
      ensures (order + others)[i] != (order + others)[j]
    {
      assert i < |order| ==> order[i] in order;
      assert j >= |order| ==> others[j - |order|] in others;
    }
  }

  lemma {:induction false} ErrorStays(b: Bucket, all: seq<Key>, n: nat, m: nat, id: string, newID: string)
    requires Shape(b) && NoColon(id) && NoColon(newID) && forall k :: k in all ==> k in Group(b, id)
    requires n <= m <= |all| && InOrder(b, all[..n], id, newID).result.Err?
    ensures InOrder(b, all[..m], id, newID).result.Err?
    decreases m
  {
    if n < m {
      var init, key := all[..m - 1], all[m - 1];
      ErrorStays(b, all, n, m - 1, id, newID);
      assert all[..m] == init + [key];
      InOrderStep(b, init, key, id, newID);
    }
  }

  /** Whatever comes after a failed round, the whole has failed. */
  lemma FailedOrder(b: Bucket, order: seq<Key>, rest: set<Key>, id: string, newID: string) returns (all: seq<Key>)
    requires Shape(b) && NoColon(id) && NoColon(newID) && rest <= Group(b, id)
    requires Ordering(order, Group(b, id) - rest) && InOrder(b, order, id, newID).result.Err?
    ensures Ordering(all, Group(b, id)) && InOrder(b, all, id, newID).result.Err?
  {
    var others := SomeOrdering(rest);
    all := order + others;
    OrderingJoins(order, others, Group(b, id), rest);
    assert all[..|order|] == order && all[..|all|] == all;
    ErrorStays(b, all, |order|, |all|, id, newID);
  }

  // ---- when a renaming fails ----

  /** Two different keys of the group are each other's partner. */
  ghost predicate PairedInside(b: Bucket, id: string)
    requires Shape(b)
  {
    exists k :: k in Group(b, id) && b[k].key in Group(b, id) && b[k].key != k
  }

  /** What the loop knows of the keys with those in `done` behind it: the others are there, and of those done
      only self-partnered ones; none done has a partner done before it. */
  ghost predicate Presence(b: Bucket, tx: Bucket, done: set<Key>, id: string)
    requires Shape(b) && done <= Group(b, id)
  {
    && (forall k :: k in b && k !in done ==> k in tx)
    && (forall k :: k in done && k in tx ==> b[k].key == k)
    && (forall k :: k in done && b[k].key in done ==> b[k].key == k)
  }

  lemma RoundKeepsPresence(b: Bucket, tx: Bucket, done: set<Key>, key: Key, id: string, newID: string, value: Key)
    requires Shape(b) && Involution(b) && id != newID && done <= Group(b, id) && Presence(b, tx, done, id)
    requires key in Group(b, id) && key !in done && b[key].key in tx
    ensures var tx' := (tx - {key})[NewName(key, newID) := Partner(b[key].key)][b[key].key := Partner(value)];
            Presence(b, tx', done + {key}, id)
  {
    var r := b[key].key;
    assert r in b && b[r] == Partner(key) && r !in done;
    assert forall k :: k in b && k.Composite? && b[k].key == key ==> k == r;
  }

  /** A round finds the partner missing only if that is a key of the group done before. */
  lemma RoundPresence(b: Bucket, t: Txn<()>, done: set<Key>, key: Key, id: string, newID: string)
    requires Shape(b) && Involution(b) && NoColon(id) && NoColon(newID) && id != newID && Shape(t.bucket)
    requires done <= Group(b, id) && key in Group(b, id) && key !in done
    requires if t.result.Ok? then Presence(b, t.bucket, done, id) else PairedInside(b, id)
    ensures var u := Onwards(b, t, key, id, newID);
            if u.result.Ok? then Presence(b, u.bucket, done + {key}, id) else PairedInside(b, id)
  {
    assert EntryOk(key, b[key]) && b[key].key in b;
    if t.result.Ok? && b[key].key in t.bucket {
      var value := ReplaceInKey(t.bucket[b[key].key].key, id, newID);
      RoundKeepsPresence(b, t.bucket, done, key, id, newID, value);
    }
  }

  /** Renaming in any order: present keys, or two partners in the group. */
  lemma {:induction false} OrderPresence(b: Bucket, order: seq<Key>, done: set<Key>, id: string, newID: string)
    requires Shape(b) && Involution(b) && NoColon(id) && NoColon(newID) && id != newID
    requires Ordering(order, done) && done <= Group(b, id)
    ensures var t := InOrder(b, order, id, newID);
            if t.result.Ok? then Presence(b, t.bucket, done, id) else PairedInside(b, id)
  {
    if order != [] {
      var n := |order| - 1;
      OrderingInit(order, done);
      OrderPresence(b, order[..n], done - {order[n]}, id, newID);
      assert done == done - {order[n]} + {order[n]};
      RoundPresence(b, InOrder(b, order[..n], id, newID), done - {order[n]}, order[n], id, newID);
    }
  }

  /** In whatever order, renaming fails exactly when two different keys of the group are partners. */
  lemma RenameFailsExactly(b: Bucket, order: seq<Key>, id: string, newID: string)
    requires Shape(b) && Involution(b) && NoColon(id) && NoColon(newID) && Ordering(order, Group(b, id))
    requires id != newID
    ensures InOrder(b, order, id, newID).result.Err? <==> PairedInside(b, id)
  {
    OrderPresence(b, order, Group(b, id), id, newID);
  }

  // ---- when the order does not matter ----

  /** Another key of the group than the one that takes this new name has the name as its partner, and a
      replacement of the id would change what the name gets. */
  ghost predicate Contended(b: Bucket, id: string, newID: string, k: Key)
    requires Shape(b) && NoColon(id) && NoColon(newID) && k in Group(b, id)
  {
    var y := Composite(id, b[k].key.b);
    b[k].key.a == newID && y in b && y != k
    && (assert EntryOk(y, b[y]); ReplaceInKey(b[y].key, id, newID) != b[y].key)
  }

  /** The renaming comes to one result. */
  ghost predicate OneOutcome(b: Bucket, id: string, newID: string)
    requires Shape(b)
  {
    Involution(b) && NoColon(id) && NoColon(newID)
    && (id == newID || (!PairedInside(b, id) && forall k :: k in Group(b, id) ==> !Contended(b, id, newID, k)))
  }

  /** And no key is under the new id yet. */
  ghost predicate Renamable(b: Bucket, id: string, newID: string)
    requires Shape(b)
  {
    OneOutcome(b, id, newID) && Group(b, newID) == {}
  }

  /** A renamed key goes unless it is its own partner: then it is written back as its new name's partner. */
  function Gone(b: Bucket, done: set<Key>, id: string): set<Key>
    requires Shape(b) && done <= Group(b, id)
  {
    set k | k in done && b[k] != Partner(k)
  }

  /** The bucket after the keys in `done`, all of the group `id`, have been renamed. A new name takes the
      place of whatever stood under it. */
  function RenamedBy(b: Bucket, done: set<Key>, id: string, newID: string): Bucket
    requires Shape(b) && done <= Group(b, id)
  {
    map k | k in (b.Keys - Gone(b, done, id)) + NewNames(done, newID) ::
      if k in NewNames(done, newID) then b[Composite(id, k.b)]
      else if k.Composite? && b[k].key in done then Partner(NewName(b[k].key, newID))
      else b[k]
  }

  function Renamed(b: Bucket, id: string, newID: string): Bucket
    requires Shape(b)
  {
    RenamedBy(b, Group(b, id), id, newID)
  }

  lemma RenamedByShape(b: Bucket, done: set<Key>, id: string, newID: string)
    requires Shape(b) && NoColon(newID) && done <= Group(b, id)
    ensures Shape(RenamedBy(b, done, id, newID))
  {
    var c := RenamedBy(b, done, id, newID);
    forall k | k in c
      ensures EntryOk(k, c[k])
    {
      NewNamesMember(b, done, id, newID, k);
      if k in NewNames(done, newID) {
        assert EntryOk(Composite(id, k.b), b[Composite(id, k.b)]);
      } else {
        assert EntryOk(k, b[k]);
        if k.Composite? && b[k].key in done {
          assert EntryOk(b[k].key, b[b[k].key]);
        }
      }
    }
  }

  lemma RenamedByOntoItself(b: Bucket, done: set<Key>, id: string)
    requires Shape(b) && Involution(b) && done <= Group(b, id)
    ensures RenamedBy(b, done, id, id) == b
  {
    forall k
      ensures k in NewNames(done, id) <==> k in done
    {
      NewNamesMember(b, done, id, id, k);
    }
  }

  /** What the round writes under the partner. */
  function Written(b: Bucket, done: set<Key>, key: Key, id: string, newID: string): Key
    requires Shape(b) && done <= Group(b, id) && key in Group(b, id)
  {
    var r := b[key].key;
    if r in NewNames(done, newID) && Composite(id, r.b) in b then b[Composite(id, r.b)].key else NewName(key, newID)
  }

  /** What the next round reads under the partner of its key: the key, unless the partner is a name renamed to
      before, and then what that got, which no replacement changes. */
  lemma RoundReads(b: Bucket, done: set<Key>, key: Key, id: string, newID: string)
    requires Shape(b) && OneOutcome(b, id, newID) && id != newID
    requires done <= Group(b, id) && key in Group(b, id) && key !in done
    ensures Shape(RenamedBy(b, done, id, newID))
    ensures var c, r := RenamedBy(b, done, id, newID), b[key].key;
            && r in c && Genuine(c[r].key) && c[r].key.Composite?
            && ReplaceInKey(c[r].key, id, newID) == Written(b, done, key, id, newID)
  {
    var c, r := RenamedBy(b, done, id, newID), b[key].key;
    RenamedByShape(b, done, id, newID);
    assert EntryOk(key, b[key]);
    assert r in b && b[r] == Partner(key) && r !in done;
    assert EntryOk(r, c[r]);
    NewNamesMember(b, done, id, newID, r);
    if r in NewNames(done, newID) {
      assert !Contended(b, id, newID, key);
    }
  }

  lemma RenamedByStepAt(b: Bucket, done: set<Key>, key: Key, id: string, newID: string, k: Key)
    requires Shape(b) && OneOutcome(b, id, newID) && id != newID
    requires done <= Group(b, id) && key in Group(b, id) && key !in done
    ensures var r, v := b[key].key, Written(b, done, key, id, newID);
            var t := (RenamedBy(b, done, id, newID) - {key})[NewName(key, newID) := Partner(r)][r := Partner(v)];
            var d := RenamedBy(b, done + {key}, id, newID);
            (k in t <==> k in d) && (k in d ==> t[k] == d[k])
  {
    var r := b[key].key;
    assert r in b && b[r] == Partner(key) && r !in done;
    NewNamesMember(b, done, id, newID, r);
    NewNamesMember(b, done, id, newID, k);
    NewNamesMember(b, done + {key}, id, newID, k);
    if k in b && k.Composite? {
      assert b[b[k].key] == Partner(k);
    }
  }

  lemma RenamedByStep(b: Bucket, done: set<Key>, key: Key, id: string, newID: string)
    requires Shape(b) && OneOutcome(b, id, newID) && id != newID
    requires done <= Group(b, id) && key in Group(b, id) && key !in done
    ensures var r, v := b[key].key, Written(b, done, key, id, newID);
            (RenamedBy(b, done, id, newID) - {key})[NewName(key, newID) := Partner(r)][r := Partner(v)]
            == RenamedBy(b, done + {key}, id, newID)
  {
    forall k
      ensures var r, v := b[key].key, Written(b, done, key, id, newID);
              var t := (RenamedBy(b, done, id, newID) - {key})[NewName(key, newID) := Partner(r)][r := Partner(v)];
              var d := RenamedBy(b, done + {key}, id, newID);
              (k in t <==> k in d) && (k in d ==> t[k] == d[k])
    {
      RenamedByStepAt(b, done, key, id, newID, k);
    }
  }

  lemma RoundWrites(b: Bucket, tx: Bucket, key: Key, id: string, newID: string, value: Key)
    requires Shape(b) && Shape(tx) && NoColon(id) && NoColon(newID) && key in Group(b, id) && b[key].key in tx
    requires Genuine(tx[b[key].key].key) && ReplaceInKey(tx[b[key].key].key, id, newID) == value
    ensures Round(b, tx, key, id, newID)
            == Txn((tx - {key})[NewName(key, newID) := b[key]][b[key].key := Partner(value)], Ok(()))
  {
    assert EntryOk(key, b[key]);
  }

  /** Renaming one more key, whichever comes next in the map iteration, goes from one partial result to the
      next and cannot fail. */
  lemma RenameOneAdvances(b: Bucket, done: set<Key>, key: Key, id: string, newID: string)
    requires Shape(b) && OneOutcome(b, id, newID)
    requires done <= Group(b, id) && key in Group(b, id) && key !in done
    ensures Shape(RenamedBy(b, done, id, newID))
    ensures Round(b, RenamedBy(b, done, id, newID), key, id, newID)
            == Txn(RenamedBy(b, done + {key}, id, newID), Ok(()))
  {
    assert EntryOk(key, b[key]);
    RenamedByShape(b, done, id, newID);
    if id == newID {
      RenamedByOntoItself(b, done, id);
      RenamedByOntoItself(b, done + {key}, id);
      RoundOntoItself(b, key, id);
    } else {
      RoundReads(b, done, key, id, newID);
      RoundWrites(b, RenamedBy(b, done, id, newID), key, id, newID, Written(b, done, key, id, newID));
      RenamedByStep(b, done, key, id, newID);
    }
  }

  lemma RoundOntoItself(b: Bucket, key: Key, id: string)
    requires Shape(b) && Involution(b) && NoColon(id) && key in Group(b, id)
    ensures Round(b, b, key, id, id) == Txn(b, Ok(()))
  {
    assert EntryOk(key, b[key]);
    assert b[b[key].key] == Partner(key);
    RoundWrites(b, b, key, id, id, key);
  }

  lemma NoneRenamed(b: Bucket, id: string, newID: string)
    requires Shape(b) && NoColon(id) && NoColon(newID)
    ensures InOrder(b, [], id, newID) == Txn(RenamedBy(b, {}, id, newID), Ok(()))
  {
  }

  lemma NextAdvances(b: Bucket, order: seq<Key>, key: Key, done: set<Key>, id: string, newID: string)
    requires Shape(b) && OneOutcome(b, id, newID) && Ordering(order, done)
    requires done <= Group(b, id) && key in Group(b, id) && key !in done
    requires InOrder(b, order, id, newID) == Txn(RenamedBy(b, done, id, newID), Ok(()))
    ensures InOrder(b, order + [key], id, newID) == Txn(RenamedBy(b, done + {key}, id, newID), Ok(()))
  {
    InOrderStep(b, order, key, id, newID);
    RenameOneAdvances(b, done, key, id, newID);
  }

  lemma {:induction false} InOrderAdvances(b: Bucket, order: seq<Key>, done: set<Key>, id: string, newID: string)
    requires Shape(b) && OneOutcome(b, id, newID) && Ordering(order, done) && done <= Group(b, id)
    ensures InOrder(b, order, id, newID) == Txn(RenamedBy(b, done, id, newID), Ok(()))
    decreases |order|
  {
    if order == [] {
      assert done == {} && order == [];
      NoneRenamed(b, id, newID);
    } else {
      var init, key := SplitLast(order, done);
      InOrderAdvances(b, init, done - {key}, id, newID);
      NextAdvances(b, init, key, done - {key}, id, newID);
    }
  }

  /** What any order comes to. */
  lemma RenameOutcome(b: Bucket, order: seq<Key>, id: string, newID: string)
    requires Shape(b) && NoColon(id) && NoColon(newID) && Ordering(order, Group(b, id))
    ensures var t := InOrder(b, order, id, newID);
            && (OneOutcome(b, id, newID) ==> t == Txn(Renamed(b, id, newID), Ok(())))
            && (Involution(b) ==> (t.result.Err? <==> id != newID && PairedInside(b, id)))
  {
    if OneOutcome(b, id, newID) {
      InOrderAdvances(b, order, Group(b, id), id, newID);
    }
    if Involution(b) && id != newID {
      RenameFailsExactly(b, order, id, newID);
    }
  }

  /** Rounds on other keys leave a contended name as it was. */
  lemma {:induction false} RoundsElsewhere(b: Bucket, order: seq<Key>, x: Key, y: Key, id: string, newID: string)
    requires Shape(b) && Involution(b) && NoColon(id) && NoColon(newID) && id != newID
    requires (forall k :: k in order ==> k in Group(b, id)) && x !in order && y !in order
    requires x in Group(b, id) && y in Group(b, id) && b[x] == Partner(NewName(y, newID))
    requires InOrder(b, order, id, newID).result.Ok?
    ensures var t, h := InOrder(b, order, id, newID), NewName(y, newID); h in t.bucket && t.bucket[h] == Partner(x)
  {
    assert NewName(y, newID) in b && b[NewName(y, newID)] == Partner(x);
    if order != [] {
      var n := |order| - 1;
      assert order[n] in order;
      RoundsElsewhere(b, order[..n], x, y, id, newID);
      RoundElsewhere(b, InOrder(b, order[..n], id, newID).bucket, order[n], x, y, id, newID);
    }
  }

  lemma RoundElsewhere(b: Bucket, tx: Bucket, key: Key, x: Key, y: Key, id: string, newID: string)
    requires Shape(b) && Shape(tx) && Involution(b) && NoColon(id) && NoColon(newID) && id != newID
    requires x in Group(b, id) && y in Group(b, id) && key in Group(b, id) && key != x && key != y
    requires b[x] == Partner(NewName(y, newID)) && NewName(y, newID) in tx && tx[NewName(y, newID)] == Partner(x)
    ensures var t, h := Round(b, tx, key, id, newID), NewName(y, newID);
            t.result.Ok? ==> h in t.bucket && t.bucket[h] == Partner(x)
  {
    assert b[NewName(y, newID)] == Partner(x) && b[b[key].key] == Partner(key);
  }

  /** Of two rounds that write one name the later one decides: the taker leaves its own partner there, the
      other that partner with the id replaced. */
  lemma TwoRounds(b: Bucket, t: Txn<()>, x: Key, y: Key, id: string, newID: string)
    requires Shape(b) && OtherwiseFine(b, id, newID) && Shape(t.bucket) && t.result.Ok?
    requires x in Group(b, id) && y in Group(b, id) && x != y && b[x] == Partner(NewName(y, newID))
    requires NewName(y, newID) in t.bucket && t.bucket[NewName(y, newID)] == Partner(x)
    ensures Genuine(b[y].key) && b[y].key.Composite?
    ensures var h := NewName(y, newID);
            var xy := Onwards(b, Onwards(b, t, x, id, newID), y, id, newID);
            var yx := Onwards(b, Onwards(b, t, y, id, newID), x, id, newID);
            && (xy.result.Ok? ==> h in xy.bucket && xy.bucket[h] == b[y])
            && (yx.result.Ok? ==> h in yx.bucket && yx.bucket[h] == Partner(ReplaceInKey(b[y].key, id, newID)))
  {
    var h, p := NewName(y, newID), b[y].key;
    assert EntryOk(x, b[x]) && EntryOk(y, b[y]);
    assert b[h] == Partner(x) && b[p] == Partner(y);
    assert p != h && NewName(x, newID) != h;
  }

  lemma OrderingTwo(order: seq<Key>, s: set<Key>, x: Key, y: Key)
    requires x in s && y in s && x != y && Ordering(order, s - {x, y})
    ensures Ordering(order + [x] + [y], s)
  {
  }

  lemma LaterDecides(b: Bucket, order: seq<Key>, x: Key, y: Key, id: string, newID: string)
    requires Shape(b) && OtherwiseFine(b, id, newID) && x in Group(b, id) && Contended(b, id, newID, x)
    requires y == Composite(id, b[x].key.b) && Ordering(order, Group(b, id) - {x, y})
    ensures Ordering(order + [x] + [y], Group(b, id)) && Ordering(order + [y] + [x], Group(b, id))
    ensures InOrder(b, order + [x] + [y], id, newID) != InOrder(b, order + [y] + [x], id, newID)
  {
    assert EntryOk(x, b[x]) && b[x] == Partner(NewName(y, newID));
    OrderingTwo(order, Group(b, id), x, y);
    OrderingTwo(order, Group(b, id), y, x);
    BothSteps(b, order, x, y, id, newID);
    BothSteps(b, order, y, x, id, newID);
    RenameFailsExactly(b, order + [x] + [y], id, newID);
    RenameFailsExactly(b, order + [y] + [x], id, newID);
    var t := InOrder(b, order, id, newID);
    assert t.result.Ok?;
    RoundsElsewhere(b, order, x, y, id, newID);
    TwoRounds(b, t, x, y, id, newID);
  }

  lemma BothSteps(b: Bucket, order: seq<Key>, x: Key, y: Key, id: string, newID: string)
    requires Shape(b) && NoColon(id) && NoColon(newID) && x in Group(b, id) && y in Group(b, id)
    requires forall k :: k in order ==> k in Group(b, id)
    ensures InOrder(b, order + [x] + [y], id, newID)
            == Onwards(b, Onwards(b, InOrder(b, order, id, newID), x, id, newID), y, id, newID)
  {
    InOrderStep(b, order, x, id, newID);
    InOrderStep(b, order + [x], y, id, newID);
  }

  ghost predicate OtherwiseFine(b: Bucket, id: string, newID: string)
    requires Shape(b)
  {
    Involution(b) && NoColon(id) && NoColon(newID) && id != newID && !PairedInside(b, id)
  }

  lemma OrderMatters(b: Bucket, id: string, newID: string) returns (o: seq<Key>, o': seq<Key>)
    requires Shape(b) && OtherwiseFine(b, id, newID) && !OneOutcome(b, id, newID)
    ensures Ordering(o, Group(b, id)) && Ordering(o', Group(b, id))
    ensures InOrder(b, o, id, newID) != InOrder(b, o', id, newID)
  {
    var x :| x in Group(b, id) && Contended(b, id, newID, x);
    var y := Composite(id, b[x].key.b);
    var order := SomeOrdering(Group(b, id) - {x, y});
    LaterDecides(b, order, x, y, id, newID);
    o, o' := order + [x] + [y], order + [y] + [x];
  }

  /** The map iteration of a rename that does not fail has a say in the result exactly when a new name is
      contended. */
  lemma OrderIrrelevantExactly(b: Bucket, id: string, newID: string)
    requires Shape(b) && Involution(b) && NoColon(id) && NoColon(newID) && (id == newID || !PairedInside(b, id))
    ensures (forall o, o' :: Ordering(o, Group(b, id)) && Ordering(o', Group(b, id)) ==>
              InOrder(b, o, id, newID) == InOrder(b, o', id, newID))
            <==> OneOutcome(b, id, newID)
  {
    if OneOutcome(b, id, newID) {
      forall o, o' | Ordering(o, Group(b, id)) && Ordering(o', Group(b, id))
        ensures InOrder(b, o, id, newID) == InOrder(b, o', id, newID)
      {
        InOrderAdvances(b, o, Group(b, id), id, newID);
        InOrderAdvances(b, o', Group(b, id), id, newID);
      }
    } else {
      var o, o' := OrderMatters(b, id, newID);
    }
  }

  /** g:x and h:y are partners and g:y is its own. */
  function ContendedName(g: string, h: string, x: string, y: string): Bucket {
    Link(Link(map[], Composite(g, x), Composite(h, y)), Composite(g, y), Composite(g, y))
  }

  lemma ContendedNamePaired(g: string, h: string, x: string, y: string)
    requires NoColon(g) && NoColon(h) && NoColon(x) && NoColon(y) && g != h && x != y
    ensures var b := ContendedName(g, h, x, y);
            Shape(b) && OtherwiseFine(b, g, h) && Group(b, g) == {Composite(g, x), Composite(g, y)}
  {
    LinkExactly(map[], Composite(g, x), Composite(h, y));
    LinkExactly(Link(map[], Composite(g, x), Composite(h, y)), Composite(g, y), Composite(g, y));
    var b := ContendedName(g, h, x, y);
    assert Group(b, g) == {Composite(g, x), Composite(g, y)};
    assert b[Composite(g, x)] == Partner(Composite(h, y)) && b[Composite(g, y)] == Partner(Composite(g, y));
  }

  lemma EitherOutcome(g: string, h: string, x: string, y: string)
    requires NoColon(g) && NoColon(h) && NoColon(x) && NoColon(y) && g != h && x != y
    ensures var b, gx, gy, hy := ContendedName(g, h, x, y), Composite(g, x), Composite(g, y), Composite(h, y);
            && Shape(b) && Ordering([gx] + [gy], Group(b, g)) && Ordering([gy] + [gx], Group(b, g))
            && var t, u := InOrder(b, [gx] + [gy], g, h), InOrder(b, [gy] + [gx], g, h);
            && t.result.Ok? && hy in t.bucket && t.bucket[hy] == Partner(gy)
            && u.result.Ok? && hy in u.bucket && u.bucket[hy] == Partner(hy)
  {
    var b, gx, gy := ContendedName(g, h, x, y), Composite(g, x), Composite(g, y);
    ContendedNamePaired(g, h, x, y);
    assert [] + [gx] + [gy] == [gx] + [gy] && [] + [gy] + [gx] == [gy] + [gx];
    OrderingTwo([], Group(b, g), gx, gy);
    OrderingTwo([], Group(b, g), gy, gx);
    BothSteps(b, [], gx, gy, g, h);
    BothSteps(b, [], gy, gx, g, h);
    RenameFailsExactly(b, [gx] + [gy], g, h);
    RenameFailsExactly(b, [gy] + [gx], g, h);
    TwoRounds(b, Txn(b, Ok(())), gx, gy, g, h);
  }

  /** It does happen: with g:3 and h:2 partners and g:2 its own, renaming g to h leaves under h:2 either g:2 or
      h:2, by which of g:3 and g:2 comes first. */
  lemma OrderCanMatter()
    ensures var b := ContendedName("g", "h", "3", "2");
            var x, y, h := Composite("g", "3"), Composite("g", "2"), Composite("h", "2");
            && Shape(b) && NoColon("g") && NoColon("h")
            && Ordering([x] + [y], Group(b, "g")) && Ordering([y] + [x], Group(b, "g"))
            && var t, u := InOrder(b, [x] + [y], "g", "h"), InOrder(b, [y] + [x], "g", "h");
            && t.result.Ok? && h in t.bucket && t.bucket[h] == Partner(y)
            && u.result.Ok? && h in u.bucket && u.bucket[h] == Partner(h)
  {
    assert "g"[0] != ':' && "h"[0] != ':' && "2"[0] == '2' && "3"[0] == '3';
    EitherOutcome("g", "h", "3", "2");
  }

  // ---- what a renaming amounts to ----

  /** What stands under a key after the renaming: a new name has the old name's partner, which points back
      to the new name, and every other key keeps what it had. */
  lemma RenamedValue(b: Bucket, id: string, newID: string, k: Key)
    requires Shape(b) && OneOutcome(b, id, newID) && id != newID && k.Composite?
    ensures var r, names := Renamed(b, id, newID), NewNames(Group(b, id), newID);
            && (k in names ==>
                  k in r && k.a == newID && Composite(id, k.b) in Group(b, id) && r[k] == b[Composite(id, k.b)])
            && (k !in names ==> (k in r <==> k in b && (k.a == id ==> b[k] == Partner(k))))
            && (k !in names && k in r ==>
                  r[k] == if b[k].key in Group(b, id) then Partner(NewName(b[k].key, newID)) else b[k])
  {
    NewNamesMember(b, Group(b, id), id, newID, k);
  }

  /** A renaming may touch the keys of both groups and the partners of the old one's. */
  ghost predicate Renames(b: Bucket, id: string, newID: string, k: Key)
    requires Shape(b)
  {
    k.Composite? && (k.a == id || k.a == newID || (k in b && b[k].key.a == id))
  }

  /** What a finished renaming amounts to, key by key: the new name has the old one's partner, which points to
      the new name unless it is one itself; of the old names only the self-partnered ones are left. */
  lemma RenamedExactly(b: Bucket, id: string, newID: string)
    requires Shape(b) && OneOutcome(b, id, newID) && id != newID
    ensures var r := Renamed(b, id, newID);
            && (forall x :: Composite(id, x) in b ==>
                  && Composite(newID, x) in r && r[Composite(newID, x)] == b[Composite(id, x)]
                  && var p := b[Composite(id, x)].key;
                  p in r && (p in NewNames(Group(b, id), newID) || r[p] == Partner(Composite(newID, x))))
            && (forall k: Key :: !Renames(b, id, newID, k) ==> (k in r <==> k in b) && (k in b ==> r[k] == b[k]))
            && (forall x :: Composite(newID, x) in r <==> Composite(id, x) in b || Composite(newID, x) in b)
            && (forall x :: Composite(id, x) in r <==>
                  Composite(id, x) in b && b[Composite(id, x)] == Partner(Composite(id, x)))
            && Shape(r)
  {
    var r := Renamed(b, id, newID);
    RenamedByShape(b, Group(b, id), id, newID);
    forall x
      ensures Composite(newID, x) in r <==> Composite(id, x) in b || Composite(newID, x) in b
      ensures Composite(id, x) in r <==> Composite(id, x) in b && b[Composite(id, x)] == Partner(Composite(id, x))
    {
      NewNamesMember(b, Group(b, id), id, newID, Composite(newID, x));
      RenamedValue(b, id, newID, Composite(newID, x));
      RenamedValue(b, id, newID, Composite(id, x));
    }
    forall x | Composite(id, x) in b
      ensures Composite(newID, x) in r && r[Composite(newID, x)] == b[Composite(id, x)]
      ensures var p := b[Composite(id, x)].key;
              p in r && (p in NewNames(Group(b, id), newID) || r[p] == Partner(Composite(newID, x)))
    {
      PartnerFollows(b, id, newID, x);
    }
    forall k: Key | !Renames(b, id, newID, k)
      ensures (k in r <==> k in b) && (k in b ==> r[k] == b[k])
    {
      NewNamesMember(b, Group(b, id), id, newID, k);
    }
  }

  lemma PartnerFollows(b: Bucket, id: string, newID: string, x: string)
    requires Shape(b) && OneOutcome(b, id, newID) && id != newID && Composite(id, x) in b
    ensures var r, p := Renamed(b, id, newID), b[Composite(id, x)].key;
            && Composite(newID, x) in r && r[Composite(newID, x)] == b[Composite(id, x)]
            && p in r && (p in NewNames(Group(b, id), newID) || r[p] == Partner(Composite(newID, x)))
  {
    var k := Composite(id, x);
    assert EntryOk(k, b[k]) && k in Group(b, id);
    var p := b[k].key;
    assert p in b && b[p] == Partner(k);
    NewNamesMember(b, Group(b, id), id, newID, Composite(newID, x));
    RenamedValue(b, id, newID, Composite(newID, x));
    RenamedValue(b, id, newID, p);
    assert p in Group(b, id) ==> p == k;
  }

  // ---- when a renaming keeps the partners ----

  /** Every new name that is already taken has its partner among the new names, or gets a partner among them
      that is renamed to be its partner. */
  ghost predicate TakenFit(b: Bucket, id: string, newID: string)
    requires Shape(b)
  {
    forall k :: k in Group(b, id) && NewName(k, newID) in b ==> NameFits(b, id, newID, k)
  }

  ghost predicate NameFits(b: Bucket, id: string, newID: string, k: Key)
    requires Shape(b) && k in Group(b, id) && NewName(k, newID) in b
  {
    var q := b[NewName(k, newID)];
    q.Partner? && (q.key in NewNames(Group(b, id), newID)
                   || (q.key in Group(b, id) && b[k] == Partner(NewName(q.key, newID))))
  }

  lemma FittingNewName(b: Bucket, id: string, newID: string, k: Key)
    requires Shape(b) && OneOutcome(b, id, newID) && id != newID && TakenFit(b, id, newID) && k in Group(b, id)
    ensures var r, n := Renamed(b, id, newID), NewName(k, newID);
            n in r && r[n].Partner? && r[n].key in r && r[r[n].key] == Partner(n)
  {
    var group, n, p := Group(b, id), NewName(k, newID), b[k].key;
    PartnerFollows(b, id, newID, k.b);
    assert EntryOk(k, b[k]) && b[p] == Partner(k);
    NewNamesMember(b, group, id, newID, p);
    NewNamesMember(b, group, id, newID, k);
    if p in NewNames(group, newID) {
      var z := Composite(id, p.b);
      assert p == NewName(z, newID) && NameFits(b, id, newID, z);
      RenamedValue(b, id, newID, p);
    }
  }

  lemma FittingElsewhere(b: Bucket, id: string, newID: string, k: Key)
    requires Shape(b) && OneOutcome(b, id, newID) && id != newID && TakenFit(b, id, newID)
    requires k.Composite? && k in Renamed(b, id, newID) && k !in NewNames(Group(b, id), newID)
    ensures var r := Renamed(b, id, newID); r[k].Partner? && r[k].key in r && r[r[k].key] == Partner(k)
  {
    var group := Group(b, id);
    RenamedValue(b, id, newID, k);
    assert EntryOk(k, b[k]);
    var q := b[k].key;
    assert q in b && b[q] == Partner(k);
    if q in group {
      PartnerFollows(b, id, newID, q.b);
    } else {
      NewNamesMember(b, group, id, newID, q);
      RenamedValue(b, id, newID, q);
    }
  }

  /** A taken name that does not fit: its former partner, or that one's new name, is left pointing at a key
      that now belongs to somebody else. */
  lemma RenameOrphans(b: Bucket, id: string, newID: string, k: Key)
    requires Shape(b) && OneOutcome(b, id, newID) && id != newID && k in Group(b, id) && NewName(k, newID) in b
    requires !NameFits(b, id, newID, k)
    ensures var r, n := Renamed(b, id, newID), NewName(k, newID);
            exists orphan :: orphan in r && orphan.Composite? && r[orphan] == Partner(n)
              && n in r && r[n] == b[k] && b[k] != Partner(orphan)
  {
    var group, n, r := Group(b, id), NewName(k, newID), Renamed(b, id, newID);
    assert EntryOk(n, b[n]) && EntryOk(k, b[k]);
    var q := b[n].key;
    assert q in b && b[q] == Partner(n) && b[b[k].key] == Partner(k);
    NewNamesMember(b, group, id, newID, n);
    RenamedValue(b, id, newID, n);
    if q in group {
      PartnerFollows(b, id, newID, q.b);
      assert r[NewName(q, newID)] == Partner(n);
    } else {
      RenamedValue(b, id, newID, q);
      assert r[q] == Partner(n);
    }
  }

  /** Nothing checks that the new names are free. The finished renaming, in whatever order it went, leaves
      every key its partner's partner exactly when the taken names fit. */
  lemma RenameExactly(b: Bucket, id: string, newID: string)
    requires Shape(b) && OneOutcome(b, id, newID)
    ensures Shape(Renamed(b, id, newID))
    ensures Involution(Renamed(b, id, newID)) <==> id == newID || TakenFit(b, id, newID)
  {
    RenamedByShape(b, Group(b, id), id, newID);
    var r := Renamed(b, id, newID);
    if id == newID {
      RenamedByOntoItself(b, Group(b, id), id);
    } else if TakenFit(b, id, newID) {
      forall k | k in r && k.Composite?
        ensures r[k].key in r && r[r[k].key] == Partner(k)
      {
        NewNamesMember(b, Group(b, id), id, newID, k);
        if k in NewNames(Group(b, id), newID) {
          FittingNewName(b, id, newID, Composite(id, k.b));
        } else {
          FittingElsewhere(b, id, newID, k);
        }
      }
    } else {
      var k :| k in Group(b, id) && NewName(k, newID) in b && !NameFits(b, id, newID, k);
      RenameOrphans(b, id, newID, k);
    }
  }

  /** Renaming a renamable group keeps every key its partner's partner. */
  lemma RenameKeepsInvolution(b: Bucket, id: string, newID: string)
    requires Shape(b) && Renamable(b, id, newID)
    ensures Shape(Renamed(b, id, newID)) && Involution(Renamed(b, id, newID))
  {
    RenameExactly(b, id, newID);
    assert forall k :: k in Group(b, id) && NewName(k, newID) in b ==> NewName(k, newID) in Group(b, newID);
  }

  /** Two pairs: g:x with p:x, and h:x with q:x. */
  function TwoPairs(g: string, p: string, h: string, q: string, x: string): Bucket {
    Link(Link(map[], Composite(g, x), Composite(p, x)), Composite(h, x), Composite(q, x))
  }

  lemma TwoPairsPaired(g: string, p: string, h: string, q: string, x: string)
    requires NoColon(g) && NoColon(p) && NoColon(h) && NoColon(q) && NoColon(x)
    requires g != p && g != h && g != q && p != h && p != q && h != q
    ensures Shape(TwoPairs(g, p, h, q, x)) && Involution(TwoPairs(g, p, h, q, x))
  {
    LinkExactly(map[], Composite(g, x), Composite(p, x));
    LinkExactly(Link(map[], Composite(g, x), Composite(p, x)), Composite(h, x), Composite(q, x));
  }

  lemma TwoPairsGroup(g: string, p: string, h: string, q: string, x: string)
    requires g != p && g != h && g != q
    ensures var b := TwoPairs(g, p, h, q, x);
            Group(b, g) == {Composite(g, x)} && NewNames(Group(b, g), h) == {Composite(h, x)}
  {
    var b := TwoPairs(g, p, h, q, x);
    assert Group(b, g) == {Composite(g, x)};
    assert NewNames({Composite(g, x)}, h) == {Composite(h, x)};
  }

  lemma TwoPairsOrphan(g: string, p: string, h: string, q: string, x: string)
    requires NoColon(g) && NoColon(p) && NoColon(h) && NoColon(q) && NoColon(x)
    requires g != p && g != h && g != q && p != h && p != q && h != q
    ensures var b := TwoPairs(g, p, h, q, x);
            Shape(b) && OneOutcome(b, g, h) && Shape(Renamed(b, g, h)) && !Involution(Renamed(b, g, h))
  {
    var b := TwoPairs(g, p, h, q, x);
    TwoPairsPaired(g, p, h, q, x);
    TwoPairsGroup(g, p, h, q, x);
    assert b[Composite(g, x)] == Partner(Composite(p, x)) && b[Composite(h, x)] == Partner(Composite(q, x));
    RenameExactly(b, g, h);
    assert NewName(Composite(g, x), h) == Composite(h, x);
  }

  /** Group g has a member that group h has too, with partners of their own: renaming g to h leaves h's old
      partner q:1 pointing at h:1, which now points at p:1. */
  lemma RenameCanOrphan()
    ensures var b := TwoPairs("g", "p", "h", "q", "1");
            && Shape(b) && OneOutcome(b, "g", "h") && Shape(Renamed(b, "g", "h")) && !Involution(Renamed(b, "g", "h"))
  {
    assert "g"[0] == 'g' && "p"[0] == 'p' && "h"[0] == 'h' && "q"[0] == 'q';
    TwoPairsOrphan("g", "p", "h", "q", "1");
  }

  /** One round of the loop onto a name that may be taken: it keeps the involution exactly when the new name
      is free, its own partner, or the key's partner. */
  lemma RenameOntoTakenExactly(b: Bucket, key: Key, id: string, newID: string)
    requires Shape(b) && Involution(b) && NoColon(id) && NoColon(newID) && id != newID
    requires key in Group(b, id) && b[key].key.a != id
    ensures Genuine(key) && Genuine(b[key].key) && b[key].key.Composite?
    ensures var t, n := RenameOne(b, key, b[key].key, id, newID), NewName(key, newID);
            t.result.Ok? && Shape(t.bucket) &&
            (Involution(t.bucket) <==> n !in b || b[n] == Partner(n) || b[n] == Partner(key))
  {
    assert EntryOk(key, b[key]);
    var r, n := b[key].key, NewName(key, newID);
    RenameOneKeepsShape(b, key, r, id, newID);
    RelinkExactly(b, key, r, n);
  }

  lemma RelinkExactly(b: Bucket, key: Key, r: Key, n: Key)
    requires Shape(b) && Involution(b) && key in b && b[key] == Partner(r)
    requires key.Composite? && n.Composite? && n != key && r != key
    requires Shape(Link(b - {key}, n, r))
    ensures Involution(Link(b - {key}, n, r)) <==> n !in b || b[n] == Partner(n) || b[n] == Partner(key)
  {
    var b' := Link(b - {key}, n, r);
    if n in b && b[n] != Partner(n) && b[n] != Partner(key) {
      var orphan := b[n].key;
      assert b'[orphan] == Partner(n) && b'[n] == Partner(r);
    }
  }

  // ---- the members of a group, in cursor order ----

  /** `s` lists the second halves of the keys of group `id`, each once, in key order. */
  ghost predicate Lists(b: Bucket, id: string, s: seq<string>) {
    Sorted(s) && forall x :: x in s <==> Composite(id, x) in b
  }

  lemma ListingUnique(b: Bucket, id: string, s: seq<string>, b': Bucket, id': string, s': seq<string>)
    requires Lists(b, id, s) && Lists(b', id', s')
    requires forall x :: Composite(id, x) in b <==> Composite(id', x) in b'
    ensures s == s'
  {
    SortedUnique(s, s');
  }

  /** The new id has the members of both ids afterwards, the old one only those whose key was its own partner;
      the member lists of other groups stay. */
  lemma RenameCarriesMembers(b: Bucket, id: string, newID: string, g: string, s: seq<string>)
    requires Shape(b) && OneOutcome(b, id, newID) && id != newID
    ensures var r := Renamed(b, id, newID);
            && (forall x :: Composite(newID, x) in r <==> Composite(id, x) in b || Composite(newID, x) in b)
            && (forall x :: Composite(id, x) in r <==>
                  Composite(id, x) in b && b[Composite(id, x)] == Partner(Composite(id, x)))
            && (g != id && g != newID && Lists(b, g, s) ==> Lists(r, g, s))
  {
    RenamedExactly(b, id, newID);
    if g != id && g != newID {
      forall x
        ensures Composite(g, x) in Renamed(b, id, newID) <==> Composite(g, x) in b
      {
        NewNamesMember(b, Group(b, id), id, newID, Composite(g, x));
      }
    }
  }

  /** Whatever two listings of the old id before and of the new id after the renaming return, they are equal. */
  lemma RenameListsTheSame(b: Bucket, id: string, newID: string, before: seq<string>, after: seq<string>)
    requires Shape(b) && Renamable(b, id, newID) && Lists(b, id, before) && Lists(Renamed(b, id, newID), newID, after)
    ensures after == before
  {
    if id == newID {
      RenamedByOntoItself(b, Group(b, id), id);
    } else {
      RenamedExactly(b, id, newID);
      assert forall x :: Composite(newID, x) !in Group(b, newID);
    }
    ListingUnique(b, id, before, Renamed(b, id, newID), newID, after);
  }

  // ---- what the pair operations answer ----

  /** What a lookup answers once a pair stands under a key. */
  lemma FoundUnder(b: Bucket, x: string, y: string, p: Key)
    requires Shape(b) && Composite(x, y) in b && b[Composite(x, y)] == Partner(p) && p.Composite?
    ensures RetrievePair(b, x, y) == Ok((p.a, p.b))
  {
    RetrieveIsPartner(b, x, y);
  }

  lemma RebindFound(b: Bucket, o: Key, n: Key)
    requires Shape(b) && Involution(b) && o.Composite? && n.Composite? && Genuine(n) && o in b && n !in b
    ensures var b', p := Rebind(b, o, n).bucket, b[o].key;
            && Shape(b') && p.Composite?
            && RetrievePair(b, o.a, o.b) == Ok((p.a, p.b)) && RetrievePair(b', n.a, n.b) == Ok((p.a, p.b))
            && RetrievePair(b', p.a, p.b) == Ok((n.a, n.b)) && (p == o || RetrievePair(b', o.a, o.b).Err?)
  {
    var b', p := Rebind(b, o, n).bucket, b[o].key;
    assert EntryOk(o, b[o]) && p in b;
    LinkKeepsShape(b - {o} - {p}, n, p);
    FoundUnder(b, o.a, o.b, p);
    FoundUnder(b', n.a, n.b, p);
    FoundUnder(b', p.a, p.b, n);
    assert p != o ==> o !in b';
  }

  /** A pair rebind in terms of lookups. It fails when the old pair is unknown, or else when the new one is taken,
      and changes nothing then. Otherwise the new pair and the real one answer with each other, and the old pair
      answers no more unless it was its own partner. */
  lemma UpdateProMoves(b: Bucket, old1: int64, new1: int64, old2: int64, new2: int64)
    requires Shape(b) && Involution(b)
    ensures Shape(UpdateVirtualValuePro(b, old1, new1, old2, new2).bucket)
    ensures var t := UpdateVirtualValuePro(b, old1, new1, old2, new2);
            var was := RetrievePair(b, FormatInt(old1), FormatInt(old2));
            && (t.result == Err(NotFound) <==> was.Err?)
            && (t.result == Err(AlreadyBound) <==>
                  was.Ok? && RetrievePair(b, FormatInt(new1), FormatInt(new2)).Ok?)
            && (t.result.Err? ==> t.bucket == b)
            && (t.result.Ok? ==>
                  && was.Ok?
                  && RetrievePair(t.bucket, FormatInt(new1), FormatInt(new2)) == was
                  && RetrievePair(t.bucket, was.value.0, was.value.1) == Ok((FormatInt(new1), FormatInt(new2)))
                  && (was.value == (FormatInt(old1), FormatInt(old2))
                      || RetrievePair(t.bucket, FormatInt(old1), FormatInt(old2)).Err?))
  {
    var o, n := Composite(FormatInt(old1), FormatInt(old2)), Composite(FormatInt(new1), FormatInt(new2));
    RetrieveIsPartner(b, o.a, o.b);
    RetrieveIsPartner(b, n.a, n.b);
    if o in b && n !in b {
      VirtualKeyGenuine(new1, new2);
      RebindFound(b, o, n);
    }
  }

  lemma RebindSparesOthers(b: Bucket, o: Key, n: Key, k: Key)
    requires Shape(b) && Involution(b) && o.Composite? && n.Composite? && Genuine(n) && k.Composite?
    requires k != o && k != n && (o in b ==> b[o] != Partner(k))
    ensures var b' := Rebind(b, o, n).bucket; Shape(b') && RetrievePair(b', k.a, k.b) == RetrievePair(b, k.a, k.b)
  {
    var b' := Rebind(b, o, n).bucket;
    if o in b && n !in b {
      RebindFound(b, o, n);
      assert (k in b' <==> k in b) && (k in b ==> b'[k] == b[k]);
    }
  }

  /** Every pair but the old one, the new one and the partner answers as before. */
  lemma UpdateProSpares(b: Bucket, old1: int64, new1: int64, old2: int64, new2: int64, x: string, y: string)
    requires Shape(b) && Involution(b)
    requires (x, y) != (FormatInt(old1), FormatInt(old2)) && (x, y) != (FormatInt(new1), FormatInt(new2))
    requires RetrievePair(b, FormatInt(old1), FormatInt(old2)) != Ok((x, y))
    ensures Shape(UpdateVirtualValuePro(b, old1, new1, old2, new2).bucket)
    ensures RetrievePair(UpdateVirtualValuePro(b, old1, new1, old2, new2).bucket, x, y) == RetrievePair(b, x, y)
  {
    var o, n := Composite(FormatInt(old1), FormatInt(old2)), Composite(FormatInt(new1), FormatInt(new2));
    VirtualKeyGenuine(new1, new2);
    RetrieveIsPartner(b, o.a, o.b);
    RebindSparesOthers(b, o, n, Composite(x, y));
  }

  /** A new pair is found under its virtual pair, and the virtual pair under it. */
  lemma NewPairFound(cfg: Config, b: Bucket, id: string, subid: string, row: int64, subRow: int64)
    requires Shape(b) && NoColon(id) && NoColon(subid) && Composite(id, subid) !in b
    requires DrawsPair(cfg, id, subid, row, subRow) && (id, subid) != (FormatInt(row), FormatInt(subRow))
    ensures var t := StoreIDPro(cfg, b, id, subid);
            && t.result == Ok((row, subRow)) && Shape(t.bucket)
            && RetrievePair(t.bucket, id, subid) == Ok((FormatInt(row), FormatInt(subRow)))
            && RetrievePair(t.bucket, FormatInt(row), FormatInt(subRow)) == Ok((id, subid))
  {
    StoreProKeepsShape(cfg, b, id, subid);
    var b' := StoreIDPro(cfg, b, id, subid).bucket;
    RetrieveIsPartner(b', id, subid);
    RetrieveIsPartner(b', FormatInt(row), FormatInt(subRow));
  }

  /** The first pair stored, group 158 and user 1939: group first in the answer and in the virtual pair. */
  lemma FirstPair(cfg: Config)
    requires cfg.md5("158") == DIGEST_OF_158 && cfg.md5("1939") == DIGEST_OF_1939
    ensures var t := StoreIDPro(cfg, map[], "158", "1939");
            && t.result == Ok((64096632, 224747127)) && Shape(t.bucket)
            && RetrievePair(t.bucket, FormatInt(64096632), FormatInt(224747127)) == Ok(("158", "1939"))
  {
    LeadingZeroDisowned();
    TwoDigestsAgree();
    assert forall i :: 0 <= i < 3 ==> "158"[i] != ':';
    assert forall i :: 0 <= i < 4 ==> "1939"[i] != ':';
    assert FormatInt(64096632) != "158" by {
      LastTwo(64096632);
      assert "158"[2] == '8';
    }
    NewPairFound(cfg, map[], "158", "1939", 64096632, 224747127);
  }
}
