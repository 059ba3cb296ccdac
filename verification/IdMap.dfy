/** The id map itself (idmap/service.go, local versions): transactions over one bucket, and what holds
    over every run of them. */
module IdMapService {
  import opened Outcome
  import opened Decimal
  import opened Text
  import opened Keys
  import opened RowId
  import opened IdSingles
  import opened IdPairs

  class IdMap {
    var bucket: Bucket
    const cfg: Config

    ghost predicate Valid()
      reads this
    {
      Shape(bucket)
    }

    constructor (cfg: Config)
      ensures Valid() && bucket == map[] && this.cfg == cfg
    {
      this.cfg := cfg;
      bucket := map[];
    }

    method StoreID(id: string) returns (r: Result<int64, IdError>)
      requires Valid() && RealId(id)
      modifies this
      ensures Valid() && Txn(bucket, r) == IdSingles.StoreID(cfg, old(bucket), id)
    {
      SinglesKeepShape(cfg, bucket, id, 0, 0);
      var tx := bucket;
      if Real(id) in tx {
        return Ok(tx[Real(id)].row);
      }
      var newRow: int64 := 1;
      if !cfg.hashMode {
        if Counter in tx {
          var current := tx[Counter].row;
          newRow := if current == MAX_INT64 then MIN_INT64 else current + 1;
        }
      } else {
        var unused := UnusedRow(id);
        if unused.Err? {
          return unused;
        }
        newRow := unused.value;
      }
      if !cfg.hashMode {
        tx := tx[Counter := Row(newRow)];
      }
      tx := tx[Real(id) := Row(newRow)];
      tx := tx[Reverse(newRow) := Id(id)];
      bucket := tx;
      r := Ok(newRow);
    }

    method UnusedRow(id: string) returns (r: Result<int64, IdError>)
      ensures r == FreshRow(cfg.md5(id), bucket)
    {
      var row := GenerateRowID(cfg.md5(id), 9);
      if row.Err? {
        return Err(RowGeneration(row.error));
      }
      if Reverse(row.value) in bucket {
        row := GenerateRowID(cfg.md5(id), 10);
        if row.Err? {
          return Err(RowGeneration(row.error));
        }
        if Reverse(row.value) in bucket {
          return Err(NoUniqueRow);
        }
      }
      r := Ok(row.value);
    }

    method SimplifiedStoreID(id: string) returns (r: Result<int64, IdError>)
      requires Valid() && RealId(id)
      modifies this
      ensures Valid() && Txn(bucket, r) == IdSingles.SimplifiedStoreID(cfg, old(bucket), id)
    {
      SinglesKeepShape(cfg, bucket, id, 0, 0);
      r := UnusedRow(id);
      if r.Ok? {
        bucket := bucket[Reverse(r.value) := Id(id)];
      }
    }

    method UpdateVirtualValue(oldRow: int64, newRow: int64) returns (r: Result<(), IdError>)
      requires Valid()
      modifies this
      ensures Valid() && Txn(bucket, r) == IdSingles.UpdateVirtualValue(old(bucket), oldRow, newRow)
    {
      var tx := bucket;
      if Reverse(oldRow) !in tx {
        return Err(NotFound);
      }
      var id := tx[Reverse(oldRow)].id;
      SinglesKeepShape(cfg, bucket, id, oldRow, newRow);
      if Reverse(newRow) in tx {
        return Err(AlreadyBound);
      }
      tx := tx[Real(id) := Row(newRow)];
      tx := tx - {Reverse(oldRow)};
      tx := tx[Reverse(newRow) := Id(id)];
      bucket := tx;
      r := Ok(());
    }

    method StoreIDPro(id: string, subid: string) returns (r: Result<(int64, int64), IdError>)
      requires Valid() && NoColon(id) && NoColon(subid)
      modifies this
      ensures Valid() && Txn(bucket, r) == IdPairs.StoreIDPro(cfg, old(bucket), id, subid)
    {
      StoreProKeepsShape(cfg, bucket, id, subid);
      var forward := Composite(id, subid);
      if forward in bucket {
        return Ok(ScanPair(KeyText(bucket[forward].key)));
      }
      var row := GenerateRowID(cfg.md5(id), 9);
      if row.Err? {
        return Err(RowGeneration(row.error));
      }
      var subRow := GenerateRowID(cfg.md5(subid), 9);
      if subRow.Err? {
        return Err(RowGeneration(subRow.error));
      }
      var reverse := VirtualKey(row.value, subRow.value);
      bucket := bucket[forward := Partner(reverse)][reverse := Partner(forward)];
      r := Ok((row.value, subRow.value));
    }

    method UpdateVirtualValuePro(old1: int64, new1: int64, old2: int64, new2: int64) returns (r: Result<(), IdError>)
      requires Valid()
      modifies this
      ensures Valid() && Txn(bucket, r) == IdPairs.UpdateVirtualValuePro(old(bucket), old1, new1, old2, new2)
    {
      var tx, oldKey, newKey := bucket, VirtualKey(old1, old2), VirtualKey(new1, new2);
      if oldKey !in tx {
        return Err(NotFound);
      }
      var partner := tx[oldKey].key;
      if newKey in tx {
        return Err(AlreadyBound);
      }
      VirtualKeyGenuine(new1, new2);
      LinkKeepsShape(tx - {oldKey} - {partner}, newKey, partner);
      tx := tx - {oldKey};
      tx := tx - {partner};
      tx := tx[newKey := Partner(partner)];
      tx := tx[partner := Partner(newKey)];
      bucket := tx;
      r := Ok(());
    }

    /** The rename loop visits the collected keys in whatever order the map iteration yields. The bucket is what
        the rounds in that order make of it; unless a new name is contended, no order makes anything else of it.
        It fails exactly when two keys of the group are each other's partner. */
    method UpdateKeysWithNewID(id: string, newID: string) returns (r: Result<(), IdError>, ghost order: seq<Key>)
      requires Valid() && NoColon(id) && NoColon(newID)
      modifies this
      ensures Valid()
      ensures Ordering(order, old(Group(bucket, id))) && Txn(bucket, r) == InOrder(old(bucket), order, id, newID)
      ensures old(OneOutcome(bucket, id, newID)) ==> r.Ok? && bucket == Renamed(old(bucket), id, newID)
      ensures old(Involution(bucket)) ==> (r.Err? <==> id != newID && old(PairedInside(bucket, id)))
      ensures r.Err? ==> r.error == ReverseMissing && bucket == old(bucket)
    {
      var keysToUpdate := CollectGroup(id);
      var t;
      t, order := RenameCollected(bucket, keysToUpdate, id, newID);
      RenameOutcome(bucket, order, id, newID);
      bucket := t.bucket;
      r := t.result;
    }

    method CollectGroup(id: string) returns (found: map<Key, Key>)
      requires Valid()
      ensures found.Keys == Group(bucket, id)
      ensures forall k :: k in found ==> bucket[k] == Partner(found[k])
    {
      found := map[];
      var unseen := bucket.Keys;
      while unseen != {}
        invariant unseen <= bucket.Keys
        invariant found.Keys == Group(bucket, id) - unseen
        invariant forall k :: k in found ==> bucket[k] == Partner(found[k])
      {
        var k :| k in unseen;
        assert EntryOk(k, bucket[k]);
        GroupPrefix(k, id);
        if HasPrefix(KeyText(k), id + ":") {
          found := found[k := bucket[k].key];
        }
        unseen := unseen - {k};
      }
    }

    /** The keys in the order a bolt cursor walks them. */
    method CursorOrder() returns (keys: seq<Key>)
      requires Valid()
      ensures InKeyOrder(keys) && forall k :: k in keys <==> k in bucket
    {
      keys := [];
      var unseen := bucket.Keys;
      while unseen != {}
        invariant unseen <= bucket.Keys && InKeyOrder(keys)
        invariant forall k :: k in keys <==> k in bucket && k !in unseen
      {
        var k :| k in unseen;
        assert EntryOk(k, bucket[k]);
        forall j | j in keys
          ensures KeyText(j) != KeyText(k)
        {
          assert EntryOk(j, bucket[j]);
          if KeyText(j) == KeyText(k) {
            KeyTextInjective(j, k);
          }
        }
        keys := InsertKey(keys, k);
        unseen := unseen - {k};
      }
    }

    /** The cursor walk from `id:` collects the group's second halves, each once, in key order. */
    method FindSubKeysById(id: string) returns (subKeys: seq<string>)
      requires Valid()
      ensures Lists(bucket, id, subKeys)
    {
      var keys := CursorOrder();
      forall k | k in keys
        ensures Genuine(k)
      {
        assert EntryOk(k, bucket[k]);
      }
      subKeys := Walk(keys, id);
    }
  }

  method RenameCollected(b: Bucket, keysToUpdate: map<Key, Key>, id: string, newID: string)
    returns (t: Txn<()>, ghost order: seq<Key>)
    requires Shape(b) && NoColon(id) && NoColon(newID) && keysToUpdate.Keys == Group(b, id)
    requires forall k :: k in keysToUpdate ==> b[k] == Partner(keysToUpdate[k])
    ensures Ordering(order, Group(b, id)) && t == InOrder(b, order, id, newID)
  {
    var tx, rest := b, keysToUpdate.Keys;
    order := [];
    while rest != {}
      invariant rest <= Group(b, id) && Shape(tx) && Ordering(order, Group(b, id) - rest)
      invariant InOrder(b, order, id, newID) == Txn(tx, Ok(()))
    {
      var key :| key in rest;
      var reverse := keysToUpdate[key];
      InOrderStep(b, order, key, id, newID);
      OrderingNext(order, Group(b, id), rest, key);
      assert EntryOk(key, b[key]);
      order := order + [key];
      rest := rest - {key};
      if reverse !in tx {
        order := FailedOrder(b, order, rest, id, newID);
        return Txn(b, Err(ReverseMissing)), order;
      }
      var newKey := ReplaceInKey(key, id, newID);
      var reverseValue := tx[reverse].key;
      tx := (tx - {key})[newKey := Partner(reverse)];
      tx := tx[reverse := Partner(ReplaceInKey(reverseValue, id, newID))];
    }
    assert Group(b, id) - {} == Group(b, id);
    t := Txn(tx, Ok(()));
  }

  lemma GroupEntry(k: Key, id: string)
    requires Genuine(k) && HasPrefix(KeyText(k), id + ":")
    ensures k.Composite? && k == Composite(id, k.b) && IsPair(KeyText(k)) && Right(KeyText(k)) == k.b
  {
    GroupPrefix(k, id);
    SeparatorMarksComposite(k);
  }

  /** Seek to `id:`. */
  method Seek(keys: seq<Key>, prefix: string) returns (i: nat)
    ensures i <= |keys| && forall j :: 0 <= j < i ==> Less(KeyText(keys[j]), prefix)
    ensures i == |keys| || !Less(KeyText(keys[i]), prefix)
  {
    i := 0;
    while i < |keys| && Less(KeyText(keys[i]), prefix)
      invariant i <= |keys| && forall j :: 0 <= j < i ==> Less(KeyText(keys[j]), prefix)
    {
      i := i + 1;
    }
  }

  /** Next while the prefix lasts. */
  method Follow(keys: seq<Key>, id: string, start: nat) returns (subKeys: seq<string>, end: nat)
    requires start <= |keys| && forall i :: 0 <= i < |keys| ==> Genuine(keys[i])
    ensures start <= end <= |keys| && |subKeys| == end - start
    ensures forall j :: 0 <= j < |subKeys| ==> keys[start + j] == Composite(id, subKeys[j])
    ensures end == |keys| || !HasPrefix(KeyText(keys[end]), id + ":")
  {
    end, subKeys := start, [];
    while end < |keys| && HasPrefix(KeyText(keys[end]), id + ":")
      invariant start <= end <= |keys| && |subKeys| == end - start
      invariant forall j :: 0 <= j < |subKeys| ==> keys[start + j] == Composite(id, subKeys[j])
    {
      var subKey := SecondHalf(keys[end], id);
      subKeys := subKeys + subKey;
      end := end + 1;
    }
  }

  /** The part a key of the group contributes, if it has exactly two. */
  method SecondHalf(k: Key, id: string) returns (part: seq<string>)
    requires Genuine(k) && HasPrefix(KeyText(k), id + ":")
    ensures k.Composite? && k == Composite(id, k.b) && part == [k.b]
  {
    GroupEntry(k, id);
    var here := KeyText(k);
    part := if IsPair(here) then [Right(here)] else [];
  }

  /** Seek to `id:` and follow. */
  method Walk(keys: seq<Key>, id: string) returns (subKeys: seq<string>)
    requires InKeyOrder(keys) && forall k :: k in keys ==> Genuine(k)
    ensures Sorted(subKeys) && forall x :: x in subKeys <==> Composite(id, x) in keys
  {
    var start := Seek(keys, id + ":");
    var end;
    subKeys, end := Follow(keys, id, start);
    WalkIsSorted(keys, id, subKeys, start);
    WalkFinds(keys, id, subKeys, start, end);
  }

  /** What lies between the end of the seek and the end of the walk is the whole group. */
  lemma WalkFinds(keys: seq<Key>, id: string, subKeys: seq<string>, start: nat, end: nat)
    requires InKeyOrder(keys) && (forall k :: k in keys ==> Genuine(k)) && start <= end <= |keys|
    requires |subKeys| == end - start
    requires forall j :: 0 <= j < |subKeys| ==> keys[start + j] == Composite(id, subKeys[j])
    requires forall j :: 0 <= j < start ==> Less(KeyText(keys[j]), id + ":")
    requires start == |keys| || !Less(KeyText(keys[start]), id + ":")
    requires end == |keys| || !HasPrefix(KeyText(keys[end]), id + ":")
    ensures forall x :: x in subKeys <==> Composite(id, x) in keys
  {
    forall x | Composite(id, x) in keys
      ensures x in subKeys
    {
      var j :| 0 <= j < |keys| && keys[j] == Composite(id, x);
      GroupIsOneBlock(keys, id, j, start, end);
      assert keys[start + (j - start)] == Composite(id, subKeys[j - start]);
    }
    forall x | x in subKeys
      ensures Composite(id, x) in keys
    {
      var j :| 0 <= j < |subKeys| && subKeys[j] == x;
      assert keys[start + j] in keys;
    }
  }

  /** A key of the group lies between the end of the seek and the end of the walk. */
  lemma GroupIsOneBlock(keys: seq<Key>, id: string, j: nat, start: nat, end: nat)
    requires InKeyOrder(keys) && j < |keys| && Genuine(keys[j]) && keys[j].Composite? && keys[j].a == id
    requires start <= end <= |keys|
    requires forall i :: 0 <= i < start ==> Less(KeyText(keys[i]), id + ":")
    requires start == |keys| || !Less(KeyText(keys[start]), id + ":")
    requires end == |keys| || !HasPrefix(KeyText(keys[end]), id + ":")
    ensures start <= j < end
  {
    var p, t := id + ":", KeyText(keys[j]);
    GroupPrefix(keys[j], id);
    HasPrefixNotBefore(t, p);
    if end < j {
      var e := KeyText(keys[end]);
      if Less(e, p) {
        LessIrreflexive(e);
        if start < end {
          LessTransitive(KeyText(keys[start]), e, p);
        }
      } else {
        PrefixBlock(p, e, t);
      }
    }
  }

  ghost predicate InKeyOrder(keys: seq<Key>) {
    forall i, j :: 0 <= i < j < |keys| ==> Less(KeyText(keys[i]), KeyText(keys[j]))
  }

  function InsertKey(keys: seq<Key>, k: Key): (r: seq<Key>)
    requires InKeyOrder(keys) && forall j :: j in keys ==> KeyText(j) != KeyText(k)
    ensures InKeyOrder(r) && forall j :: j in r <==> j in keys || j == k
  {
    if keys == [] then [k]
    else if Less(KeyText(k), KeyText(keys[0])) then
      assert forall j :: 0 <= j < |keys| ==> Less(KeyText(k), KeyText(keys[j])) by {
        forall j | 0 < j < |keys| ensures Less(KeyText(k), KeyText(keys[j])) {
          LessTransitive(KeyText(k), KeyText(keys[0]), KeyText(keys[j]));
        }
      }
      [k] + keys
    else
      LessTotal(KeyText(k), KeyText(keys[0]));
      var tail := InsertKey(keys[1..], k);
      assert forall j :: 0 <= j < |tail| ==> tail[j] in tail;
      assert forall j :: j in keys[1..] ==> Less(KeyText(keys[0]), KeyText(j));
      [keys[0]] + tail
  }

  /** A string with a prefix does not come before that prefix. */
  lemma HasPrefixNotBefore(t: string, p: string)
    requires HasPrefix(t, p)
    ensures !Less(t, p)
  {
    LessUnderPrefix(p, t[|p|..], []);
    assert p + t[|p|..] == t && p + [] == p;
  }

  lemma WalkIsSorted(keys: seq<Key>, id: string, subKeys: seq<string>, start: nat)
    requires InKeyOrder(keys) && start + |subKeys| <= |keys|
    requires forall j :: 0 <= j < |subKeys| ==> keys[start + j] == Composite(id, subKeys[j])
    ensures Sorted(subKeys)
  {
    forall i, j | 0 <= i < j < |subKeys|
      ensures Less(subKeys[i], subKeys[j])
    {
      LessUnderPrefix(id + ":", subKeys[i], subKeys[j]);
      assert Less(KeyText(keys[start + i]), KeyText(keys[start + j]));
    }
  }

  // ---- runs ----

  datatype Op =
    | DoStoreID(id: string)
    | DoSimplified(id: string)
    | DoUpdate(oldRow: int64, newRow: int64)
    | DoStorePro(id: string, subid: string)
    | DoUpdatePro(old1: int64, new1: int64, old2: int64, new2: int64)
    | DoRename(id: string, newID: string)

  function Apply(cfg: Config, b: Bucket, op: Op): Bucket
    requires Shape(b)
  {
    match op
    case DoStoreID(id) => IdSingles.StoreID(cfg, b, id).bucket
    case DoSimplified(id) => IdSingles.SimplifiedStoreID(cfg, b, id).bucket
    case DoUpdate(o, n) => IdSingles.UpdateVirtualValue(b, o, n).bucket
    case DoStorePro(id, subid) => IdPairs.StoreIDPro(cfg, b, id, subid).bucket
    case DoUpdatePro(o1, n1, o2, n2) => IdPairs.UpdateVirtualValuePro(b, o1, n1, o2, n2).bucket
    case DoRename(id, newID) => Renamed(b, id, newID)
  }

  /** Ids are Discord's; a rename is one with a single result. */
  ghost predicate Admitted(b: Bucket, op: Op)
    requires Shape(b)
  {
    match op
    case DoStoreID(id) => RealId(id)
    case DoSimplified(id) => RealId(id)
    case DoUpdate(_, _) => true
    case DoStorePro(id, subid) => NoColon(id) && NoColon(subid)
    case DoUpdatePro(_, _, _, _) => true
    case DoRename(id, newID) => OneOutcome(b, id, newID)
  }

  lemma StepKeepsShape(cfg: Config, b: Bucket, op: Op)
    requires Shape(b) && Admitted(b, op)
    ensures Shape(Apply(cfg, b, op))
  {
    match op
    case DoStoreID(id) => SinglesKeepShape(cfg, b, id, 0, 0);
    case DoSimplified(id) => SinglesKeepShape(cfg, b, id, 0, 0);
    case DoUpdate(o, n) => if Reverse(o) in b { SinglesKeepShape(cfg, b, b[Reverse(o)].id, o, n); }
    case DoStorePro(id, subid) => StoreProKeepsShape(cfg, b, id, subid);
    case DoUpdatePro(o1, n1, o2, n2) => UpdateProKeepsShape(b, o1, n1, o2, n2);
    case DoRename(id, newID) => RenamedByShape(b, Group(b, id), id, newID);
  }

  lemma UpdateProKeepsShape(b: Bucket, o1: int64, n1: int64, o2: int64, n2: int64)
    requires Shape(b)
    ensures Shape(IdPairs.UpdateVirtualValuePro(b, o1, n1, o2, n2).bucket)
  {
    VirtualKeyGenuine(n1, n2);
    var o, n := VirtualKey(o1, o2), VirtualKey(n1, n2);
    if o in b {
      LinkKeepsShape(b - {o} - {b[o].key}, n, b[o].key);
    }
  }

  /** Operations on pairs never touch a single key, and operations on single ids never touch a pair. */
  lemma KindsAreSeparate(cfg: Config, b: Bucket, op: Op, k: Key)
    requires Shape(b) && Admitted(b, op)
    requires k.Composite? <==> op.DoStoreID? || op.DoSimplified? || op.DoUpdate?
    ensures Shape(Apply(cfg, b, op))
    ensures var b' := Apply(cfg, b, op); (k in b' <==> k in b) && (k in b ==> b'[k] == b[k])
  {
    StepKeepsShape(cfg, b, op);
    if op.DoRename? {
      NewNamesMember(b, Group(b, op.id), op.id, op.newID, k);
    }
  }

  lemma PairStepsSpareRows(cfg: Config, b: Bucket, op: Op)
    requires Shape(b) && Admitted(b, op) && (op.DoStorePro? || op.DoUpdatePro? || op.DoRename?)
    ensures var b' := Apply(cfg, b, op);
            Shape(b') && CounterOf(b') == CounterOf(b)
            && (forall id :: RowOfId(b', id) == RowOfId(b, id)) && (forall r: int64 :: IdOfRow(b', r) == IdOfRow(b, r))
  {
    var b' := Apply(cfg, b, op);
    KindsAreSeparate(cfg, b, op, Counter);
    forall id
      ensures RowOfId(b', id) == RowOfId(b, id)
    {
      KindsAreSeparate(cfg, b, op, Real(id));
    }
    forall r: int64
      ensures IdOfRow(b', r) == IdOfRow(b, r)
    {
      KindsAreSeparate(cfg, b, op, Reverse(r));
    }
  }

  /** A run is admitted when each step is, in the bucket it meets. */
  ghost predicate AdmittedRun(cfg: Config, b: Bucket, ops: seq<Op>)
    requires Shape(b)
    decreases |ops|
  {
    ops == []
        || (Admitted(b, ops[0]) && (StepKeepsShape(cfg, b, ops[0]); AdmittedRun(cfg, Apply(cfg, b, ops[0]), ops[1..])))
  }

  ghost function Run(cfg: Config, b: Bucket, ops: seq<Op>): (b': Bucket)
    requires Shape(b) && AdmittedRun(cfg, b, ops)
    ensures Shape(b')
    decreases |ops|
  {
    if ops == [] then b else StepKeepsShape(cfg, b, ops[0]); Run(cfg, Apply(cfg, b, ops[0]), ops[1..])
  }

  // ---- hashed rows ----

  lemma HashedStep(cfg: Config, b: Bucket, op: Op)
    requires cfg.hashMode && Shape(b) && Reversible(b) && Admitted(b, op)
    ensures Shape(Apply(cfg, b, op)) && Reversible(Apply(cfg, b, op))
  {
    match op
    case DoStoreID(id) => StoreHashedKeepsReversible(cfg, b, id);
    case DoSimplified(id) => SimplifiedKeepsReversible(cfg, b, id);
    case DoUpdate(o, n) => UpdateKeepsReversible(b, o, n);
    case _ => PairStepsSpareRows(cfg, b, op);
  }

  /** Over every run in hash mode, however single and pair operations interleave, an id stored with row
      r is what `row-r` gives back, and no two ids share a row. */
  lemma {:induction false} HashedRun(cfg: Config, b: Bucket, ops: seq<Op>)
    requires cfg.hashMode && Shape(b) && Reversible(b) && AdmittedRun(cfg, b, ops)
    ensures var e := Run(cfg, b, ops);
            && Reversible(e)
            && forall id, id' :: RowOfId(e, id).Ok? && RowOfId(e, id) == RowOfId(e, id') ==> id == id'
    decreases |ops|
  {
    if ops == [] {
      forall id, id' | RowOfId(b, id).Ok? && RowOfId(b, id) == RowOfId(b, id')
        ensures id == id'
      {
        NoSharedRow(b, id, id');
      }
    } else {
      HashedStep(cfg, b, ops[0]);
      HashedRun(cfg, Apply(cfg, b, ops[0]), ops[1..]);
    }
  }

  // ---- counted rows ----

  /** In counter mode: no store pushes the counter past `top`, and a bind goes at or below the counter
      as it stands then, or above `top`. */
  ghost predicate BindsClear(b: Bucket, op: Op, top: int64)
    requires Shape(b)
  {
    match op
    case DoStoreID(id) => RowOfId(b, id).Ok? || CounterOf(b) < top
    case DoUpdate(_, newRow) => newRow <= CounterOf(b) || newRow > top
    case _ => true
  }

  ghost predicate ClearRun(cfg: Config, b: Bucket, ops: seq<Op>, top: int64)
    requires Shape(b) && AdmittedRun(cfg, b, ops)
    decreases |ops|
  {
    ops == [] || (BindsClear(b, ops[0], top)
                  && (StepKeepsShape(cfg, b, ops[0]); ClearRun(cfg, Apply(cfg, b, ops[0]), ops[1..], top)))
  }

  lemma CountedStep(cfg: Config, b: Bucket, op: Op, top: int64)
    requires !cfg.hashMode && Shape(b) && Reversible(b) && RowsClear(b, top) && Admitted(b, op)
    requires BindsClear(b, op, top)
    ensures var b' := Apply(cfg, b, op); Shape(b') && Reversible(b') && RowsClear(b', top)
  {
    match op
    case DoStoreID(id) => StoreCountedKeepsClear(cfg, b, id, top);
    case DoSimplified(id) => AliasKeepsClear(cfg, b, id, top);
    case DoUpdate(o, n) => UpdateKeepsClear(b, o, n, top);
    case _ => PairStepsSpareRows(cfg, b, op);
  }

  /** Over every run in counter mode whose binds keep clear of the rows still to be counted, the same holds. */
  lemma {:induction false} CountedRun(cfg: Config, b: Bucket, ops: seq<Op>, top: int64)
    requires !cfg.hashMode && Shape(b) && Reversible(b) && RowsClear(b, top)
    requires AdmittedRun(cfg, b, ops) && ClearRun(cfg, b, ops, top)
    ensures var e := Run(cfg, b, ops);
            && Reversible(e) && CounterOf(e) <= top
            && forall id, id' :: RowOfId(e, id).Ok? && RowOfId(e, id) == RowOfId(e, id') ==> id == id'
    decreases |ops|
  {
    if ops == [] {
      forall id, id' | RowOfId(b, id).Ok? && RowOfId(b, id) == RowOfId(b, id')
        ensures id == id'
      {
        NoSharedRow(b, id, id');
      }
    } else {
      CountedStep(cfg, b, ops[0], top);
      CountedRun(cfg, Apply(cfg, b, ops[0]), ops[1..], top);
    }
  }

  // ---- the answers over runs ----

  /** The step moves the id to another row. */
  ghost predicate Moves(b: Bucket, op: Op, id: string)
    requires Shape(b)
  {
    op.DoUpdate? && IdOfRow(b, op.oldRow) == Ok(id) && IdOfRow(b, op.newRow).Err?
  }

  /** Where an id that had row `r` is after the run: where the last rebind took it. */
  ghost function RowAfter(cfg: Config, b: Bucket, ops: seq<Op>, id: string, r: int64): int64
    requires Shape(b) && AdmittedRun(cfg, b, ops)
    decreases |ops|
  {
    if ops == [] then r
    else
      StepKeepsShape(cfg, b, ops[0]);
      RowAfter(cfg, Apply(cfg, b, ops[0]), ops[1..], id, if Moves(b, ops[0], id) then ops[0].newRow else r)
  }

  ghost predicate NeverMoved(cfg: Config, b: Bucket, ops: seq<Op>, id: string)
    requires Shape(b) && AdmittedRun(cfg, b, ops)
    decreases |ops|
  {
    ops == [] || (!Moves(b, ops[0], id)
                  && (StepKeepsShape(cfg, b, ops[0]); NeverMoved(cfg, Apply(cfg, b, ops[0]), ops[1..], id)))
  }

  lemma StepMovesRow(cfg: Config, b: Bucket, op: Op, id: string)
    requires Shape(b) && Admitted(b, op) && RowOfId(b, id).Ok?
    ensures Shape(Apply(cfg, b, op))
    ensures RowOfId(Apply(cfg, b, op), id) == if Moves(b, op, id) then Ok(op.newRow) else RowOfId(b, id)
  {
    StepKeepsShape(cfg, b, op);
    match op
    case DoStoreID(other) =>
    case DoSimplified(other) => SimplifiedAnswers(cfg, b, other);
    case DoUpdate(o, n) =>
      UpdateAnswers(b, o, n);
      if IdOfRow(b, o).Ok? && IdOfRow(b, n).Err? {
        UpdateMoves(b, o, n);
      }
    case _ => PairStepsSpareRows(cfg, b, op);
  }

  /** Over every run in either mode, storing an id again answers where the last rebind took it, and writes
      nothing; without a rebind of that id that is the row it had. */
  lemma {:induction false} RepeatedStore(cfg: Config, b: Bucket, ops: seq<Op>, id: string)
    requires Shape(b) && AdmittedRun(cfg, b, ops) && RowOfId(b, id).Ok?
    ensures var e := Run(cfg, b, ops);
            && IdSingles.StoreID(cfg, e, id) == Txn(e, Ok(RowAfter(cfg, b, ops, id, RowOfId(b, id).value)))
            && (NeverMoved(cfg, b, ops, id) ==> IdSingles.StoreID(cfg, e, id).result == RowOfId(b, id))
    decreases |ops|
  {
    if ops != [] {
      StepMovesRow(cfg, b, ops[0], id);
      RepeatedStore(cfg, Apply(cfg, b, ops[0]), ops[1..], id);
    }
  }

  // ---- pairs ----

  /** A new pair draws a virtual pair that is free or its own partner, and the names taken by a rename fit. */
  ghost predicate Fits(cfg: Config, b: Bucket, op: Op)
    requires Shape(b) && Admitted(b, op)
  {
    match op
    case DoStorePro(id, subid) => Composite(id, subid) in b || DrawsFree(cfg, b, id, subid)
    case DoRename(id, newID) => id == newID || TakenFit(b, id, newID)
    case _ => true
  }

  ghost predicate DrawsFree(cfg: Config, b: Bucket, id: string, subid: string)
    requires Shape(b)
  {
    forall row, subRow :: DrawsPair(cfg, id, subid, row, subRow) ==>
      VirtualKey(row, subRow) !in b || b[VirtualKey(row, subRow)] == Partner(VirtualKey(row, subRow))
  }

  ghost predicate FittingRun(cfg: Config, b: Bucket, ops: seq<Op>)
    requires Shape(b) && AdmittedRun(cfg, b, ops)
    decreases |ops|
  {
    ops == [] || (Fits(cfg, b, ops[0])
                  && (StepKeepsShape(cfg, b, ops[0]); FittingRun(cfg, Apply(cfg, b, ops[0]), ops[1..])))
  }

  /** At every moment of the run each composite key is its partner's partner. */
  ghost predicate PairedThroughout(cfg: Config, b: Bucket, ops: seq<Op>)
    requires Shape(b) && AdmittedRun(cfg, b, ops)
    decreases |ops|
  {
    Involution(b) && (ops == [] || (StepKeepsShape(cfg, b, ops[0]);
                                    PairedThroughout(cfg, Apply(cfg, b, ops[0]), ops[1..])))
  }

  lemma StoreProStep(cfg: Config, b: Bucket, id: string, subid: string)
    requires Shape(b) && Involution(b) && NoColon(id) && NoColon(subid)
    ensures var b' := IdPairs.StoreIDPro(cfg, b, id, subid).bucket;
            Shape(b') && (Involution(b') <==> Composite(id, subid) in b || DrawsFree(cfg, b, id, subid))
  {
    StoreProKeepsShape(cfg, b, id, subid);
    var r, s := RowOf(cfg.md5(id), 9), RowOf(cfg.md5(subid), 9);
    if Composite(id, subid) !in b && r.Ok? && s.Ok? {
      StoreProExactly(cfg, b, id, subid, r.value, s.value);
      assert DrawsPair(cfg, id, subid, r.value, s.value);
    }
  }

  /** A step of whatever kind keeps the partners exactly when it fits. */
  lemma PairStep(cfg: Config, b: Bucket, op: Op)
    requires Shape(b) && Involution(b) && Admitted(b, op)
    ensures Shape(Apply(cfg, b, op)) && (Involution(Apply(cfg, b, op)) <==> Fits(cfg, b, op))
  {
    StepKeepsShape(cfg, b, op);
    var b' := Apply(cfg, b, op);
    match op
    case DoStorePro(id, subid) => StoreProStep(cfg, b, id, subid);
    case DoUpdatePro(o1, n1, o2, n2) =>
      VirtualKeyGenuine(n1, n2);
      RebindKeepsInvolution(b, VirtualKey(o1, o2), VirtualKey(n1, n2));
    case DoRename(id, newID) => RenameExactly(b, id, newID);
    case _ =>
      forall k | k in b' && k.Composite?
        ensures b'[k].key in b' && b'[b'[k].key] == Partner(k)
      {
        KindsAreSeparate(cfg, b, op, k);
        KindsAreSeparate(cfg, b, op, b[k].key);
      }
  }

  /** Over every run, whatever rebinds, renames and single-id operations come in between, each composite key is
      its partner's partner throughout exactly when every step fits in the bucket it meets. */
  lemma {:induction false} PairRunExactly(cfg: Config, b: Bucket, ops: seq<Op>)
    requires Shape(b) && Involution(b) && AdmittedRun(cfg, b, ops)
    ensures PairedThroughout(cfg, b, ops) <==> FittingRun(cfg, b, ops)
    decreases |ops|
  {
    if ops != [] {
      PairStep(cfg, b, ops[0]);
      if Fits(cfg, b, ops[0]) {
        PairRunExactly(cfg, Apply(cfg, b, ops[0]), ops[1..]);
      }
    }
  }

  /** And so at its end. */
  lemma {:induction false} PairRun(cfg: Config, b: Bucket, ops: seq<Op>)
    requires Shape(b) && Involution(b) && AdmittedRun(cfg, b, ops) && FittingRun(cfg, b, ops)
    ensures Involution(Run(cfg, b, ops))
    decreases |ops|
  {
    if ops != [] {
      PairStep(cfg, b, ops[0]);
      PairRun(cfg, Apply(cfg, b, ops[0]), ops[1..]);
    }
  }
}
