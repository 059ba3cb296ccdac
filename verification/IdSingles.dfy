/** Single ids in the bucket of idmap/service.go: id -> row, row -> id, and the row counter.
    Every function maps a bucket to the bucket a committed transaction leaves. */
module IdSingles {
  import opened Outcome
  import opened Decimal
  import opened Keys
  import opened RowId

  type Bucket = map<Key, Value>

  datatype IdError =
    | RowGeneration(cause: RowError)
    | NoUniqueRow
    | NotFound
    | AlreadyBound
    | BadPair
    | ReverseMissing

  /** A transaction: the bucket it leaves (unchanged on error) and what the caller gets. */
  datatype Txn<T> = Txn(bucket: Bucket, result: Result<T, IdError>)

  /** The settings the id map runs with: hashed or counted rows, and the digest function. */
  datatype Config = Config(hashMode: bool, md5: string -> string)

  /** What may stand under a key. */
  predicate EntryOk(k: Key, v: Value) {
    Genuine(k) &&
    match k
    case Counter => v.Row?
    case Reverse(_) => v.Id? && RealId(v.id)
    case Real(_) => v.Row?
    case Composite(_, _) => v.Partner? && v.key.Composite? && Genuine(v.key)
  }

  ghost predicate Shape(b: Bucket) {
    forall k :: k in b ==> EntryOk(k, b[k])
  }

  function CounterOf(b: Bucket): int64
    requires Shape(b)
  {
    if Counter in b then b[Counter].row else 0
  }

  /** The next counted row; int64 addition wraps. */
  function NextRow(b: Bucket): int64
    requires Shape(b)
  {
    if CounterOf(b) == MAX_INT64 then MIN_INT64 else CounterOf(b) + 1
  }

  /** The nine-digit row of the digest, or the ten-digit one when the first is taken. */
  function FreshRow(hash: string, b: Bucket): Result<int64, IdError> {
    match RowOf(hash, 9)
    case Err(e) => Err(RowGeneration(e))
    case Ok(nine) =>
      if Reverse(nine) !in b then Ok(nine)
      else match RowOf(hash, 10)
        case Err(e) => Err(RowGeneration(e))
        case Ok(ten) => if Reverse(ten) !in b then Ok(ten) else Err(NoUniqueRow)
  }

  function StoreID(cfg: Config, b: Bucket, id: string): Txn<int64>
    requires Shape(b)
  {
    if Real(id) in b then Txn(b, Ok(b[Real(id)].row))
    else if !cfg.hashMode then
      var row := NextRow(b);
      Txn(b[Counter := Row(row)][Real(id) := Row(row)][Reverse(row) := Id(id)], Ok(row))
    else match FreshRow(cfg.md5(id), b)
      case Err(e) => Txn(b, Err(e))
      case Ok(row) => Txn(b[Real(id) := Row(row)][Reverse(row) := Id(id)], Ok(row))
  }

  /** Only the reverse key is written: `row-N` becomes an alias of the id. */
  function SimplifiedStoreID(cfg: Config, b: Bucket, id: string): Txn<int64> {
    match FreshRow(cfg.md5(id), b)
    case Err(e) => Txn(b, Err(e))
    case Ok(row) => Txn(b[Reverse(row) := Id(id)], Ok(row))
  }

  function UpdateVirtualValue(b: Bucket, oldRow: int64, newRow: int64): Txn<()>
    requires Shape(b)
  {
    if Reverse(oldRow) !in b then Txn(b, Err(NotFound))
    else if Reverse(newRow) in b then Txn(b, Err(AlreadyBound))
    else
      var id := b[Reverse(oldRow)].id;
      Txn((b[Real(id) := Row(newRow)] - {Reverse(oldRow)})[Reverse(newRow) := Id(id)], Ok(()))
  }

  /** RetrieveRowByID and RetrieveRealValue: the id behind a row. */
  function IdOfRow(b: Bucket, row: int64): Result<string, IdError>
    requires Shape(b)
  {
    if Reverse(row) in b then Ok(b[Reverse(row)].id) else Err(NotFound)
  }

  /** RetrieveVirtualValue: the row of an id. */
  function RowOfId(b: Bucket, id: string): Result<int64, IdError>
    requires Shape(b)
  {
    if Real(id) in b then Ok(b[Real(id)].row) else Err(NotFound)
  }

  lemma SinglesKeepShape(cfg: Config, b: Bucket, id: string, oldRow: int64, newRow: int64)
    requires Shape(b) && RealId(id)
    ensures Shape(StoreID(cfg, b, id).bucket)
    ensures Shape(SimplifiedStoreID(cfg, b, id).bucket)
    ensures Shape(UpdateVirtualValue(b, oldRow, newRow).bucket)
  {
  }

  // ---- what every step keeps ----

  /** An id stored with row r is what `row-r` gives back. */
  ghost predicate Reversible(b: Bucket)
    requires Shape(b)
  {
    forall id :: RowOfId(b, id).Ok? ==> IdOfRow(b, RowOfId(b, id).value) == Ok(id)
  }

  /** So the rows are an injective numbering: no two ids share a row. */
  lemma NoSharedRow(b: Bucket, id: string, id': string)
    requires Shape(b) && Reversible(b)
    requires RowOfId(b, id).Ok? && RowOfId(b, id) == RowOfId(b, id')
    ensures id == id'
  {
    assert IdOfRow(b, RowOfId(b, id).value) == Ok(id);
    assert IdOfRow(b, RowOfId(b, id').value) == Ok(id');
  }

  /** Hashed storing takes a row only when its reverse key is free. */
  lemma StoreHashedKeepsReversible(cfg: Config, b: Bucket, id: string)
    requires cfg.hashMode && Shape(b) && Reversible(b) && RealId(id)
    ensures Shape(StoreID(cfg, b, id).bucket) && Reversible(StoreID(cfg, b, id).bucket)
  {
    var b' := StoreID(cfg, b, id).bucket;
    forall k | RowOfId(b', k).Ok?
      ensures IdOfRow(b', RowOfId(b', k).value) == Ok(k)
    {
      assert k == id || RowOfId(b', k) == RowOfId(b, k);
    }
  }

  lemma SimplifiedKeepsReversible(cfg: Config, b: Bucket, id: string)
    requires Shape(b) && Reversible(b) && RealId(id)
    ensures Shape(SimplifiedStoreID(cfg, b, id).bucket) && Reversible(SimplifiedStoreID(cfg, b, id).bucket)
  {
    var b' := SimplifiedStoreID(cfg, b, id).bucket;
    forall k | RowOfId(b', k).Ok?
      ensures IdOfRow(b', RowOfId(b', k).value) == Ok(k)
    {
      assert RowOfId(b', k) == RowOfId(b, k);
    }
  }

  /** Rebinding moves one id, even when the old row was only an alias of it. */
  lemma UpdateKeepsReversible(b: Bucket, oldRow: int64, newRow: int64)
    requires Shape(b) && Reversible(b)
    ensures Shape(UpdateVirtualValue(b, oldRow, newRow).bucket)
    ensures Reversible(UpdateVirtualValue(b, oldRow, newRow).bucket)
  {
    var b' := UpdateVirtualValue(b, oldRow, newRow).bucket;
    forall k | RowOfId(b', k).Ok?
      ensures IdOfRow(b', RowOfId(b', k).value) == Ok(k)
    {
      assert RowOfId(b', k) == RowOfId(b, k) || (Reverse(oldRow) in b && k == b[Reverse(oldRow)].id);
    }
  }

  /** A successful rebind: the id answers to the new row, the old row answers to nothing, and no
      other row or id is touched. */
  lemma UpdateMoves(b: Bucket, oldRow: int64, newRow: int64)
    requires Shape(b) && UpdateVirtualValue(b, oldRow, newRow).result.Ok?
    ensures var b' := UpdateVirtualValue(b, oldRow, newRow).bucket;
            Shape(b') && IdOfRow(b, oldRow).Ok? && IdOfRow(b, newRow).Err? &&
            var id := IdOfRow(b, oldRow).value;
            RowOfId(b', id) == Ok(newRow) && IdOfRow(b', newRow) == Ok(id) && IdOfRow(b', oldRow).Err?
            && (forall k :: k != id ==> RowOfId(b', k) == RowOfId(b, k))
            && (forall r: int64 :: r != oldRow && r != newRow ==> IdOfRow(b', r) == IdOfRow(b, r))
  {
  }

  // ---- counted rows ----

  /** Counting never looks whether the next row is free. It keeps reversibility exactly when no
      stored id already holds that row. */
  lemma StoreCountedExactly(cfg: Config, b: Bucket, id: string)
    requires !cfg.hashMode && Shape(b) && Reversible(b) && RealId(id) && RowOfId(b, id).Err?
    ensures Shape(StoreID(cfg, b, id).bucket)
    ensures Reversible(StoreID(cfg, b, id).bucket) <==> forall k :: RowOfId(b, k) != Ok(NextRow(b))
  {
    var b', row := StoreID(cfg, b, id).bucket, NextRow(b);
    if k :| RowOfId(b, k) == Ok(row) {
      assert RowOfId(b', k) == Ok(row) && IdOfRow(b', row) == Ok(id);
    } else {
      forall k | RowOfId(b', k).Ok?
        ensures IdOfRow(b', RowOfId(b', k).value) == Ok(k)
      {
        assert k == id || RowOfId(b', k) == RowOfId(b, k);
      }
    }
  }

  /** Every stored row is already counted, or lies above everything the counter will reach. */
  ghost predicate RowsClear(b: Bucket, top: int64)
    requires Shape(b)
  {
    CounterOf(b) <= top
    && forall id :: RowOfId(b, id).Ok? ==> RowOfId(b, id).value <= CounterOf(b) || RowOfId(b, id).value > top
  }

  lemma StoreCountedKeepsClear(cfg: Config, b: Bucket, id: string, top: int64)
    requires !cfg.hashMode && Shape(b) && Reversible(b) && RealId(id) && RowsClear(b, top)
    requires RowOfId(b, id).Ok? || CounterOf(b) < top
    ensures var b' := StoreID(cfg, b, id).bucket; Shape(b') && Reversible(b') && RowsClear(b', top)
  {
    var b' := StoreID(cfg, b, id).bucket;
    if RowOfId(b, id).Err? {
      StoreCountedExactly(cfg, b, id);
      forall k | RowOfId(b', k).Ok?
        ensures RowOfId(b', k).value <= CounterOf(b') || RowOfId(b', k).value > top
      {
        assert k == id || RowOfId(b', k) == RowOfId(b, k);
      }
    }
  }

  lemma AliasKeepsClear(cfg: Config, b: Bucket, id: string, top: int64)
    requires Shape(b) && Reversible(b) && RealId(id) && RowsClear(b, top)
    ensures var b' := SimplifiedStoreID(cfg, b, id).bucket; Shape(b') && Reversible(b') && RowsClear(b', top)
  {
    SimplifiedKeepsReversible(cfg, b, id);
    var b' := SimplifiedStoreID(cfg, b, id).bucket;
    assert forall k :: RowOfId(b', k) == RowOfId(b, k);
  }

  lemma UpdateKeepsClear(b: Bucket, oldRow: int64, newRow: int64, top: int64)
    requires Shape(b) && Reversible(b) && RowsClear(b, top)
    requires newRow <= CounterOf(b) || newRow > top
    ensures var b' := UpdateVirtualValue(b, oldRow, newRow).bucket; Shape(b') && Reversible(b') && RowsClear(b', top)
  {
    UpdateKeepsReversible(b, oldRow, newRow);
    var t := UpdateVirtualValue(b, oldRow, newRow);
    if t.result.Ok? {
      UpdateMoves(b, oldRow, newRow);
    }
  }

  /** Binding an id to the very next counted row loses it: the next id stored takes the row over. */
  lemma BindAheadOfCounterLoses(cfg: Config, b: Bucket, oldRow: int64, id: string)
    requires !cfg.hashMode && Shape(b) && RealId(id) && RowOfId(b, id).Err?
    requires UpdateVirtualValue(b, oldRow, NextRow(b)).result.Ok? && IdOfRow(b, oldRow) != Ok(id)
    ensures var b1 := UpdateVirtualValue(b, oldRow, NextRow(b)).bucket;
            Shape(b1) && Shape(StoreID(cfg, b1, id).bucket) &&
            var t, lost := StoreID(cfg, b1, id), IdOfRow(b, oldRow).value;
            t.result == Ok(NextRow(b)) && lost != id
            && RowOfId(t.bucket, lost) == Ok(NextRow(b)) && IdOfRow(t.bucket, NextRow(b)) == Ok(id)
  {
    UpdateMoves(b, oldRow, NextRow(b));
  }

  /** It happens from an empty bucket: the first id stored gets row 1 and is moved to row 2; the second id
      stored gets row 2 as well, and the first is not found behind its row any more. */
  lemma FirstIdCanBeLost(cfg: Config, first: string, second: string)
    requires !cfg.hashMode && RealId(first) && RealId(second) && first != second
    ensures var b := StoreID(cfg, map[], first).bucket;
            Shape(b) && Reversible(b) && StoreID(cfg, map[], first).result == Ok(1)
            && var b1 := UpdateVirtualValue(b, 1, 2).bucket;
            UpdateVirtualValue(b, 1, 2).result.Ok? && Shape(b1)
            && var t := StoreID(cfg, b1, second);
            t.result == Ok(2) && Shape(t.bucket) && RowOfId(t.bucket, first) == Ok(2)
                && RowOfId(t.bucket, second) == Ok(2)
            && IdOfRow(t.bucket, 2) == Ok(second) && !Reversible(t.bucket)
  {
    StoreCountedExactly(cfg, map[], first);
    var b := StoreID(cfg, map[], first).bucket;
    BindAheadOfCounterLoses(cfg, b, 1, second);
    var t := StoreID(cfg, UpdateVirtualValue(b, 1, 2).bucket, second);
    assert IdOfRow(t.bucket, RowOfId(t.bucket, first).value) != Ok(first);
  }

  // ---- what the operations answer ----

  /** A store that succeeds answers with the row the id has from then on, which gives the id back; it moves no
      other id and no other row. */
  lemma StoreAnswers(cfg: Config, b: Bucket, id: string)
    requires Shape(b) && RealId(id) && StoreID(cfg, b, id).result.Ok?
    ensures Shape(StoreID(cfg, b, id).bucket)
    ensures var t := StoreID(cfg, b, id);
            var r := t.result.value;
            && RowOfId(t.bucket, id) == Ok(r)
            && (Reversible(b) || RowOfId(b, id).Err? ==> IdOfRow(t.bucket, r) == Ok(id))
            && (forall other :: other != id ==> RowOfId(t.bucket, other) == RowOfId(b, other))
            && (forall row: int64 :: row != r ==> IdOfRow(t.bucket, row) == IdOfRow(b, row))
  {
  }

  /** A known id keeps its row and nothing is written; an unknown one is counted on from the last row, which
      int64 wraps, or hashed. */
  lemma StoreAnswersWhat(cfg: Config, b: Bucket, id: string)
    requires Shape(b) && RealId(id)
    ensures Shape(StoreID(cfg, b, id).bucket)
    ensures var t := StoreID(cfg, b, id);
            && (RowOfId(b, id).Ok? ==> t == Txn(b, RowOfId(b, id)))
            && (RowOfId(b, id).Err? && !cfg.hashMode ==>
                  && t.result == Ok(if CounterOf(b) == 0x7fff_ffff_ffff_ffff then -0x8000_0000_0000_0000
                                    else CounterOf(b) + 1)
                  && CounterOf(t.bucket) == t.result.value)
            && (RowOfId(b, id).Err? && cfg.hashMode ==>
                  t.result == FreshRow(cfg.md5(id), b) && CounterOf(t.bucket) == CounterOf(b))
            && (t.result.Err? ==> t.bucket == b)
  {
  }

  /** A hashed row is the nine-digit row of the digest if that is free, and else the ten-digit one if that is. */
  lemma FreshRowExactly(hash: string, b: Bucket)
    ensures forall r: int64 :: FreshRow(hash, b) == Ok(r) <==>
              Reverse(r) !in b
              && (RowOf(hash, 9) == Ok(r)
                  || (RowOf(hash, 10) == Ok(r) && RowOf(hash, 9).Ok? && Reverse(RowOf(hash, 9).value) in b))
    ensures FreshRow(hash, b) == Err(NoUniqueRow) <==>
              && RowOf(hash, 9).Ok? && Reverse(RowOf(hash, 9).value) in b
              && RowOf(hash, 10).Ok? && Reverse(RowOf(hash, 10).value) in b
    ensures FreshRow(hash, b) == Err(RowGeneration(NotEnoughDigits)) <==>
              |OnlyDigits(hash)| < 9
              || (|OnlyDigits(hash)| == 9 && RowOf(hash, 9).Ok? && Reverse(RowOf(hash, 9).value) in b)
  {
    if |OnlyDigits(hash)| >= 10 {
      TenDigitsExtendNine(hash);
    } else if |OnlyDigits(hash)| == 9 {
      RowValue(hash, 9);
      ValueBounds(OnlyDigits(hash)[..9]);
      NineDigitsFit();
    }
  }

  lemma NineDigitsFit()
    ensures Pow10(9) <= MAX_INT64
  {
    assert Pow10(3) == 1000;
    assert Pow10(6) == 1_000_000;
  }

  /** The simplified store never looks whether the id has a row: it binds one more free row to it. */
  lemma SimplifiedAnswers(cfg: Config, b: Bucket, id: string)
    requires Shape(b) && RealId(id)
    ensures Shape(SimplifiedStoreID(cfg, b, id).bucket)
    ensures var t := SimplifiedStoreID(cfg, b, id);
            && t.result == FreshRow(cfg.md5(id), b) && (t.result.Err? ==> t.bucket == b)
            && (t.result.Ok? ==> IdOfRow(b, t.result.value).Err? && IdOfRow(t.bucket, t.result.value) == Ok(id))
            && (forall row: int64 :: t.result != Ok(row) ==> IdOfRow(t.bucket, row) == IdOfRow(b, row))
            && (forall k :: RowOfId(t.bucket, k) == RowOfId(b, k))
  {
  }

  /** So asking three times for one id gives its nine-digit row, its ten-digit row, and an error. */
  lemma SimplifiedRepeats(cfg: Config, id: string)
    requires RealId(id) && |OnlyDigits(cfg.md5(id))| >= 10 && RowOf(cfg.md5(id), 9) != RowOf(cfg.md5(id), 10)
    ensures var first := SimplifiedStoreID(cfg, map[], id);
            var second := SimplifiedStoreID(cfg, first.bucket, id);
            && first.result.Ok? && second.result.Ok? && first.result != second.result
            && RowOf(cfg.md5(id), 9) == Ok(first.result.value) && RowOf(cfg.md5(id), 10) == Ok(second.result.value)
            && SimplifiedStoreID(cfg, second.bucket, id) == Txn(second.bucket, Err(NoUniqueRow))
  {
    TenDigitsExtendNine(cfg.md5(id));
  }

  /** A rebind fails when the old row is unknown, or else when the new one is taken, and then changes nothing. */
  lemma UpdateAnswers(b: Bucket, oldRow: int64, newRow: int64)
    requires Shape(b)
    ensures var t := UpdateVirtualValue(b, oldRow, newRow);
            && (t.result == Err(NotFound) <==> IdOfRow(b, oldRow).Err?)
            && (t.result == Err(AlreadyBound) <==> IdOfRow(b, oldRow).Ok? && IdOfRow(b, newRow).Ok?)
            && (t.result.Ok? <==> IdOfRow(b, oldRow).Ok? && IdOfRow(b, newRow).Err?)
            && (t.result.Err? ==> t.bucket == b)
  {
  }
}
