/** What StoreIDPro answers over whole runs of the id map. */
module IdPairRuns {
  import opened Decimal
  import opened Keys
  import opened RowId
  import opened IdSingles
  import opened IdPairs
  import opened IdMapService

  /** Of every two partners at least one is a virtual pair. */
  ghost predicate OneSideVirtual(b: Bucket)
    requires Shape(b)
  {
    forall k :: k in b && k.Composite? ==> VirtualForm(k) || VirtualForm(b[k].key)
  }

  /** Renames keep virtual pairs virtual when the new id is a decimal form, or rename no virtual side. */
  ghost predicate RenamesWell(b: Bucket, op: Op)
    requires Shape(b)
  {
    op.DoRename? ==> Canonical(op.newID) || forall k :: k in Group(b, op.id) ==> VirtualForm(b[k].key)
  }

  ghost predicate WellRenamedRun(cfg: Config, b: Bucket, ops: seq<Op>)
    requires Shape(b) && AdmittedRun(cfg, b, ops)
    decreases |ops|
  {
    ops == [] || (RenamesWell(b, ops[0])
                  && (StepKeepsShape(cfg, b, ops[0]); WellRenamedRun(cfg, Apply(cfg, b, ops[0]), ops[1..])))
  }

  lemma StoreKeepsOneSide(cfg: Config, b: Bucket, id: string, subid: string)
    requires Shape(b) && OneSideVirtual(b) && NoColon(id) && NoColon(subid)
    ensures Shape(IdPairs.StoreIDPro(cfg, b, id, subid).bucket)
    ensures OneSideVirtual(IdPairs.StoreIDPro(cfg, b, id, subid).bucket)
  {
    StoreProKeepsShape(cfg, b, id, subid);
    var t := IdPairs.StoreIDPro(cfg, b, id, subid);
    if t.result.Ok? {
      VirtualKeyForm(t.result.value.0, t.result.value.1);
    }
  }

  lemma RebindKeepsOneSide(b: Bucket, o1: int64, n1: int64, o2: int64, n2: int64)
    requires Shape(b) && OneSideVirtual(b)
    ensures var b' := IdPairs.UpdateVirtualValuePro(b, o1, n1, o2, n2).bucket; Shape(b') && OneSideVirtual(b')
  {
    UpdateProKeepsShape(b, o1, n1, o2, n2);
    VirtualKeyForm(n1, n2);
  }

  lemma RenameKeepsOneSide(b: Bucket, id: string, newID: string)
    requires Shape(b) && OneSideVirtual(b) && OneOutcome(b, id, newID) && RenamesWell(b, DoRename(id, newID))
    ensures Shape(Renamed(b, id, newID)) && OneSideVirtual(Renamed(b, id, newID))
  {
    RenamedByShape(b, Group(b, id), id, newID);
    var r := Renamed(b, id, newID);
    if id == newID {
      RenamedByOntoItself(b, Group(b, id), id);
    } else {
      forall k | k in r && k.Composite?
        ensures VirtualForm(k) || VirtualForm(r[k].key)
      {
        RenamedValue(b, id, newID, k);
        assert k in b ==> b[b[k].key] == Partner(k);
      }
    }
  }

  lemma StepKeepsOneSide(cfg: Config, b: Bucket, op: Op)
    requires Shape(b) && OneSideVirtual(b) && Admitted(b, op) && RenamesWell(b, op)
    ensures Shape(Apply(cfg, b, op)) && OneSideVirtual(Apply(cfg, b, op))
  {
    StepKeepsShape(cfg, b, op);
    var b' := Apply(cfg, b, op);
    match op
    case DoStorePro(id, subid) => StoreKeepsOneSide(cfg, b, id, subid);
    case DoUpdatePro(o1, n1, o2, n2) => RebindKeepsOneSide(b, o1, n1, o2, n2);
    case DoRename(id, newID) => RenameKeepsOneSide(b, id, newID);
    case _ =>
      forall k | k in b' && k.Composite?
        ensures VirtualForm(k) || VirtualForm(b'[k].key)
      {
        KindsAreSeparate(cfg, b, op, k);
      }
  }

  lemma {:induction false} OneSideRun(cfg: Config, b: Bucket, ops: seq<Op>)
    requires Shape(b) && OneSideVirtual(b) && AdmittedRun(cfg, b, ops) && WellRenamedRun(cfg, b, ops)
    ensures OneSideVirtual(Run(cfg, b, ops))
    decreases |ops|
  {
    if ops != [] {
      StepKeepsOneSide(cfg, b, ops[0]);
      OneSideRun(cfg, Apply(cfg, b, ops[0]), ops[1..]);
    }
  }

  /** At the end of every such run StoreIDPro answers for every stored pair that is not itself made of two
      decimal forms with exactly its partner, and writes nothing. */
  lemma StoredPairAnswered(cfg: Config, b: Bucket, ops: seq<Op>, id: string, subid: string)
    requires Shape(b) && OneSideVirtual(b) && AdmittedRun(cfg, b, ops) && WellRenamedRun(cfg, b, ops)
    requires Composite(id, subid) in Run(cfg, b, ops) && !VirtualForm(Composite(id, subid))
    ensures var e := Run(cfg, b, ops);
            var t := IdPairs.StoreIDPro(cfg, e, id, subid);
            t.bucket == e && t.result.Ok?
                && e[Composite(id, subid)] == Partner(VirtualKey(t.result.value.0, t.result.value.1))
  {
    OneSideRun(cfg, b, ops);
    StoreProAnswersExactly(cfg, Run(cfg, b, ops), id, subid);
  }

  // ---- decimal ids, as Discord's are ----

  /** Real and virtual pairs alike consist of decimal forms. */
  ghost predicate AllDecimal(b: Bucket)
    requires Shape(b)
  {
    forall k :: k in b && k.Composite? ==> VirtualForm(k) && VirtualForm(b[k].key)
  }

  predicate DecimalOp(op: Op) {
    match op
    case DoStorePro(id, subid) => Canonical(id) && Canonical(subid)
    case DoRename(_, newID) => Canonical(newID)
    case _ => true
  }

  lemma LinkKeepsDecimal(b: Bucket, k: Key, k': Key)
    requires Shape(b) && AllDecimal(b) && VirtualForm(k) && VirtualForm(k') && Genuine(k) && Genuine(k')
    ensures Shape(Link(b, k, k')) && AllDecimal(Link(b, k, k'))
  {
    LinkKeepsShape(b, k, k');
  }

  lemma MoveKeepsDecimal(b: Bucket, oldKey: Key, newKey: Key)
    requires Shape(b) && AllDecimal(b) && oldKey.Composite? && VirtualForm(newKey) && Genuine(newKey)
    ensures var b' := Rebind(b, oldKey, newKey).bucket; Shape(b') && AllDecimal(b')
  {
    if oldKey in b && newKey !in b {
      assert EntryOk(oldKey, b[oldKey]);
      LinkKeepsDecimal(b - {oldKey} - {b[oldKey].key}, newKey, b[oldKey].key);
    }
  }

  lemma NewKeepsDecimal(b: Bucket, k: Key, k': Key, b': Bucket)
    requires Shape(b) && AllDecimal(b) && VirtualForm(k) && VirtualForm(k') && Genuine(k) && Genuine(k')
    requires b' == b || b' == Link(b, k, k')
    ensures Shape(b') && AllDecimal(b')
  {
    LinkKeepsDecimal(b, k, k');
  }

  lemma StoreWrites(cfg: Config, b: Bucket, id: string, subid: string)
    requires Shape(b)
    ensures var t := IdPairs.StoreIDPro(cfg, b, id, subid);
            t.bucket == b || (t.result.Ok? && t.bucket == Link(b, Composite(id, subid),
                                                               VirtualKey(t.result.value.0, t.result.value.1)))
  {
  }

  lemma StoreKeepsDecimal(cfg: Config, b: Bucket, id: string, subid: string)
    requires Shape(b) && AllDecimal(b) && NoColon(id) && NoColon(subid) && Canonical(id) && Canonical(subid)
    ensures Shape(IdPairs.StoreIDPro(cfg, b, id, subid).bucket)
    ensures AllDecimal(IdPairs.StoreIDPro(cfg, b, id, subid).bucket)
  {
    StoreWrites(cfg, b, id, subid);
    var t := IdPairs.StoreIDPro(cfg, b, id, subid);
    if t.result.Ok? {
      var (row, subRow) := t.result.value;
      VirtualKeyForm(row, subRow);
      VirtualKeyGenuine(row, subRow);
      NewKeepsDecimal(b, Composite(id, subid), VirtualKey(row, subRow), t.bucket);
    }
  }

  lemma RebindKeepsDecimal(b: Bucket, o1: int64, n1: int64, o2: int64, n2: int64)
    requires Shape(b) && AllDecimal(b)
    ensures var b' := IdPairs.UpdateVirtualValuePro(b, o1, n1, o2, n2).bucket; Shape(b') && AllDecimal(b')
  {
    VirtualKeyForm(n1, n2);
    VirtualKeyGenuine(n1, n2);
    MoveKeepsDecimal(b, VirtualKey(o1, o2), VirtualKey(n1, n2));
  }

  lemma RenameKeepsDecimal(b: Bucket, id: string, newID: string)
    requires Shape(b) && AllDecimal(b) && OneOutcome(b, id, newID) && Canonical(newID)
    ensures Shape(Renamed(b, id, newID)) && AllDecimal(Renamed(b, id, newID))
  {
    RenamedByShape(b, Group(b, id), id, newID);
    var r := Renamed(b, id, newID);
    if id == newID {
      RenamedByOntoItself(b, Group(b, id), id);
    } else {
      forall k | k in r && k.Composite?
        ensures VirtualForm(k) && VirtualForm(r[k].key)
      {
        RenamedValue(b, id, newID, k);
      }
    }
  }

  lemma StepKeepsDecimal(cfg: Config, b: Bucket, op: Op)
    requires Shape(b) && AllDecimal(b) && Admitted(b, op) && DecimalOp(op)
    ensures Shape(Apply(cfg, b, op)) && AllDecimal(Apply(cfg, b, op))
  {
    StepKeepsShape(cfg, b, op);
    var b' := Apply(cfg, b, op);
    match op
    case DoStorePro(id, subid) => StoreKeepsDecimal(cfg, b, id, subid);
    case DoUpdatePro(o1, n1, o2, n2) => RebindKeepsDecimal(b, o1, n1, o2, n2);
    case DoRename(id, newID) => RenameKeepsDecimal(b, id, newID);
    case _ =>
      forall k | k in b' && k.Composite?
        ensures VirtualForm(k) && VirtualForm(b'[k].key)
      {
        KindsAreSeparate(cfg, b, op, k);
      }
  }

  /** Over every run on decimal ids, renames and rebinds included, StoreIDPro answers at the end for every stored
      pair, real or virtual, with exactly its partner, and writes nothing. */
  lemma {:induction false} DecimalPairAnswered(cfg: Config, b: Bucket, ops: seq<Op>, id: string, subid: string)
    requires Shape(b) && AllDecimal(b) && AdmittedRun(cfg, b, ops) && forall op :: op in ops ==> DecimalOp(op)
    requires Composite(id, subid) in Run(cfg, b, ops)
    ensures var e := Run(cfg, b, ops);
            var t := IdPairs.StoreIDPro(cfg, e, id, subid);
            t.bucket == e && t.result.Ok?
                && e[Composite(id, subid)] == Partner(VirtualKey(t.result.value.0, t.result.value.1))
    decreases |ops|
  {
    if ops == [] {
      StoreProAnswersExactly(cfg, b, id, subid);
    } else {
      StepKeepsDecimal(cfg, b, ops[0]);
      DecimalPairAnswered(cfg, Apply(cfg, b, ops[0]), ops[1..], id, subid);
    }
  }

  // ---- one stored pair, whatever it looks like ----

  /** The step does not take this key away: it is not the old key of a rebind and not renamed, a rename of its
      partner gives a decimal form, and no new pair is stored while the key is its own partner. */
  ghost predicate Spares(b: Bucket, op: Op, k: Key)
    requires Shape(b) && k in b && k.Composite?
  {
    match op
    case DoStorePro(id, subid) => Composite(id, subid) in b || b[k] != Partner(k)
    case DoUpdatePro(o1, _, o2, _) => VirtualKey(o1, o2) != k
    case DoRename(id, newID) => k.a != id && k.a != newID && (b[k].key.a == id ==> Canonical(newID))
    case _ => true
  }

  /** Nor does it move the key's partner. */
  ghost predicate LeavesAlone(b: Bucket, op: Op, k: Key)
    requires Shape(b) && k in b && k.Composite?
  {
    match op
    case DoStorePro(id, subid) => Composite(id, subid) in b || b[k] != Partner(k)
    case DoUpdatePro(o1, _, o2, _) => VirtualKey(o1, o2) != k && VirtualKey(o1, o2) != b[k].key
    case DoRename(id, newID) => k.a != id && k.a != newID && b[k].key.a != id
    case _ => true
  }

  lemma StepSpares(cfg: Config, b: Bucket, op: Op, k: Key)
    requires Shape(b) && Involution(b) && Admitted(b, op) && Fits(cfg, b, op)
    requires k in b && k.Composite? && VirtualForm(b[k].key) && Spares(b, op, k)
    ensures var b' := Apply(cfg, b, op);
            && Shape(b') && k in b' && VirtualForm(b'[k].key)
            && (LeavesAlone(b, op, k) ==> b'[k] == b[k])
  {
    StepKeepsShape(cfg, b, op);
    match op
    case DoStorePro(id, subid) => StoreSpares(cfg, b, id, subid, k);
    case DoUpdatePro(o1, n1, o2, n2) => RebindSpares(b, VirtualKey(o1, o2), n1, n2, k);
    case DoRename(id, newID) => RenameSpares(b, id, newID, k);
    case _ => KindsAreSeparate(cfg, b, op, k);
  }

  lemma StoreSpares(cfg: Config, b: Bucket, id: string, subid: string, k: Key)
    requires Shape(b) && k in b && k.Composite?
    requires Composite(id, subid) in b || (DrawsFree(cfg, b, id, subid) && b[k] != Partner(k))
    ensures var b' := IdPairs.StoreIDPro(cfg, b, id, subid).bucket; k in b' && b'[k] == b[k]
  {
    var r, s := RowOf(cfg.md5(id), 9), RowOf(cfg.md5(subid), 9);
    if Composite(id, subid) !in b && r.Ok? && s.Ok? {
      assert DrawsPair(cfg, id, subid, r.value, s.value);
    }
  }

  lemma RebindElsewhere(b: Bucket, oldKey: Key, newKey: Key, k: Key)
    requires Shape(b) && Involution(b) && oldKey.Composite? && newKey.Composite? && k in b && k.Composite?
    requires k != oldKey
    ensures var b' := Rebind(b, oldKey, newKey).bucket;
            k in b' && (b'[k] == b[k] || (b[k].key == oldKey && b'[k] == Partner(newKey)))
  {
    assert b[b[k].key] == Partner(k);
    if oldKey in b {
      assert b[b[oldKey].key] == Partner(oldKey);
    }
  }

  lemma RebindSpares(b: Bucket, oldKey: Key, n1: int64, n2: int64, k: Key)
    requires Shape(b) && Involution(b) && oldKey.Composite? && k in b && k.Composite? && k != oldKey
    requires VirtualForm(b[k].key)
    ensures var b' := Rebind(b, oldKey, VirtualKey(n1, n2)).bucket;
            k in b' && b'[k].Partner? && VirtualForm(b'[k].key) && (b[k].key != oldKey ==> b'[k] == b[k])
  {
    VirtualKeyForm(n1, n2);
    RebindElsewhere(b, oldKey, VirtualKey(n1, n2), k);
  }

  lemma RenameSpares(b: Bucket, id: string, newID: string, k: Key)
    requires Shape(b) && OneOutcome(b, id, newID) && k in b && k.Composite? && k.a != id && k.a != newID
    requires VirtualForm(b[k].key) && (b[k].key.a == id ==> Canonical(newID))
    ensures var r := Renamed(b, id, newID);
            Shape(r) && k in r && VirtualForm(r[k].key) && (b[k].key.a != id ==> r[k] == b[k])
  {
    RenamedByShape(b, Group(b, id), id, newID);
    assert b[b[k].key] == Partner(k);
    NewNamesMember(b, Group(b, id), id, newID, k);
  }

  ghost predicate SparingRun(cfg: Config, b: Bucket, ops: seq<Op>, k: Key)
    requires Shape(b) && Involution(b) && AdmittedRun(cfg, b, ops) && FittingRun(cfg, b, ops)
    requires k in b && k.Composite? && VirtualForm(b[k].key)
    decreases |ops|
  {
    ops == [] || (Spares(b, ops[0], k)
                  && (PairStep(cfg, b, ops[0]); StepSpares(cfg, b, ops[0], k);
                      SparingRun(cfg, Apply(cfg, b, ops[0]), ops[1..], k)))
  }

  ghost predicate StillRun(cfg: Config, b: Bucket, ops: seq<Op>, k: Key)
    requires Shape(b) && AdmittedRun(cfg, b, ops)
    decreases |ops|
  {
    ops == [] || (k in b && k.Composite? && LeavesAlone(b, ops[0], k)
                  && (StepKeepsShape(cfg, b, ops[0]); StillRun(cfg, Apply(cfg, b, ops[0]), ops[1..], k)))
  }

  /** Over every run that spares a stored pair, decimal or not, asking for it again answers with its partner of
      then and writes nothing; if the run leaves its partner alone too, the answer is the same as before. */
  lemma {:induction false} StoredRun(cfg: Config, b: Bucket, ops: seq<Op>, k: Key)
    requires Shape(b) && Involution(b) && AdmittedRun(cfg, b, ops) && FittingRun(cfg, b, ops)
    requires k in b && k.Composite? && VirtualForm(b[k].key) && SparingRun(cfg, b, ops, k)
    ensures var e := Run(cfg, b, ops);
            var t := IdPairs.StoreIDPro(cfg, e, k.a, k.b);
            && k in e && t.bucket == e && t.result.Ok?
                && e[k] == Partner(VirtualKey(t.result.value.0, t.result.value.1))
            && (StillRun(cfg, b, ops, k) ==> t.result == IdPairs.StoreIDPro(cfg, b, k.a, k.b).result)
    decreases |ops|
  {
    if ops == [] {
      StoreProAnswersExactly(cfg, b, k.a, k.b);
    } else {
      PairStep(cfg, b, ops[0]);
      StepSpares(cfg, b, ops[0], k);
      StoredRun(cfg, Apply(cfg, b, ops[0]), ops[1..], k);
    }
  }
}
