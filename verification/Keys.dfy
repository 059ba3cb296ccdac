/** The kinds of key and value that share the one bolt bucket of idmap/service.go, and the byte
    strings that stand for them. Bytes are chars below 256. */
module Keys {
  import opened Decimal
  import opened Text

  // ---- two-part composite keys "a:b" ----

  predicate NoColon(s: string) {
    forall i :: 0 <= i < |s| ==> s[i] != ':'
  }

  function Pair(a: string, b: string): string {
    a + ":" + b
  }

  function ColonFrom(s: string, i: nat): (k: nat)
    requires i <= |s|
    ensures i <= k <= |s|
    ensures forall j :: i <= j < k ==> s[j] != ':'
    ensures k < |s| ==> s[k] == ':'
    decreases |s| - i
  {
    if i == |s| || s[i] == ':' then i else ColonFrom(s, i + 1)
  }

  /** Position of the first separator, or |s|. */
  function ColonAt(s: string): nat {
    ColonFrom(s, 0)
  }

  /** `strings.Split(s, ":")` has exactly two parts. */
  predicate IsPair(s: string) {
    ColonAt(s) < |s| && NoColon(s[ColonAt(s) + 1..])
  }

  function Left(s: string): string
    requires IsPair(s)
  {
    s[..ColonAt(s)]
  }

  function Right(s: string): string
    requires IsPair(s)
  {
    s[ColonAt(s) + 1..]
  }

  lemma PairParts(a: string, b: string)
    requires NoColon(a)
    ensures ColonAt(Pair(a, b)) == |a| && Pair(a, b)[..|a|] == a && Pair(a, b)[|a| + 1..] == b
    ensures IsPair(Pair(a, b)) <==> NoColon(b)
    ensures NoColon(b) ==> Left(Pair(a, b)) == a && Right(Pair(a, b)) == b
  {
    var s, i := Pair(a, b), ColonAt(Pair(a, b));
    assert forall j :: 0 <= j < |a| ==> s[j] == a[j];
    assert s[|a|] == ':' && s[..|a|] == a && s[|a| + 1..] == b;
    assert i == |a|;
    assert IsPair(s) <==> NoColon(b);
  }

  lemma PairOf(s: string)
    requires IsPair(s)
    ensures s == Pair(Left(s), Right(s)) && NoColon(Left(s)) && NoColon(Right(s)) && !NoColon(s)
  {
  }

  lemma SwapRight(l: string, r: string, from: string, to: string, b: string)
    requires NoColon(l) && NoColon(to)
    requires IsPair(Pair(l, r + from + b))
    ensures IsPair(Pair(l, r + to + b))
  {
    PairParts(l, r + from + b);
    PairParts(l, r + to + b);
    var x := r + from + b;
    assert forall i :: 0 <= i < |r| ==> r[i] == x[i];
    assert forall i :: 0 <= i < |b| ==> b[i] == x[|r + from| + i];
  }

  lemma SwapLeft(a: string, from: string, to: string, l: string, r: string)
    requires NoColon(a) && NoColon(from) && NoColon(to) && NoColon(l)
    requires IsPair(Pair(a + from + l, r))
    ensures IsPair(Pair(a + to + l, r))
  {
    PairParts(a + from + l, r);
    PairParts(a + to + l, r);
  }

  lemma SwapPiece(a: string, from: string, to: string, b: string)
    requires IsPair(a + from + b) && NoColon(from) && NoColon(to)
    ensures IsPair(a + to + b)
  {
    PairOf(a + from + b);
    if !NoColon(a) {
      PairSplit(a);
      var l, r := a[..ColonAt(a)], a[ColonAt(a) + 1..];
      assert forall x: string :: Pair(l, r) + x + b == Pair(l, r + x + b);
      SwapRight(l, r, from, to, b);
    } else {
      PairSplit(b);
      var l, r := b[..ColonAt(b)], b[ColonAt(b) + 1..];
      assert forall x: string :: a + x + Pair(l, r) == Pair(a + x + l, r);
      SwapLeft(a, from, to, l, r);
    }
  }

  lemma PairSplit(s: string)
    requires !NoColon(s)
    ensures ColonAt(s) < |s| && s == Pair(s[..ColonAt(s)], s[ColonAt(s) + 1..])
  {
  }

  /** A string with a single separator keeps it when a separator-free piece is replaced by another. */
  lemma ReplaceKeepsPair(s: string, from: string, to: string)
    requires IsPair(s) && NoColon(from) && NoColon(to)
    ensures IsPair(ReplaceFirst(s, from, to))
  {
    var k := IndexFrom(s, from, 0);
    if k + |from| <= |s| {
      IndexFromFinds(s, from, 0);
      assert s == s[..k] + from + s[k + |from|..];
      SwapPiece(s[..k], from, to, s[k + |from|..]);
    }
  }

  lemma {:induction false} IndexFromFinds(s: string, p: string, i: nat)
    requires i <= |s|
    ensures var k := IndexFrom(s, p, i); k <= |s| ==> HasPrefix(s[k..], p)
    decreases |s| - i
  {
    if !HasPrefix(s[i..], p) && i < |s| {
      IndexFromFinds(s, p, i + 1);
    }
  }

  // ---- row numbers as eight big-endian bytes ----

  function Pow256(k: nat): nat {
    if k == 0 then 1 else 256 * Pow256(k - 1)
  }

  /** The low `k` bytes of `u`, most significant first. */
  function BigEndian(u: nat, k: nat): (s: string)
    ensures |s| == k && AllBytes(s)
  {
    if k == 0 then [] else BigEndian(u / 256, k - 1) + [(u % 256) as char]
  }

  function FromBigEndian(s: string): (u: nat)
    requires AllBytes(s)
    ensures u < Pow256(|s|)
  {
    if s == [] then 0 else 256 * FromBigEndian(s[..|s| - 1]) + s[|s| - 1] as int
  }

  predicate AllBytes(s: string) {
    forall i :: 0 <= i < |s| ==> s[i] as int < 256
  }

  predicate IsRow(v: string) {
    |v| == 8 && AllBytes(v)
  }

  const TWO_TO_64: int := 0x1_0000_0000_0000_0000

  /** `binary.BigEndian.PutUint64(_, uint64(n))`. */
  function RowBytes(n: int64): (v: string)
    ensures IsRow(v)
  {
    BigEndian(if n < 0 then n + TWO_TO_64 else n, 8)
  }

  lemma EightBytes()
    ensures Pow256(8) == TWO_TO_64
  {
    assert Pow256(4) == 0x1_0000_0000;
    assert Pow256(6) == 0x1_0000_0000_0000;
  }

  /** `int64(binary.BigEndian.Uint64(v))`. */
  function RowNumber(v: string): int64
    requires IsRow(v)
  {
    EightBytes();
    var u: int := FromBigEndian(v);
    if u > MAX_INT64 then u - TWO_TO_64 else u
  }

  lemma {:induction false} BigEndianRoundTrip(u: nat, k: nat)
    requires u < Pow256(k)
    ensures FromBigEndian(BigEndian(u, k)) == u
  {
    if k > 0 {
      BigEndianRoundTrip(u / 256, k - 1);
      var s := BigEndian(u, k);
      assert s[..k - 1] == BigEndian(u / 256, k - 1);
    }
  }

  /** A stored row number reads back as itself, negative ones included. */
  lemma RowRoundTrip(n: int64)
    ensures RowNumber(RowBytes(n)) == n
  {
    EightBytes();
    BigEndianRoundTrip(if n < 0 then n + TWO_TO_64 else n, 8);
  }

  // ---- the keys themselves ----

  /** `currentRow`, `row-N`, a real id, and `a:b`. */
  datatype Key = Counter | Reverse(row: int64) | Real(id: string) | Composite(a: string, b: string)

  /** Eight bytes, an id, or the text of a composite key. */
  datatype Value = Row(row: int64) | Id(id: string) | Partner(key: Key)

  const COUNTER_KEY := "currentRow"

  function RowKeyText(row: int): string {
    "row-" + FormatInt(row)
  }

  function KeyText(k: Key): string {
    match k
    case Counter => COUNTER_KEY
    case Reverse(row) => RowKeyText(row)
    case Real(id) => id
    case Composite(a, b) => Pair(a, b)
  }

  /** Ids as Discord hands them out: no separator, and none of the bucket's own key names. */
  predicate RealId(id: string) {
    NoColon(id) && !HasPrefix(id, "row-") && id != COUNTER_KEY
  }

  /** Keys whose ids are what the callers pass: then the text tells the kinds apart. */
  predicate Genuine(k: Key) {
    match k
    case Real(id) => RealId(id)
    case Composite(a, b) => NoColon(a) && NoColon(b)
    case _ => true
  }

  lemma RowKeyTextShape(row: int)
    ensures NoColon(FormatInt(row)) && NoColon(RowKeyText(row)) && HasPrefix(RowKeyText(row), "row-")
    ensures RowKeyText(row) != COUNTER_KEY && RowKeyText(row)[4..] == FormatInt(row)
  {
    forall i | 0 <= i < |FormatInt(row)|
      ensures FormatInt(row)[i] != ':'
    {
      FormatChars(row, FormatInt(row)[i]);
    }
    assert RowKeyText(row)[..4] == "row-";
    assert RowKeyText(row)[0] == 'r' && COUNTER_KEY[0] == 'c';
  }

  /** Only composite keys contain the separator. */
  lemma SeparatorMarksComposite(k: Key)
    requires Genuine(k)
    ensures NoColon(KeyText(k)) <==> !k.Composite?
    ensures k.Composite? ==> IsPair(KeyText(k)) && Left(KeyText(k)) == k.a && Right(KeyText(k)) == k.b
  {
    match k
    case Counter =>
    case Reverse(row) => RowKeyTextShape(row);
    case Real(id) =>
    case Composite(a, b) =>
      PairParts(a, b);
      assert KeyText(k)[|a|] == ':';
  }

  /** The one flat key space is faithful: different keys never share their text. */
  lemma KeyTextInjective(k: Key, k': Key)
    requires Genuine(k) && Genuine(k') && KeyText(k) == KeyText(k')
    ensures k == k'
  {
    SeparatorMarksComposite(k);
    SeparatorMarksComposite(k');
    if k.Reverse? { RowKeyTextShape(k.row); }
    if k'.Reverse? { RowKeyTextShape(k'.row); }
    if k.Reverse? && k'.Reverse? {
      FormatInjective(k.row, k'.row);
    }
  }

  /** Without that they do: an id named like one of the bucket's own keys, or two pairs of ids with a colon. */
  lemma TextsCollide()
    ensures KeyText(Real("currentRow")) == KeyText(Counter)
    ensures KeyText(Real("row-7")) == KeyText(Reverse(7))
    ensures KeyText(Composite("a:b", "c")) == KeyText(Composite("a", "b:c"))
  {
    assert FormatInt(7) == "7";
  }

  /** A pair has no second separator. */
  lemma OneSeparator(s: string, i: nat)
    requires IsPair(s) && i < |s| && s[i] == ':'
    ensures i == ColonAt(s)
  {
    var c := ColonAt(s);
    assert forall j :: c < j < |s| ==> s[c + 1..][j - c - 1] == s[j];
  }

  /** `strings.HasPrefix(key, id + ":")` picks out the composite keys of the group `id`. */
  lemma GroupPrefix(k: Key, id: string)
    requires Genuine(k)
    ensures HasPrefix(KeyText(k), id + ":") <==> k.Composite? && k.a == id
  {
    SeparatorMarksComposite(k);
    var t, p := KeyText(k), id + ":";
    if k.Composite? && k.a == id {
      assert t[..|id| + 1] == p;
    } else if |id| < |t| && t[|id|] == ':' {
      OneSeparator(t, |id|);
      assert p[..|id|] == id && t[..|id| + 1][..|id|] == t[..|id|];
    } else {
      assert p[|id|] == ':' && forall i :: 0 <= i < |p| <= |t| ==> t[..|p|][i] == t[i];
    }
  }

  /** `strings.Replace(key, id, newID, 1)` on a composite key. */
  function ReplaceInKey(k: Key, id: string, newID: string): (k': Key)
    requires k.Composite? && Genuine(k) && NoColon(id) && NoColon(newID)
    ensures k'.Composite? && Genuine(k')
    ensures KeyText(k') == ReplaceFirst(KeyText(k), id, newID)
    ensures k.a == id ==> k' == Composite(newID, k.b)
  {
    SeparatorMarksComposite(k);
    var t := ReplaceFirst(KeyText(k), id, newID);
    ReplaceKeepsPair(KeyText(k), id, newID);
    PairOf(t);
    if k.a == id then
      assert KeyText(k) == id + (":" + k.b);
      ReplacePrefix(KeyText(k), id, newID, ":" + k.b);
      assert t == Pair(newID, k.b);
      PairParts(newID, k.b);
      Composite(Left(t), Right(t))
    else
      Composite(Left(t), Right(t))
  }

  // ---- fmt.Sscanf(v, "%d:%d", …) ----

  function DigitRun(s: string): (k: nat)
    ensures k <= |s| && AllDigits(s[..k])
    ensures k < |s| ==> !IsDigit(s[k])
  {
    if s == [] || !IsDigit(s[0]) then 0
    else
      var rest := DigitRun(s[1..]);
      assert forall i :: 1 <= i < 1 + rest ==> s[i] == s[1..][..rest][i - 1];
      1 + rest
  }

  /** One %d: an optional sign and the longest run of digits; `used` is 0 when nothing was read. */
  function ScanInt(s: string): (p: (Parsed, nat))
    ensures p.1 <= |s|
  {
    var sign := if s != [] && (s[0] == '-' || s[0] == '+') then 1 else 0;
    var n := sign + DigitRun(s[sign..]);
    (ParseInt(s[..n]), n)
  }

  /** What the two targets hold after the scan; an error leaves the rest at 0. */
  function ScanPair(v: string): (int64, int64) {
    var (a, n) := ScanInt(v);
    if !a.ok then (0, 0)
    else if n == |v| || v[n] != ':' then (a.value, 0)
    else
      var (b, _) := ScanInt(v[n + 1..]);
      (a.value, if b.ok then b.value else 0)
  }

  lemma ScanFormatted(n: int64, rest: string)
    requires rest == [] || !IsDigit(rest[0])
    ensures ScanInt(FormatInt(n) + rest) == (Parsed(n, true), |FormatInt(n)|)
  {
    ParseFormat(n);
    var s := FormatInt(n) + rest;
    var sign := if n < 0 then 1 else 0;
    var d := Digits(Magnitude(n));
    assert s[sign..] == d + rest;
    var k := DigitRun(d + rest);
    assert forall j :: 0 <= j < |d| ==> (d + rest)[j] == d[j];
    assert forall j :: |d| < j <= |d + rest| ==> (d + rest)[..j][|d|] == rest[0];
    assert k == |d|;
    assert s[..|FormatInt(n)|] == FormatInt(n);
    assert n >= 0 ==> IsDigit(s[0]);
  }

  lemma ScanFormattedPair(a: int64, b: int64)
    ensures ScanPair(Pair(FormatInt(a), FormatInt(b))) == (a, b)
  {
    var x, y := FormatInt(a), FormatInt(b);
    ScanFormatted(a, ":" + y);
    ScanFormatted(b, "");
    assert x + ":" + y == x + (":" + y);
    assert Pair(x, y)[|x| + 1..] == y + "";
  }

  // ---- texts that are no formatted pair ----

  /** A number that nothing, or something else than a colon, follows fills the first target only. */
  lemma ScanAlone(a: int64, rest: string)
    requires rest == [] || (!IsDigit(rest[0]) && rest[0] != ':')
    ensures ScanPair(FormatInt(a) + rest) == (a, 0)
  {
    ScanFormatted(a, rest);
  }

  /** And so does one with no number behind the colon. */
  lemma ScanFirstOnly(a: int64, rest: string)
    requires rest == [] || (!IsDigit(rest[0]) && rest[0] !in {'+', '-'})
    ensures ScanPair(FormatInt(a) + (":" + rest)) == (a, 0)
  {
    var x := FormatInt(a);
    var v := x + (":" + rest);
    ScanFormatted(a, ":" + rest);
    ScanNoNumber(rest);
    assert v[|x|] == ':' && v[|x| + 1..] == rest;
  }

  lemma ScanNoNumber(s: string)
    requires s == [] || (!IsDigit(s[0]) && s[0] !in {'+', '-'})
    ensures ScanInt(s) == (Parsed(0, false), 0)
  {
    assert s[0..] == s && s[..0] == [];
  }

  /** A text that does not begin with a number fills neither. */
  lemma ScanNeither(s: string)
    requires s == [] || (!IsDigit(s[0]) && s[0] !in {'+', '-'})
    ensures ScanPair(s) == (0, 0)
  {
    ScanNoNumber(s);
  }

  lemma {:induction false} DigitRunIs(d: string, rest: string)
    requires AllDigits(d) && (rest == [] || !IsDigit(rest[0]))
    ensures DigitRun(d + rest) == |d|
  {
    if d == [] {
      assert d + rest == rest;
    } else {
      DigitRunIs(d[1..], rest);
      assert (d + rest)[1..] == d[1..] + rest;
    }
  }

  /** A plus sign is read too. */
  lemma ScanPlus(d: string, rest: string)
    requires AllDigits(d) && d != [] && (rest == [] || !IsDigit(rest[0]))
    ensures ScanInt("+" + (d + rest)) == (ParseInt(d), 1 + |d|)
  {
    var s := "+" + (d + rest);
    DigitRunIs(d, rest);
    ParseElse(d);
    assert s[1..] == d + rest && s[..1 + |d|] == "+" + d;
  }

  /** The most significant byte comes first. */
  lemma BytesOfOne()
    ensures RowBytes(1) == [0 as char, 0 as char, 0 as char, 0 as char, 0 as char, 0 as char, 0 as char, 1 as char]
  {
    assert forall k: nat :: k <= 7 ==> BigEndian(0, k) == seq(k, _ => 0 as char) by {
      forall k: nat | k <= 7
        ensures BigEndian(0, k) == seq(k, _ => 0 as char)
      {
        ZeroBytes(k);
      }
    }
  }

  lemma {:induction false} ZeroBytes(k: nat)
    ensures BigEndian(0, k) == seq(k, _ => 0 as char)
  {
    if k > 0 {
      ZeroBytes(k - 1);
    }
  }
}
