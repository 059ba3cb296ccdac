/** Virtual row numbers cut out of an MD5 digest (idmap/service.go, GenerateRowID and CheckValue).
    MD5 itself is a parameter: `hash` is the hexadecimal digest of the id. */
module RowId {
  import opened Outcome
  import opened Decimal

  datatype RowError = NotEnoughDigits | NotAnInt64

  /** The decimal digits of a hexadecimal digest, in order. */
  function OnlyDigits(hash: string): (d: string)
    ensures AllDigits(d)
  {
    if hash == [] then []
    else OnlyDigits(hash[..|hash| - 1]) + (if IsDigit(hash[|hash| - 1]) then [hash[|hash| - 1]] else [])
  }

  /** The number formed by the first `length` digits of the digest. */
  function RowOf(hash: string, length: nat): Result<int64, RowError> {
    var digits := OnlyDigits(hash);
    if |digits| < length then Err(NotEnoughDigits)
    else
      var p := ParseInt(digits[..length]);
      if p.ok then Ok(p.value) else Err(NotAnInt64)
  }

  method GenerateRowID(hash: string, length: nat) returns (r: Result<int64, RowError>)
    ensures r == RowOf(hash, length)
  {
    var digits := "";
    for i := 0 to |hash|
      invariant digits == OnlyDigits(hash[..i])
    {
      assert hash[..i + 1][..i] == hash[..i];
      if '0' <= hash[i] <= '9' {
        digits := digits + [hash[i]];
      }
    }
    assert hash[..|hash|] == hash;
    if |digits| < length {
      return Err(NotEnoughDigits);
    }
    var p := ParseInt(digits[..length]);
    r := if p.ok then Ok(p.value) else Err(NotAnInt64);
  }

  /** True when `value` is not what the digest yields at the value's own decimal length. */
  predicate CheckValue(hash: string, value: int64) {
    match RowOf(hash, |FormatInt(value)|)
    case Err(_) => false
    case Ok(generated) => generated != value
  }

  lemma RowValue(hash: string, length: nat)
    requires 1 <= length <= |OnlyDigits(hash)|
    ensures var v := ValueOf(OnlyDigits(hash)[..length]);
            RowOf(hash, length) == if v <= MAX_INT64 then Ok(v) else Err(NotAnInt64)
  {
    assert IsDigit(OnlyDigits(hash)[..length][0]);
  }

  lemma {:induction false} LeadingZero(s: string)
    requires AllDigits(s) && s != [] && s[0] == '0'
    ensures ValueOf(s) < Pow10(|s| - 1)
  {
    if |s| == 1 {
      assert s[..0] == [];
    } else {
      LeadingZero(s[..|s| - 1]);
    }
  }

  /** The ten-digit row of a digest is its nine-digit row followed by one more digit, so the two
      lengths StoreID tries give a row below 10^9 and one below 10^10. */
  lemma TenDigitsExtendNine(hash: string)
    requires |OnlyDigits(hash)| >= 10
    ensures RowOf(hash, 9).Ok? && RowOf(hash, 10).Ok?
    ensures RowOf(hash, 10).value / 10 == RowOf(hash, 9).value
    ensures 0 <= RowOf(hash, 9).value < 1_000_000_000 && 0 <= RowOf(hash, 10).value < 10_000_000_000
  {
    var d := OnlyDigits(hash);
    RowValue(hash, 9);
    RowValue(hash, 10);
    assert d[..10][..9] == d[..9];
    ValueBounds(d[..9]);
    ValueBounds(d[..10]);
    assert Pow10(9) == 1_000_000_000 && Pow10(10) == 10_000_000_000 by {
      assert Pow10(3) == 1000;
      assert Pow10(6) == 1_000_000;
      assert Pow10(8) == 100_000_000;
    }
  }

  lemma FewerDigits(v: nat, length: nat)
    requires length >= 1 && 0 < v < Pow10(length - 1)
    ensures |Digits(v)| < length && Pow10(|Digits(v)| - 1) <= v
  {
    var m := |Digits(v)|;
    ValueOfDigits(v);
    ValueBounds(Digits(v));
    DigitsLead(v);
    if m >= length {
      Pow10Monotone(length - 1, m - 1);
    }
  }

  /** A row shorter than `length` digits begins with a zero, and the re-generation at the shorter
      length keeps that zero, so it yields something smaller. */
  lemma ShorterRow(hash: string, length: nat)
    requires RowOf(hash, length).Ok? && length >= 1
    requires OnlyDigits(hash)[0] == '0' && RowOf(hash, length).value > 0
    ensures CheckValue(hash, RowOf(hash, length).value)
  {
    var d, v := OnlyDigits(hash), RowOf(hash, length).value;
    RowValue(hash, length);
    LeadingZero(d[..length]);
    var m := |Digits(v)|;
    FewerDigits(v, length);
    RowValue(hash, m);
    LeadingZero(d[..m]);
  }

  /** CheckValue recognises a generated row exactly when the digest does not start with a zero
      digit, or the row is 0. A leading zero is lost in the number, and with it the length. */
  lemma CheckRecognises(hash: string, length: nat)
    requires RowOf(hash, length).Ok?
    ensures length >= 1 && OnlyDigits(hash) != []
    ensures !CheckValue(hash, RowOf(hash, length).value)
            <==> OnlyDigits(hash)[0] != '0' || RowOf(hash, length).value == 0
  {
    var d, v := OnlyDigits(hash), RowOf(hash, length).value;
    assert length >= 1;
    RowValue(hash, length);
    if d[0] != '0' {
      ValueBounds(d[..length]);
      DigitsLength(v, length);
    } else if v == 0 {
      RowValue(hash, 1);
      assert d[..1][..0] == [];
      assert ValueOf(d[..1]) == 0;
    } else {
      ShorterRow(hash, length);
    }
  }

  // ---- a digest that is disowned ----

  lemma {:induction false} OnlyDigitsOf(a: string, b: string)
    ensures OnlyDigits(a + b) == OnlyDigits(a) + OnlyDigits(b)
  {
    if b == [] {
      assert a + b == a;
    } else {
      var n := |b| - 1;
      OnlyDigitsOf(a, b[..n]);
      assert (a + b)[..|a + b| - 1] == a + b[..n];
    }
  }

  lemma {:induction false} AllOfDigits(a: string)
    requires AllDigits(a)
    ensures OnlyDigits(a) == a
  {
    if a != [] {
      AllOfDigits(a[..|a| - 1]);
      assert a == a[..|a| - 1] + [a[|a| - 1]];
    }
  }

  lemma ValueOfThree(a: char, b: char, c: char, s: string)
    requires IsDigit(a) && IsDigit(b) && IsDigit(c) && AllDigits(s)
    ensures ValueOf(s + [a, b, c]) == 1000 * ValueOf(s) + 100 * DigitValue(a) + 10 * DigitValue(b) + DigitValue(c)
  {
    ValueAppend(s, a);
    ValueAppend(s + [a], b);
    ValueAppend(s + [a] + [b], c);
    assert s + [a] + [b] + [c] == s + [a, b, c];
  }

  lemma ValueAppend(s: string, c: char)
    requires AllDigits(s) && IsDigit(c)
    ensures ValueOf(s + [c]) == 10 * ValueOf(s) + DigitValue(c)
  {
    assert (s + [c])[..|s|] == s;
  }

  lemma NineDigitsValue()
    ensures ValueOf("064096632") == 64096632
  {
    ValueOfThree('0', '6', '4', []);
    ValueOfThree('0', '9', '6', "064");
    ValueOfThree('6', '3', '2', "064096");
    assert [] + "064" == "064" && "064" + "096" == "064096" && "064096" + "632" == "064096632";
  }

  /** The MD5 digest of the text 158. */
  const DIGEST_OF_158 := "064096632" + "26af2f3114485aa4e0a23b4"

  /** The loss is real: this digest, at the nine digits StoreID asks for, gives row 64096632, which CheckValue
      disowns. */
  lemma LeadingZeroDisowned()
    ensures |DIGEST_OF_158| == 32 && RowOf(DIGEST_OF_158, 9) == Ok(64096632) && CheckValue(DIGEST_OF_158, 64096632)
  {
    OnlyDigitsOf("064096632", "26af2f3114485aa4e0a23b4");
    AllOfDigits("064096632");
    var d := OnlyDigits(DIGEST_OF_158);
    assert d[..9] == "064096632" && d[0] == d[..9][0] == '0';
    NineDigitsValue();
    RowValue(DIGEST_OF_158, 9);
    CheckRecognises(DIGEST_OF_158, 9);
  }

  // ---- two digests that agree ----

  lemma {:induction false} NoDigits(a: string)
    requires forall i :: 0 <= i < |a| ==> !IsDigit(a[i])
    ensures OnlyDigits(a) == []
  {
    if a != [] {
      NoDigits(a[..|a| - 1]);
    }
  }

  /** Letters and then digits add just the digits. */
  lemma OnlyDigitsNext(a: string, letters: string, digits: string)
    requires (forall i :: 0 <= i < |letters| ==> !IsDigit(letters[i])) && AllDigits(digits)
    ensures OnlyDigits(a + letters + digits) == OnlyDigits(a) + digits
  {
    OnlyDigitsOf(a + letters, digits);
    AllOfDigits(digits);
    OnlyDigitsOf(a, letters);
    NoDigits(letters);
    assert OnlyDigits(a) + [] == OnlyDigits(a);
  }

  lemma AgreedValue()
    ensures ValueOf("224747127") == 224747127
  {
    ValueOfThree('2', '2', '4', []);
    ValueOfThree('7', '4', '7', "224");
    ValueOfThree('1', '2', '7', "224747");
    assert [] + "224" == "224" && "224" + "747" == "224747" && "224747" + "127" == "224747127";
  }

  lemma RowOfHead(head: string, rest: string)
    requires OnlyDigits(head) == "224747127"
    ensures RowOf(head + rest, 9) == Ok(224747127)
  {
    OnlyDigitsOf(head, rest);
    assert OnlyDigits(head + rest)[..9] == OnlyDigits(head);
    AgreedValue();
    RowValue(head + rest, 9);
  }

  /** The MD5 digests of the texts 1939 and 6587, cut behind the ninth digit. */
  const HEAD_OF_1939 := "f" + "22" + "e" + "4747" + "da" + "1" + "aa" + "27"
  const DIGEST_OF_1939 := HEAD_OF_1939 + "e363d86d40ff442fe"
  const HEAD_OF_6587 := "2" + "e" + "2" + "c" + "4" + "bf" + "7" + "ceaa" + "4712" + "a" + "7"
  const DIGEST_OF_6587 := HEAD_OF_6587 + "2dd5ee136dc9a8"

  lemma StartOf1939()
    ensures OnlyDigits("f" + "22" + "e" + "4747") == "224747"
  {
    NoDigits("f");
    OnlyDigitsOf("f", "22");
    AllOfDigits("22");
    OnlyDigitsNext("f" + "22", "e", "4747");
    assert [] + "22" + "4747" == "224747";
  }

  lemma HeadOf1939()
    ensures OnlyDigits(HEAD_OF_1939) == "224747127"
  {
    var a := "f" + "22" + "e" + "4747";
    StartOf1939();
    OnlyDigitsNext(a, "da", "1");
    OnlyDigitsNext(a + "da" + "1", "aa", "27");
    assert "224747" + "1" + "27" == "224747127";
  }

  lemma HeadOf6587()
    ensures OnlyDigits(HEAD_OF_6587) == "224747127"
  {
    AllOfDigits("2");
    var a := "2" + "e" + "2" + "c" + "4";
    OnlyDigitsNext("2", "e", "2");
    OnlyDigitsNext("2" + "e" + "2", "c", "4");
    OnlyDigitsNext(a, "bf", "7");
    OnlyDigitsNext(a + "bf" + "7", "ceaa", "4712");
    OnlyDigitsNext(a + "bf" + "7" + "ceaa" + "4712", "a", "7");
    assert "2" + "2" + "4" + "7" + "4712" + "7" == "224747127";
  }

  /** The nine-digit row does not tell them apart. */
  lemma TwoDigestsAgree()
    ensures |DIGEST_OF_1939| == |DIGEST_OF_6587| == 32 && DIGEST_OF_1939 != DIGEST_OF_6587
    ensures RowOf(DIGEST_OF_1939, 9) == RowOf(DIGEST_OF_6587, 9) == Ok(224747127)
  {
    HeadOf1939();
    HeadOf6587();
    RowOfHead(HEAD_OF_1939, "e363d86d40ff442fe");
    RowOfHead(HEAD_OF_6587, "2dd5ee136dc9a8");
    assert DIGEST_OF_1939[0] != DIGEST_OF_6587[0];
  }
}
