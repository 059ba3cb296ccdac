/** Byte strings as the bucket and the composite keys use them: prefixes, one-separator pairs,
    `strings.Replace(…, 1)` and the cursor's bytewise order. */
module Text {
  predicate HasPrefix(s: string, p: string) {
    |p| <= |s| && s[..|p|] == p
  }

  /** First position at which `p` occurs in `s` at or after `i`, or |s| + 1 when there is none. */
  function IndexFrom(s: string, p: string, i: nat): (k: nat)
    requires i <= |s|
    decreases |s| - i
  {
    if HasPrefix(s[i..], p) then i
    else if i == |s| then |s| + 1
    else IndexFrom(s, p, i + 1)
  }

  /** `strings.Replace(s, old, new, 1)`. */
  function ReplaceFirst(s: string, from: string, to: string): string {
    var k := IndexFrom(s, from, 0);
    if k + |from| <= |s| then s[..k] + to + s[k + |from|..] else s
  }

  lemma ReplacePrefix(s: string, from: string, to: string, rest: string)
    requires s == from + rest
    ensures ReplaceFirst(s, from, to) == to + rest
  {
    assert s[0..] == s;
    assert s[..|from|] == from;
    assert s[|from|..] == rest;
    assert IndexFrom(s, from, 0) == 0;
  }

  /** Bytewise order of keys, the order a bolt cursor walks in. */
  predicate Less(a: string, b: string) {
    b != [] && (a == [] || a[0] < b[0] || (a[0] == b[0] && Less(a[1..], b[1..])))
  }

  lemma {:induction false} LessIrreflexive(a: string)
    ensures !Less(a, a)
  {
    if a != [] {
      LessIrreflexive(a[1..]);
    }
  }

  lemma {:induction false} LessTransitive(a: string, b: string, c: string)
    requires Less(a, b) && Less(b, c)
    ensures Less(a, c)
  {
    if a != [] && a[0] == b[0] == c[0] {
      LessTransitive(a[1..], b[1..], c[1..]);
    }
  }

  lemma {:induction false} LessTotal(a: string, b: string)
    ensures a == b || Less(a, b) || Less(b, a)
  {
    if a != [] && b != [] && a[0] == b[0] {
      LessTotal(a[1..], b[1..]);
      assert a == [a[0]] + a[1..] && b == [b[0]] + b[1..];
    }
  }

  lemma {:induction false} LessUnderPrefix(p: string, a: string, b: string)
    ensures Less(p + a, p + b) == Less(a, b)
  {
    if p == [] {
      assert p + a == a && p + b == b;
    } else {
      LessUnderPrefix(p[1..], a, b);
      assert (p + a)[1..] == p[1..] + a && (p + b)[1..] == p[1..] + b;
    }
  }

  /** The keys with a given prefix form one block: what lies between the prefix and such a key has the prefix. */
  lemma {:induction false} PrefixBlock(p: string, a: string, b: string)
    requires !Less(a, p) && Less(a, b) && HasPrefix(b, p)
    ensures HasPrefix(a, p)
  {
    if p != [] {
      assert b[0] == p[0];
      assert a != [] && a[0] == p[0];
      assert b[1..][..|p| - 1] == p[1..];
      PrefixBlock(p[1..], a[1..], b[1..]);
      assert a == [a[0]] + a[1..] && p == [p[0]] + p[1..];
    }
  }

  predicate Sorted(s: seq<string>) {
    forall i, j :: 0 <= i < j < |s| ==> Less(s[i], s[j])
  }

  /** A strictly increasing sequence is determined by its elements. */
  lemma {:induction false} SortedUnique(s: seq<string>, t: seq<string>)
    requires Sorted(s) && Sorted(t)
    requires forall x :: x in s <==> x in t
    ensures s == t
  {
    assert t == [] || t[0] in t;
    if s == [] {
    } else {
      assert s[0] in t && t[0] in s;
      var i :| 0 <= i < |t| && t[i] == s[0];
      var j :| 0 <= j < |s| && s[j] == t[0];
      if i > 0 && j > 0 {
        LessTransitive(t[0], t[i], s[j]);
        LessIrreflexive(t[0]);
      }
      assert s[0] == t[0];
      forall x
        ensures x in s[1..] <==> x in t[1..]
      {
        LessIrreflexive(s[0]);
        assert x in s <==> x == s[0] || x in s[1..];
        assert x in t <==> x == t[0] || x in t[1..];
        if x in s[1..] {
          var k :| 1 <= k < |s| && s[k] == x;
          assert Less(s[0], x);
        }
        if x in t[1..] {
          var k :| 1 <= k < |t| && t[k] == x;
          assert Less(t[0], x);
        }
      }
      SortedUnique(s[1..], t[1..]);
      assert s == [s[0]] + s[1..] && t == [t[0]] + t[1..];
    }
  }
}
