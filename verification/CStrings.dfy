/** Bytes, NUL-terminated strings and the order that keys are kept in. */
module CStrings {
  import opened Wrappers

  type byte = b: int | 0 <= b < 256

  /** The characters of a C string, without its terminating NUL. */
  type CString = s: seq<byte> | 0 !in s witness []

  /** strcmp on unsigned bytes, reduced to its sign: the terminating NUL sorts below every character. */
  function StrCmp(a: seq<byte>, b: seq<byte>): (c: int)
    ensures -1 <= c <= 1
    ensures c == 0 <==> a == b
    decreases |a| + |b|
  {
    if a == [] then if b == [] then 0 else -1
    else if b == [] then 1
    else if a[0] < b[0] then -1
    else if a[0] > b[0] then 1
    else
      assert a[1..] == b[1..] ==> a == [a[0]] + a[1..] == b;
      StrCmp(a[1..], b[1..])
  }

  /** key_compare: the sign of the comparison, where a NULL key is lower than every other key. */
  function KeyCompare(a: Option<CString>, b: Option<CString>): (c: int)
    ensures -1 <= c <= 1
    ensures c == 0 <==> a == b
  {
    if a == b then 0
    else if a.None? then -1
    else if b.None? then 1
    else StrCmp(a.value, b.value)
  }

  predicate Less(a: CString, b: CString) {
    KeyCompare(Some(a), Some(b)) < 0
  }

  lemma {:induction false} StrCmpAntisymmetric(a: seq<byte>, b: seq<byte>)
    ensures StrCmp(a, b) == -StrCmp(b, a)
  {
    if a != [] && b != [] && a[0] == b[0] {
      StrCmpAntisymmetric(a[1..], b[1..]);
    }
  }

  lemma {:induction false} StrCmpTransitive(a: seq<byte>, b: seq<byte>, c: seq<byte>)
    requires StrCmp(a, b) < 0 && StrCmp(b, c) < 0
    ensures StrCmp(a, c) < 0
  {
    if a != [] && b != [] && c != [] && a[0] == b[0] == c[0] {
      StrCmpTransitive(a[1..], b[1..], c[1..]);
    }
  }

  /** The key order is transitive, NULL included; with the contract of KeyCompare it is a strict total order. */
  lemma KeyCompareTransitive(a: Option<CString>, b: Option<CString>, c: Option<CString>)
    requires KeyCompare(a, b) < 0 && KeyCompare(b, c) < 0
    ensures KeyCompare(a, c) < 0
  {
    if a.Some? && b.Some? && c.Some? {
      StrCmpTransitive(a.value, b.value, c.value);
    }
  }

  /** Exactly one of "lower", "equal" and "higher" holds for any two keys. */
  lemma KeyCompareAntisymmetric(a: Option<CString>, b: Option<CString>)
    ensures KeyCompare(a, b) == -KeyCompare(b, a)
  {
    if a.Some? && b.Some? {
      StrCmpAntisymmetric(a.value, b.value);
    }
  }

  /** After n equal characters, a ends or has the smaller character, as an unsigned number, and b goes on. */
  predicate LowerAt(a: seq<byte>, b: seq<byte>, n: nat) {
    n <= |a| && n < |b| && a[..n] == b[..n] && (n == |a| || a[n] < b[n])
  }

  lemma {:induction false} LowerHasDifference(a: seq<byte>, b: seq<byte>) returns (n: nat)
    requires StrCmp(a, b) < 0
    ensures LowerAt(a, b, n)
  {
    if a == [] || a[0] != b[0] {
      n := 0;
    } else {
      var m := LowerHasDifference(a[1..], b[1..]);
      n := m + 1;
      assert a[..n] == [a[0]] + a[1..][..m] && b[..n] == [b[0]] + b[1..][..m];
    }
  }

  lemma {:induction false} DifferenceDecides(a: seq<byte>, b: seq<byte>, n: nat)
    requires LowerAt(a, b, n)
    ensures StrCmp(a, b) == -1
  {
    if n > 0 {
      assert a[0] == a[..n][0] == b[..n][0] == b[0];
      assert a[1..][..n - 1] == a[..n][1..] && b[1..][..n - 1] == b[..n][1..];
      DifferenceDecides(a[1..], b[1..], n - 1);
    }
  }

  /** The key order is the lexicographic order on unsigned bytes, with NULL below every string. */
  lemma KeyOrderIsLexicographic(a: CString, b: CString)
    ensures KeyCompare(Some(a), Some(b)) == -1 <==> exists n: nat :: LowerAt(a, b, n)
    ensures KeyCompare(Some(a), Some(b)) == 1 <==> exists n: nat :: LowerAt(b, a, n)
    ensures KeyCompare(Some(a), Some(b)) == 0 <==> a == b
    ensures KeyCompare(None, Some(b)) == -1 && KeyCompare(Some(a), None) == 1
  {
    StrCmpAntisymmetric(a, b);
    if StrCmp(a, b) < 0 {
      var n := LowerHasDifference(a, b);
    } else if StrCmp(a, b) > 0 {
      var n := LowerHasDifference(b, a);
    }
    forall n: nat | LowerAt(a, b, n)
      ensures StrCmp(a, b) == -1
    {
      DifferenceDecides(a, b, n);
    }
    forall n: nat | LowerAt(b, a, n)
      ensures StrCmp(b, a) == -1
    {
      DifferenceDecides(b, a, n);
    }
  }

  lemma LessTransitive(a: CString, b: CString, c: CString)
    requires Less(a, b) && Less(b, c)
    ensures Less(a, c)
  {
    KeyCompareTransitive(Some(a), Some(b), Some(c));
  }

  /** An array of string pointers that holds the strings ks, then one NULL, and nothing more. */
  predicate NullTerminated(a: seq<Option<CString>>, ks: seq<CString>) {
    |a| == |ks| + 1 && a[|ks|] == None && forall i :: 0 <= i < |ks| ==> a[i] == Some(ks[i])
  }
}
