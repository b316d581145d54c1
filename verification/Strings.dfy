/** Text operations shared by the JSON, request and file models. */
module Strings {

  /** Bytes of the UTF-8 encoding, which is what Go's len counts. */
  function Utf8Length(s: string): nat {
    if s == "" then 0
    else
      var c := s[0] as int;
      (if c < 0x80 then 1 else if c < 0x800 then 2 else if c < 0x10000 then 3 else 4) + Utf8Length(s[1..])
  }

  lemma {:induction false} Utf8Append(a: string, b: string)
    ensures Utf8Length(a + b) == Utf8Length(a) + Utf8Length(b)
    decreases |a|
  {
    if a == "" {
      assert a + b == b;
    } else {
      assert (a + b)[1..] == a[1..] + b;
      Utf8Append(a[1..], b);
    }
  }

  lemma {:induction false} Utf8Ascii(s: string)
    requires forall i :: 0 <= i < |s| ==> s[i] < '\U{80}'
    ensures Utf8Length(s) == |s|
  {
    if s == "" {
    } else {
      Utf8Ascii(s[1..]);
    }
  }

  /** Order of code points, which is also the byte order of UTF-8. */
  predicate Leq(a: string, b: string) {
    a == "" || (b != "" && (if a[0] == b[0] then Leq(a[1..], b[1..]) else a[0] < b[0]))
  }

  lemma {:induction false} LeqTotal(a: string, b: string)
    ensures Leq(a, b) || Leq(b, a)
    ensures Leq(a, b) && Leq(b, a) ==> a == b
    decreases |a|
  {
    if a != "" && b != "" && a[0] == b[0] {
      LeqTotal(a[1..], b[1..]);
      assert a == [a[0]] + a[1..] && b == [b[0]] + b[1..];
    }
  }

  lemma {:induction false} LeqTransitive(a: string, b: string, c: string)
    requires Leq(a, b) && Leq(b, c)
    ensures Leq(a, c)
    decreases |a|
  {
    if a != "" && a[0] == b[0] == c[0] {
      LeqTransitive(a[1..], b[1..], c[1..]);
    }
  }

  predicate IsLeast(s: set<string>, k: string) {
    k in s && forall x :: x in s ==> Leq(k, x)
  }

  lemma {:induction false} LeastExists(s: set<string>) returns (k: string)
    requires s != {}
    ensures IsLeast(s, k)
    decreases |s|
  {
    k :| k in s;
    var rest := s - {k};
    LeqTotal(k, k);
    if rest == {} {
      assert s == {k};
    } else {
      var j := LeastExists(rest);
      LeqTotal(k, j);
      var least := if Leq(k, j) then k else j;
      forall x | x in s ensures Leq(least, x) {
        if x != k && least == k { LeqTransitive(k, j, x); }
      }
      k := least;
    }
  }

  /** The elements of a set in ascending order. */
  function Sorted(s: set<string>): (r: seq<string>)
    ensures forall k :: k in r <==> k in s
    ensures |r| == |s|
  {
    if s == {} then []
    else
      LeastOf(s);
      var k :| k in s && IsLeast(s, k);
      [k] + Sorted(s - {k})
  }

  lemma LeastOf(s: set<string>)
    requires s != {}
    ensures exists k :: k in s && IsLeast(s, k)
    ensures forall j, k :: IsLeast(s, j) && IsLeast(s, k) ==> j == k
  {
    var k := LeastExists(s);
    forall i, j | IsLeast(s, i) && IsLeast(s, j) ensures i == j {
      LeqTotal(i, j);
    }
  }

  lemma SortedFirst(s: set<string>, k: string)
    requires IsLeast(s, k)
    ensures Sorted(s) == [k] + Sorted(s - {k})
  {
    LeastOf(s);
  }

  /** Ascending and without repetition. */
  lemma {:induction false} SortedIsAscending(s: set<string>, i: nat, j: nat)
    requires i < j < |Sorted(s)|
    ensures Leq(Sorted(s)[i], Sorted(s)[j]) && Sorted(s)[i] != Sorted(s)[j]
    decreases |s|
  {
    hide Leq, Sorted;
    var k := LeastExists(s);
    var rest := Sorted(s - {k});
    SortedFirst(s, k);
    assert Sorted(s)[j] == rest[j - 1] && rest[j - 1] in rest;
    if i == 0 {
      assert rest[j - 1] in s - {k};
    } else {
      SortedIsAscending(s - {k}, i - 1, j - 1);
    }
  }

  /** How many characters are at least this code point. */
  function From(s: string, code: int): nat {
    if s == "" then 0 else (if s[0] as int >= code then 1 else 0) + From(s[1..], code)
  }

  /** One byte for every character, and one more from each of the three limits of UTF-8 on. */
  lemma {:induction false} Utf8Exactly(s: string)
    ensures Utf8Length(s) == |s| + From(s, 0x80) + From(s, 0x800) + From(s, 0x10000)
  {
    if s == "" {
    } else {
      Utf8Exactly(s[1..]);
    }
  }
}
