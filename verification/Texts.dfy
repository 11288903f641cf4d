/** The order of texts by first difference, and the sorted sequence of a finite set of texts. */
module Texts {

  /** a comes before b: by the first difference, a proper prefix first. */
  predicate Less(a: string, b: string) {
    |b| > 0 && (|a| == 0 || a[0] < b[0] || (a[0] == b[0] && Less(a[1..], b[1..])))
  }

  lemma {:induction false} LessIsAsymmetric(a: string, b: string)
    requires Less(a, b)
    ensures !Less(b, a)
  {
    if |a| > 0 && a[0] == b[0] {
      LessIsAsymmetric(a[1..], b[1..]);
    }
  }

  lemma {:induction false} LessIsTransitive(a: string, b: string, c: string)
    requires Less(a, b) && Less(b, c)
    ensures Less(a, c)
  {
    if |a| > 0 && a[0] == b[0] == c[0] {
      LessIsTransitive(a[1..], b[1..], c[1..]);
    }
  }

  lemma {:induction false} LessIsTotal(a: string, b: string)
    ensures Less(a, b) || a == b || Less(b, a)
  {
    if |a| > 0 && |b| > 0 && a[0] == b[0] {
      LessIsTotal(a[1..], b[1..]);
      assert a == [a[0]] + a[1..] && b == [b[0]] + b[1..];
    }
  }

  ghost predicate Sorted(keys: seq<string>) {
    forall i, k | 0 <= i < k < |keys| :: Less(keys[i], keys[k])
  }

  lemma {:induction false} LeastExists(s: set<string>)
    requires s != {}
    ensures exists k :: k in s && forall x | x in s && x != k :: Less(k, x)
  {
    var y :| y in s;
    if s == {y} {
      assert y in s && forall x | x in s && x != y :: Less(y, x);
    } else {
      var rest := s - {y};
      LeastExists(rest);
      var k :| k in rest && forall x | x in rest && x != k :: Less(k, x);
      var least := if Less(y, k) then y else k;
      LessIsTotal(y, k);
      forall x | x in s && x != least ensures Less(least, x) {
        if least == y && x != k {
          LessIsTransitive(y, k, x);
        }
      }
    }
  }

  ghost function Least(s: set<string>): (k: string)
    requires s != {}
    ensures k in s && forall x | x in s && x != k :: Less(k, x)
  {
    LeastExists(s);
    var k :| k in s && forall x | x in s && x != k :: Less(k, x);
    k
  }

  /** The elements of a set in ascending order. */
  ghost function SortedKeys(s: set<string>): (keys: seq<string>)
    ensures forall k :: k in keys <==> k in s
    ensures Sorted(keys)
  {
    if s == {} then [] else
      var k := Least(s);
      var rest := SortedKeys(s - {k});
      assert forall i | 0 <= i < |rest| :: rest[i] in rest;
      [k] + rest
  }

  /** There is only one way to sort. */
  lemma {:induction false} SortedIsUnique(a: seq<string>, b: seq<string>)
    requires Sorted(a) && Sorted(b) && forall k :: k in a <==> k in b
    ensures a == b
  {
    assert |a| > 0 ==> a[0] in a;
    assert |b| > 0 ==> b[0] in b;
    if |a| > 0 {
      var i :| 0 <= i < |a| && a[i] == b[0];
      var k :| 0 <= k < |b| && b[k] == a[0];
      if a[0] != b[0] {
        LessIsAsymmetric(a[0], b[0]);
        assert false;
      }
      forall x ensures x in a[1..] <==> x in b[1..] {
        if x in a[1..] {
          var n :| 0 <= n < |a[1..]| && a[1..][n] == x;
          LessIsAsymmetric(a[0], a[n + 1]);
          assert x in a && x != b[0];
        }
        if x in b[1..] {
          var n :| 0 <= n < |b[1..]| && b[1..][n] == x;
          LessIsAsymmetric(b[0], b[n + 1]);
          assert x in b && x != a[0];
        }
      }
      SortedIsUnique(a[1..], b[1..]);
      assert a == [a[0]] + a[1..] && b == [b[0]] + b[1..];
    }
  }

  method InsertSorted(sorted: seq<string>, key: string) returns (out: seq<string>)
    requires Sorted(sorted) && key !in sorted
    ensures Sorted(out) && forall k :: k in out <==> k == key || k in sorted
  {
    var n := 0;
    while n < |sorted| && Less(sorted[n], key)
      invariant n <= |sorted|
      invariant forall m | 0 <= m < n :: Less(sorted[m], key)
    {
      n := n + 1;
    }
    if n < |sorted| {
      LessIsTotal(sorted[n], key);
      forall m | n < m < |sorted| ensures Less(key, sorted[m]) {
        LessIsTransitive(key, sorted[n], sorted[m]);
      }
    }
    hide Less;
    out := sorted[..n] + [key] + sorted[n..];
    assert sorted == sorted[..n] + sorted[n..];
  }

  /** Insertion sort of distinct texts, in place of the library's sort. */
  method SortStrings(keys: seq<string>) returns (sorted: seq<string>)
    requires forall i, k | 0 <= i < k < |keys| :: keys[i] != keys[k]
    ensures sorted == SortedKeys(set k | k in keys)
  {
    hide Sorted;
    sorted := [];
    NothingIsSorted();
    for i := 0 to |keys|
      invariant Sorted(sorted)
      invariant forall k :: k in sorted <==> k in keys[..i]
    {
      sorted := InsertSorted(sorted, keys[i]);
      assert keys[..i + 1] == keys[..i] + [keys[i]];
    }
    assert keys[..|keys|] == keys;
    SortedIsUnique(sorted, SortedKeys(set k | k in keys));
  }

  lemma NothingIsSorted()
    ensures Sorted([])
  {
  }
}
