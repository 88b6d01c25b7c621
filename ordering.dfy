/**
 * Python's ordering of `str` values (code-point lexicographic, a proper prefix
 * sorts first) and `sorted()` of a set of keys.
 */
module PyOrder {

  /** `a < b` on Python strings. */
  predicate LexLess(a: string, b: string)
    decreases |a|
  {
    if a == [] then b != []
    else if b == [] then false
    else if a[0] != b[0] then a[0] < b[0]
    else LexLess(a[1..], b[1..])
  }

  lemma {:induction false} LexIrreflexive(a: string)
    ensures !LexLess(a, a)
    decreases |a|
  {
    if a != [] {
      LexIrreflexive(a[1..]);
    }
  }

  lemma {:induction false} LexTransitive(a: string, b: string, c: string)
    requires LexLess(a, b) && LexLess(b, c)
    ensures LexLess(a, c)
    decreases |a|
  {
    if a != [] && b != [] && c != [] && a[0] == b[0] && b[0] == c[0] {
      LexTransitive(a[1..], b[1..], c[1..]);
    }
  }

  lemma {:induction false} LexTotal(a: string, b: string)
    requires a != b
    ensures LexLess(a, b) || LexLess(b, a)
    decreases |a|
  {
    if a != [] && b != [] && a[0] == b[0] {
      assert a == [a[0]] + a[1..] && b == [b[0]] + b[1..];
      LexTotal(a[1..], b[1..]);
    }
  }

  predicate StrictlySorted(s: seq<string>) {
    forall i, j :: 0 <= i < j < |s| ==> LexLess(s[i], s[j])
  }

  /** x is the smallest element of keys. */
  predicate IsLeast(x: string, keys: set<string>) {
    x in keys && forall y :: y in keys ==> !LexLess(y, x)
  }

  lemma {:induction false} LeastExists(keys: set<string>)
    requires keys != {}
    ensures exists x :: IsLeast(x, keys)
    decreases |keys|
  {
    var z :| z in keys;
    if keys != {z} {
      LeastExists(keys - {z});
      var x :| IsLeast(x, keys - {z});
      if LexLess(z, x) {
        forall y | y in keys ensures !LexLess(y, z) {
          if y == z {
            LexIrreflexive(z);
          } else if LexLess(y, z) {
            LexTransitive(y, z, x);
          }
        }
        assert IsLeast(z, keys);
      } else {
        LexIrreflexive(x);
        assert IsLeast(x, keys);
      }
    } else {
      LexIrreflexive(z);
      assert IsLeast(z, keys);
    }
  }

  lemma LeastUnique(keys: set<string>)
    ensures forall x, y :: IsLeast(x, keys) && IsLeast(y, keys) ==> x == y
  {
    forall x, y | IsLeast(x, keys) && IsLeast(y, keys) ensures x == y {
      if x != y {
        LexTotal(x, y);
      }
    }
  }

  /** `sorted(keys)`: the keys in ascending string order. */
  function SortedKeys(keys: set<string>): (r: seq<string>)
    ensures StrictlySorted(r)
    ensures forall x :: x in r <==> x in keys
    ensures |r| == |keys|
    decreases |keys|
  {
    if keys == {} then []
    else
      LeastExists(keys);
      LeastUnique(keys);
      var x :| IsLeast(x, keys);
      var rest := SortedKeys(keys - {x});
      assert forall j :: 0 <= j < |rest| ==> LexLess(x, rest[j]) by {
        forall j | 0 <= j < |rest| ensures LexLess(x, rest[j]) {
          assert rest[j] in keys - {x};
          assert !LexLess(rest[j], x);
          LexTotal(x, rest[j]);
        }
      }
      [x] + rest
  }
}
