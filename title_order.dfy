/**
 * Python's ordering of `str` values (lexicographic on code points) and the
 * `sorted(...)` listing of a set of titles that the entry list shows.
 */
module TitleOrder {

  /** `a < b` on Python strings: the first differing character decides, and a proper prefix comes first. */
  predicate Less(a: string, b: string) {
    if a == [] then b != []
    else if b == [] then false
    else if a[0] != b[0] then a[0] < b[0]
    else Less(a[1..], b[1..])
  }

  lemma {:induction false} LessIrreflexive(a: string)
    ensures !Less(a, a)
  {
    if a != [] { LessIrreflexive(a[1..]); }
  }

  lemma {:induction false} LessAsymmetric(a: string, b: string)
    requires Less(a, b)
    ensures !Less(b, a)
  {
    if a != [] && b != [] && a[0] == b[0] { LessAsymmetric(a[1..], b[1..]); }
  }

  lemma {:induction false} LessTransitive(a: string, b: string, c: string)
    requires Less(a, b) && Less(b, c)
    ensures Less(a, c)
  {
    if a != [] && a[0] == b[0] && b[0] == c[0] { LessTransitive(a[1..], b[1..], c[1..]); }
  }

  /** Any two distinct strings are ordered one way or the other. */
  lemma {:induction false} LessTotal(a: string, b: string)
    requires a != b
    ensures Less(a, b) || Less(b, a)
  {
    if a != [] && b != [] && a[0] == b[0] {
      assert a == [a[0]] + a[1..] && b == [b[0]] + b[1..];
      LessTotal(a[1..], b[1..]);
    }
  }

  /** `a` is a proper prefix of `b`. */
  ghost predicate ProperPrefix(a: string, b: string) {
    |a| < |b| && a == b[..|a|]
  }

  /** `a` and `b` agree up to position `k`, where `a` has the smaller character. */
  ghost predicate FirstDifferenceBelow(a: string, b: string) {
    exists k :: 0 <= k < |a| && k < |b| && a[..k] == b[..k] && a[k] < b[k]
  }

  /**
   * `Less` is the lexicographic order on code points: either `a` is a proper
   * prefix of `b`, or at the first position where they differ `a` has the
   * smaller character.
   */
  lemma {:induction false} LessIsLexicographic(a: string, b: string)
    ensures Less(a, b) <==> ProperPrefix(a, b) || FirstDifferenceBelow(a, b)
  {
    if a == [] {
    } else if b == [] {
    } else if a[0] != b[0] {
      assert a[..0] == b[..0];
    } else {
      LessIsLexicographic(a[1..], b[1..]);
      PrefixStep(a, b);
      DifferenceStep(a, b);
    }
  }

  lemma PrefixStep(a: string, b: string)
    requires a != [] && b != [] && a[0] == b[0]
    ensures ProperPrefix(a, b) <==> ProperPrefix(a[1..], b[1..])
  {
  }

  lemma DifferenceStep(a: string, b: string)
    requires a != [] && b != [] && a[0] == b[0]
    ensures FirstDifferenceBelow(a, b) <==> FirstDifferenceBelow(a[1..], b[1..])
  {
    var a', b' := a[1..], b[1..];
    if FirstDifferenceBelow(a', b') {
      var k :| 0 <= k < |a'| && k < |b'| && a'[..k] == b'[..k] && a'[k] < b'[k];
      assert a[..k + 1] == [a[0]] + a'[..k] && b[..k + 1] == [b[0]] + b'[..k];
      assert a[k + 1] < b[k + 1];
    }
    if FirstDifferenceBelow(a, b) {
      var k :| 0 <= k < |a| && k < |b| && a[..k] == b[..k] && a[k] < b[k];
      assert k != 0;
      assert a'[..k - 1] == a[..k][1..] && b'[..k - 1] == b[..k][1..];
      assert a'[k - 1] < b'[k - 1];
    }
  }

  /** Ascending with no repeats: each title appears once. */
  ghost predicate StrictlySorted(s: seq<string>) {
    forall i, j :: 0 <= i < j < |s| ==> Less(s[i], s[j])
  }

  /** `t` is the smallest title of `keys`. */
  predicate IsLeast(t: string, keys: set<string>) {
    t in keys && forall k :: k in keys && k != t ==> Less(t, k)
  }

  lemma {:induction false} LeastExists(keys: set<string>)
    requires keys != {}
    ensures exists t :: IsLeast(t, keys)
    decreases |keys|
  {
    var x :| x in keys;
    if keys != {x} {
      var rest := keys - {x};
      LeastExists(rest);
      var y :| IsLeast(y, rest);
      if Less(x, y) {
        forall k | k in keys && k != x ensures Less(x, k) {
          if k != y { LessTransitive(x, y, k); }
        }
        assert IsLeast(x, keys);
      } else {
        LessTotal(x, y);
        assert IsLeast(y, keys);
      }
    } else {
      assert IsLeast(x, keys);
    }
  }

  lemma LeastUnique(keys: set<string>)
    ensures forall t, u :: IsLeast(t, keys) && IsLeast(u, keys) ==> t == u
  {
    forall t, u | IsLeast(t, keys) && IsLeast(u, keys) ensures t == u {
      if t != u { LessAsymmetric(t, u); }
    }
  }

  /** Python's `sorted(keys)`: the titles of `keys` in ascending order, each once. */
  function SortedTitles(keys: set<string>): (s: seq<string>)
    ensures |s| == |keys|
    ensures forall t :: t in s <==> t in keys
    ensures StrictlySorted(s)
    decreases |keys|
  {
    if keys == {} then []
    else
      LeastExists(keys);
      LeastUnique(keys);
      var t :| IsLeast(t, keys);
      [t] + SortedTitles(keys - {t})
  }

  /** Two strictly sorted listings of the same titles are the same listing. */
  lemma {:induction false} SortedListingUnique(a: seq<string>, b: seq<string>)
    requires StrictlySorted(a) && StrictlySorted(b)
    requires forall t :: t in a <==> t in b
    ensures a == b
    decreases |a|
  {
    if a != [] { assert a[0] in b; }
    if b != [] { assert b[0] in a; }
    if a != [] && b != [] {
      assert a[0] == b[0] by {
        if a[0] != b[0] {
          assert a[0] in a && b[0] in b;
          var j :| 0 <= j < |b| && b[j] == a[0];
          var i :| 0 <= i < |a| && a[i] == b[0];
          LessAsymmetric(a[0], a[i]);
        }
      }
      forall t ensures t in a[1..] <==> t in b[1..] {
        if t in a[1..] {
          var i :| 0 <= i < |a| - 1 && a[1..][i] == t;
          assert Less(a[0], a[i + 1]);
          LessIrreflexive(t);
          assert t in a && t in b;
          var j :| 0 <= j < |b| && b[j] == t;
          assert j != 0;
          assert b[1..][j - 1] == t;
        }
        if t in b[1..] {
          var i :| 0 <= i < |b| - 1 && b[1..][i] == t;
          assert Less(b[0], b[i + 1]);
          LessIrreflexive(t);
          assert t in b && t in a;
          var j :| 0 <= j < |a| && a[j] == t;
          assert j != 0;
          assert a[1..][j - 1] == t;
        }
      }
      SortedListingUnique(a[1..], b[1..]);
      assert a == [a[0]] + a[1..] && b == [b[0]] + b[1..];
    }
  }
}
