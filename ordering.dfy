/**
 * Python's ordering of `str` values (code point by code point, a proper
 * prefix first) and the sorted list of a set of names that `sorted()`
 * produces under it.
 */
module Ordering {

  /** `a < b` on Python strings. */
  predicate Less(a: string, b: string)
    decreases |a|
  {
    if a == [] then b != []
    else b != [] && (a[0] < b[0] || (a[0] == b[0] && Less(a[1..], b[1..])))
  }

  lemma {:induction false} LessIrreflexive(a: string)
    ensures !Less(a, a)
    decreases |a|
  {
    if a != [] {
      LessIrreflexive(a[1..]);
    }
  }

  lemma {:induction false} LessTransitive(a: string, b: string, c: string)
    requires Less(a, b) && Less(b, c)
    ensures Less(a, c)
    decreases |a|
  {
    if a != [] && a[0] == b[0] && b[0] == c[0] {
      LessTransitive(a[1..], b[1..], c[1..]);
    }
  }

  /** Any two different strings are ordered one way round. */
  lemma {:induction false} LessTotal(a: string, b: string)
    requires a != b
    ensures Less(a, b) || Less(b, a)
    decreases |a|
  {
    if a != [] && b != [] && a[0] == b[0] {
      assert a == [a[0]] + a[1..] && b == [b[0]] + b[1..];
      LessTotal(a[1..], b[1..]);
    }
  }

  lemma LessAsymmetric(a: string, b: string)
    requires Less(a, b)
    ensures !Less(b, a)
  {
    if Less(b, a) {
      LessTransitive(a, b, a);
      LessIrreflexive(a);
    }
  }

  /** Ascending with no repeats. */
  predicate StrictlySorted(s: seq<string>) {
    forall i, j :: 0 <= i < j < |s| ==> Less(s[i], s[j])
  }

  /** The elements of a sequence, as a set. */
  function Elements(s: seq<string>): (r: set<string>)
    ensures forall x :: x in r <==> x in s
  {
    set x | x in s
  }

  /** `x` inserted into a sorted sequence that lacks it, before the first larger element. */
  function Insert(x: string, s: seq<string>): (r: seq<string>)
    requires StrictlySorted(s) && x !in s
    ensures StrictlySorted(r)
    ensures Elements(r) == Elements(s) + {x}
    ensures |r| == |s| + 1
  {
    if s == [] then [x]
    else if Less(x, s[0]) then
      assert forall j :: 0 < j < |s| ==> Less(x, s[j]) by {
        forall j | 0 < j < |s| ensures Less(x, s[j]) {
          LessTransitive(x, s[0], s[j]);
        }
      }
      [x] + s
    else
      LessTotal(x, s[0]);
      var rest := Insert(x, s[1..]);
      assert Elements(rest) == Elements(s[1..]) + {x};
      assert forall j :: 0 <= j < |rest| ==> Less(s[0], rest[j]) by {
        forall j | 0 <= j < |rest| ensures Less(s[0], rest[j]) {
          assert rest[j] in Elements(s[1..]) + {x};
        }
      }
      assert s == [s[0]] + s[1..];
      [s[0]] + rest
  }

  /** A strictly sorted sequence is determined by its elements: it is the one `sorted()` returns. */
  lemma {:induction false} SortedUnique(a: seq<string>, b: seq<string>)
    requires StrictlySorted(a) && StrictlySorted(b) && Elements(a) == Elements(b)
    ensures a == b
    decreases |a|
  {
    if a != [] && b != [] {
      assert a[0] == b[0] by {
        if a[0] != b[0] {
          assert a[0] in b && b[0] in a;
          var i :| 0 <= i < |b| && b[i] == a[0];
          var j :| 0 <= j < |a| && a[j] == b[0];
          assert Less(b[0], a[0]) by { LessIrreflexive(a[0]); }
          assert Less(a[0], b[0]) by { LessIrreflexive(b[0]); }
          LessAsymmetric(a[0], b[0]);
        }
      }
      assert Elements(a[1..]) == Elements(b[1..]) by {
        forall x ensures x in a[1..] <==> x in b[1..] {
          if x in a[1..] {
            var i :| 0 <= i < |a[1..]| && a[1..][i] == x;
            assert Less(a[0], x);
            LessIrreflexive(x);
            assert x in Elements(b) && x != b[0];
            var k :| 0 <= k < |b| && b[k] == x;
            assert b[1..][k - 1] == x;
          }
          if x in b[1..] {
            var i :| 0 <= i < |b[1..]| && b[1..][i] == x;
            assert Less(b[0], x);
            LessIrreflexive(x);
            assert x in Elements(a) && x != a[0];
            var k :| 0 <= k < |a| && a[k] == x;
            assert a[1..][k - 1] == x;
          }
        }
      }
      SortedUnique(a[1..], b[1..]);
      assert a == [a[0]] + a[1..] && b == [b[0]] + b[1..];
    } else {
      NoElements(a);
      NoElements(b);
    }
  }

  lemma NoElements(s: seq<string>)
    ensures Elements(s) == {} ==> s == []
  {
    if s != [] {
      assert s[0] in Elements(s);
    }
  }

  /** `sorted(names)` for a set of distinct names: ascending, each name exactly once. */
  method SortNames(names: set<string>) returns (r: seq<string>)
    ensures StrictlySorted(r)
    ensures Elements(r) == names
    ensures |r| == |names|
  {
    r := [];
    var remaining := names;
    while remaining != {}
      invariant StrictlySorted(r)
      invariant Elements(r) + remaining == names
      invariant Elements(r) !! remaining
      invariant |r| + |remaining| == |names|
      decreases |remaining|
    {
      var name :| name in remaining;
      r := Insert(name, r);
      remaining := remaining - {name};
    }
  }
}
