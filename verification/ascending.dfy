/** The order in which a `std::map` keyed by time stamps is iterated. */
module Ascending {
  import opened Types

  predicate Less(s: seq<Timestamp>, i: nat, j: nat)
    requires i < |s| && j < |s|
  {
    s[i] < s[j]
  }

  ghost predicate Strict(s: seq<Timestamp>) {
    forall i: nat, j: nat {:trigger Less(s, i, j)} :: i < j < |s| ==> Less(s, i, j)
  }

  lemma StrictCons(m: Timestamp, s: seq<Timestamp>)
    requires Strict(s) && forall t :: t in s ==> m < t
    ensures Strict([m] + s)
  {
    var r := [m] + s;
    forall i: nat, j: nat | i < j < |r| ensures Less(r, i, j) {
      assert r[j] == s[j - 1];
      if i > 0 {
        assert Less(s, i - 1, j - 1) && r[i] == s[i - 1];
      } else {
        assert r[i] == m && s[j - 1] in s;
      }
    }
  }

  lemma StrictSlice(s: seq<Timestamp>, lo: nat, hi: nat)
    requires Strict(s) && lo <= hi <= |s|
    ensures Strict(s[lo..hi])
  {
    forall i: nat, j: nat | i < j < hi - lo ensures Less(s[lo..hi], i, j) {
      assert Less(s, lo + i, lo + j);
    }
  }

  lemma StrictHalves(s: seq<Timestamp>, k: nat)
    requires Strict(s) && k <= |s|
    ensures Strict(s[..k]) && Strict(s[k..])
  {
    StrictSlice(s, 0, k);
    StrictSlice(s, k, |s|);
    assert s[0..k] == s[..k] && s[k..|s|] == s[k..];
  }

  /** What comes before position `i` is smaller than what comes from there on. */
  lemma StrictSplit(s: seq<Timestamp>, i: nat)
    requires Strict(s) && i < |s|
    ensures forall t :: t in s[..i] ==> t < s[i]
    ensures forall t :: t in s[i..] ==> s[i] <= t
  {
    forall t | t in s[..i] ensures t < s[i] {
      var k :| 0 <= k < i && s[k] == t;
      assert Less(s, k, i);
    }
    forall t | t in s[i..] ensures s[i] <= t {
      var k :| 0 <= k < |s| - i && s[i..][k] == t;
      if k > 0 { assert Less(s, i, i + k); }
    }
  }

  lemma {:induction false} LeastExists(s: set<Timestamp>) returns (m: Timestamp)
    requires s != {}
    ensures m in s && forall x :: x in s ==> m <= x
  {
    m :| m in s;
    var rest := s - {m};
    assert s == rest + {m};
    if rest != {} {
      var other := LeastExists(rest);
      m := if m < other then m else other;
    }
  }

  function Least(s: set<Timestamp>): (m: Timestamp)
    requires s != {}
    ensures m in s && forall x :: x in s ==> m <= x
  {
    assert exists m :: m in s && forall x :: x in s ==> m <= x by { var _ := LeastExists(s); }
    var m :| m in s && forall x :: x in s ==> m <= x;
    m
  }

  /** The keys of a map in iteration order. */
  function Enumerate(s: set<Timestamp>): (r: seq<Timestamp>)
    ensures Strict(r)
    ensures forall t :: t in r <==> t in s
    ensures |r| == |s|
  {
    if s == {} then []
    else
      var m := Least(s);
      var rest := Enumerate(s - {m});
      StrictCons(m, rest);
      [m] + rest
  }

  /** A strictly ascending sequence is determined by its elements. */
  lemma {:induction false} Unique(a: seq<Timestamp>, b: seq<Timestamp>)
    requires Strict(a) && Strict(b)
    requires forall t :: t in a <==> t in b
    ensures a == b
  {
    if a == [] {
      SomeElement(b);
    } else {
      assert a[0] in b;
      StrictSplit(a, 0);
      StrictSplit(b, 0);
      assert b[0] in a && a[0..] == a && b[0..] == b;
      assert a[0] == b[0];
      StrictTail(a);
      StrictTail(b);
      forall t ensures t in a[1..] <==> t in b[1..] {
        assert t in a[1..] <==> t in a && t != a[0];
        assert t in b[1..] <==> t in b && t != b[0];
      }
      Unique(a[1..], b[1..]);
    }
  }

  lemma SomeElement(s: seq<Timestamp>)
    ensures s != [] ==> exists t :: t in s
  {
    if s != [] {
      assert s[0] in s;
    }
  }

  lemma StrictTail(s: seq<Timestamp>)
    requires Strict(s) && s != []
    ensures Strict(s[1..]) && s[0] !in s[1..]
  {
    StrictSlice(s, 1, |s|);
    assert s[1..|s|] == s[1..];
    forall k | 0 <= k < |s| - 1 ensures s[1..][k] != s[0] {
      assert Less(s, 0, k + 1);
    }
  }
}
