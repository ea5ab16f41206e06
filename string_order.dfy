/** The order of attribute names in a `BTreeMap<String, _>`: Rust's `Ord` on `String`
    compares the UTF-8 bytes lexicographically, which orders strings exactly as
    comparing their characters' code points one by one does. */
module StringOrder {

  /** `a` sorts strictly before `b`: the first differing character decides, and a
      proper prefix sorts before the strings it begins. */
  predicate Less(a: string, b: string): (r: bool)
    ensures r ==> a != b
    ensures |a| < |b| && a == b[..|a|] ==> r
    decreases |a|
  {
    if |a| == 0 then |b| > 0
    else if |b| == 0 then false
    else if a[0] != b[0] then a[0] < b[0]
    else
      assert |a| < |b| && a == b[..|a|] ==> a[1..] == b[1..][..|a| - 1];
      Less(a[1..], b[1..])
  }

  lemma {:induction false} LessTransitive(a: string, b: string, c: string)
    requires Less(a, b) && Less(b, c)
    ensures Less(a, c)
    decreases |a|
  {
    if |a| > 0 && a[0] == b[0] && b[0] == c[0] {
      LessTransitive(a[1..], b[1..], c[1..]);
    }
  }

  /** Any two different strings are ordered one way or the other. */
  lemma {:induction false} LessTotal(a: string, b: string)
    requires a != b
    ensures Less(a, b) || Less(b, a)
    decreases |a|
  {
    if |a| > 0 && |b| > 0 && a[0] == b[0] {
      assert a == [a[0]] + a[1..] && b == [b[0]] + b[1..];
      LessTotal(a[1..], b[1..]);
    }
  }

  /** Strictly increasing names: sorted and without duplicates. */
  predicate StrictlySorted(names: seq<string>)
  {
    forall i, j :: 0 <= i < j < |names| ==> Less(names[i], names[j])
  }

  /** A strictly sorted sequence holds every name at most once. */
  lemma SortedIsDistinct(names: seq<string>)
    requires StrictlySorted(names)
    ensures forall i, j :: 0 <= i < |names| && 0 <= j < |names| && i != j ==> names[i] != names[j]
  {
  }

  /** Putting `name` at a position where everything before is smaller and everything
      after is larger keeps the sequence strictly sorted. */
  lemma InsertKeepsSorted(names: seq<string>, at: int, name: string)
    requires StrictlySorted(names) && 0 <= at <= |names|
    requires forall j :: 0 <= j < at ==> Less(names[j], name)
    requires at < |names| ==> Less(name, names[at])
    ensures StrictlySorted(names[..at] + [name] + names[at..])
  {
    var r := names[..at] + [name] + names[at..];
    forall j | at < j < |names|
      ensures Less(name, names[j])
    {
      LessTransitive(name, names[at], names[j]);
    }
    forall i, j | 0 <= i < j < |r|
      ensures Less(r[i], r[j])
    {
      if j < at {
      } else if j == at {
      } else if i < at {
        LessTransitive(names[i], name, names[j - 1]);
      } else if i == at {
      } else {
      }
    }
  }

  /** The sorted listing of a set of names is unique: two strictly sorted sequences
      holding the same names are equal. */
  lemma {:induction false} SortedListingUnique(p: seq<string>, q: seq<string>)
    requires StrictlySorted(p) && StrictlySorted(q)
    requires forall x :: x in p <==> x in q
    ensures p == q
    decreases |p|
  {
    assert q == [] || q[0] in q;
    if p != [] {
      assert p[0] in p;
      assert q != [];
      assert q[0] in q;
      if p[0] != q[0] {
        var j :| 0 <= j < |q| && q[j] == p[0];
        var i :| 0 <= i < |p| && p[i] == q[0];
        assert 0 < i && 0 < j;
        LessTransitive(p[0], p[i], q[j]);
      }
      SortedIsDistinct(p);
      SortedIsDistinct(q);
      forall x
        ensures x in p[1..] <==> x in q[1..]
      {
        if x in p[1..] {
          var i :| 1 <= i < |p| && p[i] == x;
          assert x in q && x != q[0];
        }
        if x in q[1..] {
          var j :| 1 <= j < |q| && q[j] == x;
          assert x in p && x != p[0];
        }
      }
      SortedListingUnique(p[1..], q[1..]);
      assert p == [p[0]] + p[1..] && q == [q[0]] + q[1..];
    }
  }
}
