/** `AttributeScanner`: one pass over a stream of GTF or GFF records that collects the
    distinct attribute names and, for each, the type tag of its first occurrence. */
module AttributeScanners {
  import opened Wrappers
  import opened StringOrder
  import opened Attribute
  import opened AttributeBuilders

  /** A GTF record, reduced to its attribute entries in file order. */
  datatype GtfRecord = GtfRecord(attributes: seq<GtfEntry>)

  /** One attribute of a GFF record as its parser yields it: a key and a value, or a
      malformed field. */
  datatype GffField = Parsed(key: string, value: GffValue) | Malformed

  /** A GFF record, reduced to its attribute fields in file order. */
  datatype GffRecord = GffRecord(attributes: seq<GffField>)

  /** Every attribute field of the record parsed. */
  predicate AllParsed(record: GffRecord)
  {
    forall i :: 0 <= i < |record.attributes| ==> record.attributes[i].Parsed?
  }

  /** The tag a GFF value is first recorded under, from its shape alone. */
  function GffTag(value: GffValue): (tag: string)
    ensures IsTypeName(tag)
  {
    match value
    case GffString(_) => "String"
    case GffArray(_) => "Array"
  }

  /** What one record contributes, in order: each attribute's name with the tag it
      would be recorded under. GTF attributes are all strings. */
  function GtfObservations(record: GtfRecord): (obs: seq<(string, string)>)
    ensures |obs| == |record.attributes|
    ensures forall i :: 0 <= i < |obs| ==> obs[i] == (record.attributes[i].key, "String")
  {
    seq(|record.attributes|, i requires 0 <= i < |record.attributes| => (record.attributes[i].key, "String"))
  }

  /** As `GtfObservations`, for GFF, where the tag follows the value's shape. */
  function GffObservations(record: GffRecord): (obs: seq<(string, string)>)
    requires AllParsed(record)
    ensures |obs| == |record.attributes|
    ensures forall i :: 0 <= i < |obs| ==>
              obs[i] == (record.attributes[i].key, GffTag(record.attributes[i].value))
  {
    seq(|record.attributes|, i requires 0 <= i < |record.attributes| && AllParsed(record) =>
          (record.attributes[i].key, GffTag(record.attributes[i].value)))
  }

  /** `entry(key).or_insert_with(|| tag)`: a known name keeps its tag, a new one gets `tag`. */
  function Observe(m: map<string, string>, key: string, tag: string): (r: map<string, string>)
    ensures r.Keys == m.Keys + {key}
    ensures forall k | k in m :: r[k] == m[k]
    ensures key !in m ==> r[key] == tag
  {
    if key in m then m else m[key := tag]
  }

  /** The map after observing `obs` in order, starting from `m`. First seen wins: a
      name already known keeps its tag whatever is observed later. */
  function ObserveAll(m: map<string, string>, obs: seq<(string, string)>): (r: map<string, string>)
    ensures forall k | k in m :: k in r && r[k] == m[k]
    decreases |obs|
  {
    if obs == [] then m else Observe(ObserveAll(m, obs[..|obs| - 1]), obs[|obs| - 1].0, obs[|obs| - 1].1)
  }

  /** The names in a list of observations. */
  function Names(obs: seq<(string, string)>): set<string>
  {
    set i | 0 <= i < |obs| :: obs[i].0
  }

  /** The scan knows exactly the names it started with and the names it observed. */
  lemma {:induction false} ObserveAllNames(m: map<string, string>, obs: seq<(string, string)>)
    ensures ObserveAll(m, obs).Keys == m.Keys + Names(obs)
    decreases |obs|
  {
    if obs != [] {
      var front := obs[..|obs| - 1];
      ObserveAllNames(m, front);
      assert Names(obs) == Names(front) + {obs[|obs| - 1].0} by {
        forall x | x in Names(obs)
          ensures x in Names(front) + {obs[|obs| - 1].0}
        {
          var i :| 0 <= i < |obs| && obs[i].0 == x;
          if i < |obs| - 1 {
            assert front[i].0 == x;
          }
        }
        forall x | x in Names(front)
          ensures x in Names(obs)
        {
          var i :| 0 <= i < |front| && front[i].0 == x;
          assert obs[i].0 == x;
        }
      }
    }
  }

  /** A new name is recorded with the tag of its first occurrence. */
  lemma {:induction false} ObserveAllFirstOccurrence(m: map<string, string>, obs: seq<(string, string)>, j: nat)
    requires j < |obs| && obs[j].0 !in m
    requires forall i :: 0 <= i < j ==> obs[i].0 != obs[j].0
    ensures obs[j].0 in ObserveAll(m, obs) && ObserveAll(m, obs)[obs[j].0] == obs[j].1
    decreases |obs|
  {
    var front := obs[..|obs| - 1];
    if j == |obs| - 1 {
      ObserveAllNames(m, front);
      assert obs[j].0 !in Names(front);
    } else {
      ObserveAllFirstOccurrence(m, front, j);
      assert front[j] == obs[j];
    }
  }

  /** Scanning two streams one after the other is scanning their concatenation, so a
      scan can be fed record by record. */
  lemma {:induction false} ObserveAllConcat(m: map<string, string>, a: seq<(string, string)>, b: seq<(string, string)>)
    ensures ObserveAll(m, a + b) == ObserveAll(ObserveAll(m, a), b)
    decreases |b|
  {
    if b == [] {
      assert a + b == a;
    } else {
      var front := b[..|b| - 1];
      assert (a + b)[..|a + b| - 1] == a + front;
      ObserveAllConcat(m, a, front);
    }
  }

  /** Scanning keeps every recorded tag one of the two type names. */
  lemma {:induction false} ObserveAllTags(m: map<string, string>, obs: seq<(string, string)>)
    requires forall k | k in m :: IsTypeName(m[k])
    requires forall i :: 0 <= i < |obs| ==> IsTypeName(obs[i].1)
    ensures forall k | k in ObserveAll(m, obs) :: IsTypeName(ObserveAll(m, obs)[k])
    decreases |obs|
  {
    if obs != [] {
      ObserveAllTags(m, obs[..|obs| - 1]);
    }
  }

  /** Name-sorted, each name once. */
  predicate SortedByName(pairs: seq<(string, string)>)
  {
    forall i, j :: 0 <= i < j < |pairs| ==> Less(pairs[i].0, pairs[j].0)
  }

  /** The scanner's `BTreeMap<String, String>` from attribute name to type tag:
      `attrs` is its content, `names` its keys in the map's sorted order. */
  class AttributeScanner {
    var attrs: map<string, string>
    var names: seq<string>

    ghost predicate Valid()
      reads this
    {
      && StrictlySorted(names)
      && (forall k :: k in attrs <==> k in names)
      && (forall k | k in attrs :: IsTypeName(attrs[k]))
    }

    /** `AttributeScanner::new` (and `Default`): nothing seen yet. */
    constructor ()
      ensures Valid() && attrs == map[]
    {
      attrs, names := map[], [];
    }

    /** `collect`: the (name, tag) pairs in name order. They are exactly the pairs of
        the map, each name once, and every tag is "String" or "Array". */
    function Collect(): (defs: seq<(string, string)>)
      reads this
      requires Valid()
      ensures SortedByName(defs)
      ensures forall i :: 0 <= i < |defs| ==> defs[i].0 in attrs && attrs[defs[i].0] == defs[i].1
      ensures forall k | k in attrs :: (k, attrs[k]) in defs
      ensures forall i :: 0 <= i < |defs| ==> IsTypeName(defs[i].1)
    {
      var defs := seq(|names|, i requires 0 <= i < |names| && Valid() reads this => (names[i], attrs[names[i]]));
      assert forall k | k in attrs :: (k, attrs[k]) in defs by {
        forall k | k in attrs
          ensures (k, attrs[k]) in defs
        {
          var i :| 0 <= i < |names| && names[i] == k;
          assert defs[i] == (k, attrs[k]);
        }
      }
      defs
    }

    /** `attrs.entry(key).or_insert_with(|| tag)`: looks `key` up and, when it is new,
        inserts it at its place in name order. */
    method OrInsert(key: string, tag: string)
      requires Valid() && IsTypeName(tag)
      modifies this
      ensures Valid()
      ensures attrs == Observe(old(attrs), key, tag)
    {
      if key in attrs {
        return;
      }
      var at := 0;
      while at < |names| && Less(names[at], key)
        invariant 0 <= at <= |names|
        invariant forall j :: 0 <= j < at ==> Less(names[j], key)
      {
        at := at + 1;
      }
      if at < |names| {
        assert names[at] in names;
        LessTotal(names[at], key);
      }
      InsertKeepsSorted(names, at, key);
      names := names[..at] + [key] + names[at..];
      attrs := attrs[key := tag];
    }

    /** `Push<gtf::Record>`: every attribute of the record is observed as a string. */
    method PushGtf(record: GtfRecord)
      requires Valid()
      modifies this
      ensures Valid()
      ensures attrs == ObserveAll(old(attrs), GtfObservations(record))
    {
      var obs := GtfObservations(record);
      for i := 0 to |record.attributes|
        invariant Valid()
        invariant attrs == ObserveAll(old(attrs), obs[..i])
      {
        assert obs[..i + 1][..i] == obs[..i];
        OrInsert(record.attributes[i].key, "String");
      }
      assert obs[..|obs|] == obs;
    }

    /** `Push<gff::Record>`: every attribute of the record is observed with the tag of
        its value's shape. */
    method PushGff(record: GffRecord)
      requires Valid() && AllParsed(record)
      modifies this
      ensures Valid()
      ensures attrs == ObserveAll(old(attrs), GffObservations(record))
    {
      var obs := GffObservations(record);
      for i := 0 to |record.attributes|
        invariant Valid()
        invariant attrs == ObserveAll(old(attrs), obs[..i])
      {
        assert obs[..i + 1][..i] == obs[..i];
        var field := record.attributes[i];
        OrInsert(field.key, GffTag(field.value));
      }
      assert obs[..|obs|] == obs;
    }
  }

  /** A collected listing is determined by the map alone: any two name-sorted listings
      of exactly the same pairs are equal, so the schema does not depend on the order
      in which the attributes were seen. */
  lemma CollectIsCanonical(m: map<string, string>, p: seq<(string, string)>, q: seq<(string, string)>)
    requires SortedByName(p) && SortedByName(q)
    requires forall i :: 0 <= i < |p| ==> p[i].0 in m && m[p[i].0] == p[i].1
    requires forall i :: 0 <= i < |q| ==> q[i].0 in m && m[q[i].0] == q[i].1
    requires forall k | k in m :: (k, m[k]) in p && (k, m[k]) in q
    ensures p == q
  {
    var pn := seq(|p|, i requires 0 <= i < |p| => p[i].0);
    var qn := seq(|q|, i requires 0 <= i < |q| => q[i].0);
    forall x
      ensures x in pn <==> x in qn
    {
      if x in pn {
        var i :| 0 <= i < |p| && pn[i] == x;
        var j :| 0 <= j < |q| && q[j] == (x, m[x]);
        assert qn[j] == x;
      }
      if x in qn {
        var j :| 0 <= j < |q| && qn[j] == x;
        var i :| 0 <= i < |p| && p[i] == (x, m[x]);
        assert pn[i] == x;
      }
    }
    SortedListingUnique(pn, qn);
    assert forall i :: 0 <= i < |p| ==> p[i] == (pn[i], m[pn[i]]);
  }

  /** Every collected pair defines its column: `TryFromPair` accepts it and keeps its
      name, with the type the tag names. */
  lemma CollectedPairsParse(defs: seq<(string, string)>, i: nat)
    requires i < |defs| && IsTypeName(defs[i].1)
    ensures TryFromPair(defs[i]).Ok?
    ensures TypeName(TryFromPair(defs[i]).value.ty) == defs[i].1
    ensures TryFromPair(defs[i]).value.name == defs[i].0
  {
  }

  /** The column inferred from a GTF entry accepts that entry's value. */
  lemma GtfValueFitsInferredColumn(entry: GtfEntry)
    ensures TryFromPair((entry.key, "String")).Ok?
    ensures TypeOf(FromGtfEntry(entry)) == TryFromPair((entry.key, "String")).value.ty
  {
  }

  /** The column inferred from the first GFF value of a name accepts that value, and
      rejects a value of the other shape. */
  lemma GffValueFitsInferredColumn(key: string, first: GffValue, later: GffValue)
    requires Decoded(first) && Decoded(later)
    ensures TryFromPair((key, GffTag(first))).Ok?
    ensures TypeOf(FromGffValue(first)) == TryFromPair((key, GffTag(first))).value.ty
    ensures (TypeOf(FromGffValue(later)) == TryFromPair((key, GffTag(first))).value.ty
             <==> GffTag(later) == GffTag(first))
  {
  }
}
