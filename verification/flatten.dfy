/**
 * The record flattener of target_gcs_bq.py: nested mappings become one
 * level of `parent + sep + child` keys, exact lists are replaced by their
 * string form, and the collected pairs go through `dict(items)`.
 */
module Flattening {
  import opened Values

  /** The separator `flatten` is called with when a record is buffered. */
  const DefaultSep: string := "__"

  /** The first occurrence of each key, in order of first appearance. */
  function Dedup(ks: seq<string>): (r: seq<string>)
    ensures Distinct(r)
    ensures forall x :: x in r <==> x in ks
  {
    if ks == [] then []
    else
      var init, last := ks[..|ks| - 1], ks[|ks| - 1];
      assert ks == init + [last];
      if last in init then Dedup(init) else Dedup(init) + [last]
  }

  /** The value bound last to `k` in a list of pairs, if any. */
  function LastValue<V>(items: seq<(string, V)>, k: string): (r: Option<V>)
    ensures r.None? <==> k !in Keys(items)
    ensures r.Some? ==> (k, r.value) in items
  {
    if items == [] then None
    else
      var init, last := items[..|items| - 1], items[|items| - 1];
      assert items == init + [last];
      assert Keys(items) == Keys(init) + [last.0];
      if last.0 == k then Some(last.1) else LastValue(init, k)
  }

  /**
   * `d[k] = v` on an insertion-ordered dict: a key already present keeps its
   * position and takes the new value, a new key goes to the end.
   */
  function Put<V>(m: seq<(string, V)>, k: string, v: V): (r: seq<(string, V)>)
    ensures Keys(r) == if k in Keys(m) then Keys(m) else Keys(m) + [k]
    ensures k !in Keys(m) ==> r == m + [(k, v)]
  {
    if m == [] then [(k, v)]
    else
      assert Keys(m) == [m[0].0] + Keys(m[1..]);
      if m[0].0 == k then
        var r := [(k, v)] + m[1..];
        assert Keys(r) == [k] + Keys(m[1..]);
        r
      else
        var t := Put(m[1..], k, v);
        var r := [m[0]] + t;
        assert Keys(r) == [m[0].0] + Keys(t);
        r
  }

  /** After `d[k] = v`, looking up `k` gives `v` and every other key reads as before. */
  lemma {:induction false} PutLookup<V>(m: seq<(string, V)>, k: string, v: V, j: string)
    ensures Lookup(Put(m, k, v), j) == if j == k then Some(v) else Lookup(m, j)
  {
    if m != [] && m[0].0 != k {
      var r := Put(m, k, v);
      assert r[1..] == Put(m[1..], k, v);
      if j != m[0].0 {
        PutLookup(m[1..], k, v, j);
      }
    }
  }

  /**
   * `dict(items)`: the pairs are stored in order, so a repeated key keeps the
   * position of its first occurrence and the value of its last.
   */
  function DictOf<V>(items: seq<(string, V)>): (r: seq<(string, V)>)
    ensures Keys(r) == Dedup(Keys(items))
    ensures Distinct(Keys(r))
  {
    if items == [] then []
    else
      var init, last := items[..|items| - 1], items[|items| - 1];
      assert items == init + [last];
      assert Keys(items) == Keys(init) + [last.0];
      assert Keys(items)[..|items| - 1] == Keys(init);
      Put(DictOf(init), last.0, last.1)
  }

  /** `d[k] = v` stores no pair but the old ones and `(k, v)`. */
  lemma {:induction false} PutPairs<V>(m: seq<(string, V)>, k: string, v: V)
    ensures forall p :: p in Put(m, k, v) ==> p in m || p == (k, v)
  {
    if m != [] && m[0].0 != k {
      PutPairs(m[1..], k, v);
      assert Put(m, k, v) == [m[0]] + Put(m[1..], k, v);
    }
  }

  /** `dict(items)` stores only pairs of `items`. */
  lemma {:induction false} DictOfPairs<V>(items: seq<(string, V)>)
    ensures forall p :: p in DictOf(items) ==> p in items
  {
    if items != [] {
      var init, last := items[..|items| - 1], items[|items| - 1];
      DictOfPairs(init);
      PutPairs(DictOf(init), last.0, last.1);
    }
  }

  /** Looking a key up in `dict(items)` gives the value bound to it last. */
  lemma {:induction false} DictOfLookup<V>(items: seq<(string, V)>, k: string)
    ensures Lookup(DictOf(items), k) == LastValue(items, k)
  {
    if items != [] {
      var init, last := items[..|items| - 1], items[|items| - 1];
      DictOfLookup(init, k);
      PutLookup(DictOf(init), last.0, last.1, k);
    }
  }

  /** Pairs whose keys are already distinct pass through `dict` unchanged. */
  lemma {:induction false} DictOfDistinct<V>(items: seq<(string, V)>)
    requires Distinct(Keys(items))
    ensures DictOf(items) == items
  {
    if items != [] {
      var init, last := items[..|items| - 1], items[|items| - 1];
      assert items == init + [last];
      assert Keys(items) == Keys(init) + [last.0];
      assert Distinct(Keys(init)) by {
        forall i, j | 0 <= i < j < |init| ensures Keys(init)[i] != Keys(init)[j] {
          assert Keys(init)[i] == Keys(items)[i] && Keys(init)[j] == Keys(items)[j];
        }
      }
      DictOfDistinct(init);
      forall i | 0 <= i < |init| ensures Keys(init)[i] != last.0 {
        assert Keys(init)[i] == Keys(items)[i];
        assert Keys(items)[|items| - 1] == last.0;
        assert Keys(items)[i] != Keys(items)[|items| - 1];
      }
      assert last.0 !in Keys(init);
      calc {
        DictOf(items);
        Put(DictOf(init), last.0, last.1);
        Put(init, last.0, last.1);
        init + [(last.0, last.1)];
      }
    }
  }

  /** A leaf as stored: an exact list becomes its string form, anything else is kept. */
  function Leaf(v: Value, show: seq<Value> -> string): (r: Value)
    ensures !r.List?
    ensures !v.List? ==> r == v
  {
    if v.List? then Str(show(v.items)) else v
  }

  /** `parent_key + sep + k if parent_key else k`. */
  function JoinKey(parent: string, sep: string, k: string): (r: string)
    ensures parent == "" ==> r == k
    ensures parent != "" ==> parent + sep <= r && r[|parent| + |sep|..] == k
  {
    if parent != "" then parent + sep + k else k
  }

  /**
   * `flatten(d, parent_key, sep)`; `show` stands for Python's `str` on a list.
   */
  function Flatten(d: Value, parent: string, sep: string, show: seq<Value> -> string): (r: seq<(string, Value)>)
    requires d.Obj?
    ensures Distinct(Keys(r))
    ensures forall j :: 0 <= j < |d.fields| && !d.fields[j].1.Obj? ==> JoinKey(parent, sep, d.fields[j].0) in Keys(r)
    decreases d, 1
  {
    var items := Items(d, 0, parent, sep, show);
    assert forall p :: p in items ==> p.0 in Keys(items) by {
      forall p | p in items ensures p.0 in Keys(items) {
        var k :| 0 <= k < |items| && items[k] == p;
        assert Keys(items)[k] == p.0;
      }
    }
    DictOf(items)
  }

  /** The `items` list that `flatten` builds from the fields of `d` from index `i` on. */
  function Items(d: Value, i: nat, parent: string, sep: string, show: seq<Value> -> string): (r: seq<(string, Value)>)
    requires d.Obj? && i <= |d.fields|
    ensures forall j :: i <= j < |d.fields| && !d.fields[j].1.Obj? ==>
      (JoinKey(parent, sep, d.fields[j].0), Leaf(d.fields[j].1, show)) in r
    decreases d, 0, |d.fields| - i
  {
    if i == |d.fields| then []
    else
      var newKey := JoinKey(parent, sep, d.fields[i].0);
      var v := d.fields[i].1;
      var head := if v.Obj? then Flatten(v, newKey, sep, show) else [(newKey, Leaf(v, show))];
      var rest := Items(d, i + 1, parent, sep, show);
      var r := head + rest;
      assert forall j :: i <= j < |d.fields| && !d.fields[j].1.Obj? ==>
        (JoinKey(parent, sep, d.fields[j].0), Leaf(d.fields[j].1, show)) in r
      by {
        forall j | i <= j < |d.fields| && !d.fields[j].1.Obj?
          ensures (JoinKey(parent, sep, d.fields[j].0), Leaf(d.fields[j].1, show)) in r
        {
          if j == i {
            assert r[0] == (newKey, Leaf(v, show));
          } else {
            var p := (JoinKey(parent, sep, d.fields[j].0), Leaf(d.fields[j].1, show));
            assert p in rest;
            var k :| 0 <= k < |rest| && rest[k] == p;
            assert r[|head| + k] == p;
          }
        }
      }
      r
  }

  /** A value that can stand in a flat row: neither a mapping nor a list. */
  predicate IsScalar(v: Value)
  {
    !v.Obj? && !v.List?
  }

  /** Every pair holds a scalar and, under a non-empty parent, a key that extends `parent + sep`. */
  ghost predicate FlatUnder(m: seq<(string, Value)>, parent: string, sep: string)
  {
    forall p :: p in m ==> IsScalar(p.1) && (parent != "" ==> parent + sep <= p.0)
  }

  /**
   * The result of `flatten` is flat: no value is a mapping or a list, and
   * every key under a non-empty parent starts with that parent and the separator.
   */
  lemma {:induction false} FlattenIsFlat(d: Value, parent: string, sep: string, show: seq<Value> -> string)
    requires d.Obj?
    ensures Distinct(Keys(Flatten(d, parent, sep, show)))
    ensures FlatUnder(Flatten(d, parent, sep, show), parent, sep)
    decreases d, 1
  {
    ItemsAreFlat(d, 0, parent, sep, show);
    DictOfPairs(Items(d, 0, parent, sep, show));
  }

  lemma {:induction false} ItemsAreFlat(d: Value, i: nat, parent: string, sep: string, show: seq<Value> -> string)
    requires d.Obj? && i <= |d.fields|
    ensures FlatUnder(Items(d, i, parent, sep, show), parent, sep)
    decreases d, 0, |d.fields| - i
  {
    if i < |d.fields| {
      var newKey := JoinKey(parent, sep, d.fields[i].0);
      var v := d.fields[i].1;
      ItemsAreFlat(d, i + 1, parent, sep, show);
      if parent != "" {
        assert newKey == parent + sep + d.fields[i].0;
        assert parent + sep <= newKey;
      }
      if v.Obj? {
        FlattenIsFlat(v, newKey, sep, show);
        forall p | p in Flatten(v, newKey, sep, show)
          ensures IsScalar(p.1) && (parent != "" ==> parent + sep <= p.0)
        {
          if parent != "" {
            assert newKey != "";
            assert newKey + sep <= p.0;
          }
        }
      }
    }
  }

  lemma KeysAppend<V>(a: seq<(string, V)>, b: seq<(string, V)>)
    ensures Keys(a + b) == Keys(a) + Keys(b)
  {
    assert forall i :: 0 <= i < |a + b| ==> Keys(a + b)[i] == (Keys(a) + Keys(b))[i];
  }

  /** The keys of a nested field's flattening are among the keys the loop collects from any earlier index. */
  lemma {:induction false} ItemsIncludeNested(d: Value, i: nat, parent: string, sep: string, show: seq<Value> -> string,
                                              j: nat, k: string)
    requires d.Obj? && i <= j < |d.fields| && d.fields[j].1.Obj?
    requires k in Keys(Flatten(d.fields[j].1, JoinKey(parent, sep, d.fields[j].0), sep, show))
    ensures k in Keys(Items(d, i, parent, sep, show))
    decreases |d.fields| - i
  {
    var newKey := JoinKey(parent, sep, d.fields[i].0);
    var v := d.fields[i].1;
    var head := if v.Obj? then Flatten(v, newKey, sep, show) else [(newKey, Leaf(v, show))];
    var rest := Items(d, i + 1, parent, sep, show);
    assert Items(d, i, parent, sep, show) == head + rest;
    KeysAppend(head, rest);
    if j > i {
      ItemsIncludeNested(d, i + 1, parent, sep, show, j, k);
    }
  }

  /**
   * Every key of a nested mapping's flattening, made under the joined key of
   * its field, is a key of the outer flattening.
   */
  lemma NestedKeyReaches(d: Value, parent: string, sep: string, show: seq<Value> -> string, j: nat, k: string)
    requires d.Obj? && j < |d.fields| && d.fields[j].1.Obj?
    requires k in Keys(Flatten(d.fields[j].1, JoinKey(parent, sep, d.fields[j].0), sep, show))
    ensures k in Keys(Flatten(d, parent, sep, show))
  {
    ItemsIncludeNested(d, 0, parent, sep, show, j, k);
  }

  /**
   * Pair `p` comes from field `j` of `d`: for a nested mapping it is a pair of
   * that mapping's flattening under the field's joined key, otherwise it is
   * the joined key with the field's stored leaf.
   */
  ghost predicate FromField(d: Value, j: nat, parent: string, sep: string, show: seq<Value> -> string,
                            p: (string, Value))
    requires d.Obj? && j < |d.fields|
  {
    var newKey := JoinKey(parent, sep, d.fields[j].0);
    var v := d.fields[j].1;
    if v.Obj? then p in Flatten(v, newKey, sep, show) else p == (newKey, Leaf(v, show))
  }

  /**
   * The loop collects exactly the pairs that come from the fields from index
   * `i` on: nothing is lost and nothing else is added.
   */
  lemma {:induction false} ItemsPairs(d: Value, i: nat, parent: string, sep: string, show: seq<Value> -> string,
                                      p: (string, Value))
    requires d.Obj? && i <= |d.fields|
    ensures p in Items(d, i, parent, sep, show) <==>
      exists j :: i <= j < |d.fields| && FromField(d, j, parent, sep, show, p)
    decreases |d.fields| - i
  {
    if i < |d.fields| {
      var newKey := JoinKey(parent, sep, d.fields[i].0);
      var v := d.fields[i].1;
      var head := if v.Obj? then Flatten(v, newKey, sep, show) else [(newKey, Leaf(v, show))];
      var rest := Items(d, i + 1, parent, sep, show);
      assert Items(d, i, parent, sep, show) == head + rest;
      assert p in head <==> FromField(d, i, parent, sep, show, p);
      ItemsPairs(d, i + 1, parent, sep, show, p);
      if p in head + rest {
        if p in head {
          assert FromField(d, i, parent, sep, show, p);
        }
      } else {
        forall j | i <= j < |d.fields| ensures !FromField(d, j, parent, sep, show, p) {
          if j == i {
            assert p !in head;
          } else {
            assert p !in rest;
          }
        }
      }
    }
  }

  /**
   * Every pair of the flattened record comes from one of its fields, and every
   * pair a field gives has its key in the result.
   */
  lemma FlattenPairs(d: Value, parent: string, sep: string, show: seq<Value> -> string, p: (string, Value))
    requires d.Obj?
    ensures p in Flatten(d, parent, sep, show) ==> exists j :: 0 <= j < |d.fields| && FromField(d, j, parent, sep, show, p)
    ensures (exists j :: 0 <= j < |d.fields| && FromField(d, j, parent, sep, show, p)) ==>
      p.0 in Keys(Flatten(d, parent, sep, show))
  {
    var items := Items(d, 0, parent, sep, show);
    DictOfPairs(items);
    ItemsPairs(d, 0, parent, sep, show, p);
    if p in items {
      var k :| 0 <= k < |items| && items[k] == p;
      assert Keys(items)[k] == p.0;
    }
  }

  /** A record whose values are all scalars. */
  ghost predicate AllScalar(fields: seq<(string, Value)>)
  {
    forall i :: 0 <= i < |fields| ==> IsScalar(fields[i].1)
  }

  /**
   * Flattening a record that holds no mapping and no list, at the top level,
   * gives back the same keys and values in the same order.
   */
  lemma {:induction false} FlattenOfFlat(fields: seq<(string, Value)>, sep: string, show: seq<Value> -> string)
    requires AllScalar(fields) && Distinct(Keys(fields))
    ensures Flatten(Obj(fields), "", sep, show) == fields
  {
    ItemsOfFlat(Obj(fields), 0, sep, show);
    assert fields[0..] == fields;
    DictOfDistinct(fields);
  }

  lemma {:induction false} ItemsOfFlat(d: Value, i: nat, sep: string, show: seq<Value> -> string)
    requires d.Obj? && i <= |d.fields| && AllScalar(d.fields)
    ensures Items(d, i, "", sep, show) == d.fields[i..]
    decreases |d.fields| - i
  {
    if i < |d.fields| {
      ItemsOfFlat(d, i + 1, sep, show);
      assert d.fields[i..] == [d.fields[i]] + d.fields[i + 1..];
    }
  }

  /** `{"a": {"b": 1}}` flattens to `{"a__b": 1}`. */
  lemma NestedExample(show: seq<Value> -> string)
    ensures Flatten(Obj([("a", Obj([("b", Num(1))]))]), "", DefaultSep, show) == [("a__b", Num(1))]
  {
    var inner := Obj([("b", Num(1))]);
    assert JoinKey("a", DefaultSep, "b") == "a__b";
    assert Items(inner, 1, "a", DefaultSep, show) == [];
    assert Items(inner, 0, "a", DefaultSep, show) == [("a__b", Num(1))];
    assert Flatten(inner, "a", DefaultSep, show) == [("a__b", Num(1))];
  }

  /** `{"a__b": 1, "a": {"b": 2}}` flattens to `{"a__b": 2}`: first position, last value. */
  lemma CollidingKeysExample(show: seq<Value> -> string)
    ensures Flatten(Obj([("a__b", Num(1)), ("a", Obj([("b", Num(2))]))]), "", DefaultSep, show) == [("a__b", Num(2))]
  {
    var inner := Obj([("b", Num(2))]);
    var outer := Obj([("a__b", Num(1)), ("a", inner)]);
    assert Flatten(inner, "a", DefaultSep, show) == [("a__b", Num(2))] by {
      assert JoinKey("a", DefaultSep, "b") == "a__b";
      assert Items(inner, 1, "a", DefaultSep, show) == [];
      assert Items(inner, 0, "a", DefaultSep, show) == [("a__b", Num(2))];
    }
    var items := [("a__b", Num(1)), ("a__b", Num(2))];
    assert Items(outer, 0, "", DefaultSep, show) == items by {
      assert Items(outer, 2, "", DefaultSep, show) == [];
      assert Items(outer, 1, "", DefaultSep, show) == [("a__b", Num(2))];
    }
    assert DictOf(items) == [("a__b", Num(2))] by {
      assert items[..1] == [("a__b", Num(1))];
      assert DictOf(items[..1]) == [("a__b", Num(1))];
    }
  }

  /** `{"a": {"b": [1]}}` flattens to `{"a__b": str([1])}`: a nested list leaf is replaced too. */
  lemma NestedListExample(show: seq<Value> -> string)
    ensures Flatten(Obj([("a", Obj([("b", List([Num(1)]))]))]), "", DefaultSep, show)
         == [("a__b", Str(show([Num(1)])))]
  {
    var inner := Obj([("b", List([Num(1)]))]);
    var leaf := Str(show([Num(1)]));
    assert Flatten(inner, "a", DefaultSep, show) == [("a__b", leaf)] by {
      assert JoinKey("a", DefaultSep, "b") == "a__b";
      assert Items(inner, 1, "a", DefaultSep, show) == [];
      assert Items(inner, 0, "a", DefaultSep, show) == [("a__b", leaf)];
    }
    var outer := Obj([("a", inner)]);
    assert Items(outer, 1, "", DefaultSep, show) == [];
    assert Items(outer, 0, "", DefaultSep, show) == [("a__b", leaf)];
  }

  /** `{"a": [1, 2]}` flattens to `{"a": str([1, 2])}`. */
  lemma ListExample(show: seq<Value> -> string)
    ensures Flatten(Obj([("a", List([Num(1), Num(2)]))]), "", DefaultSep, show)
         == [("a", Str(show([Num(1), Num(2)])))]
  {
    var d := Obj([("a", List([Num(1), Num(2)]))]);
    assert Items(d, 1, "", DefaultSep, show) == [];
    assert Items(d, 0, "", DefaultSep, show) == [("a", Str(show([Num(1), Num(2)])))];
  }
}
