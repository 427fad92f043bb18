/** Python's `dict` with string keys, as the registry uses it: a map of
    entries plus the order in which keys were first inserted (the order that
    `dict.values()` and the list resolvers follow). */
module Dicts {
  import opened PyObjects

  datatype Dict<V> = Dict(keys: seq<string>, entries: map<string, V>)
  {
    /** The keys are distinct and are exactly the keys of the entries. */
    ghost predicate Valid() {
      && (forall i, j :: 0 <= i < j < |keys| ==> keys[i] != keys[j])
      && (forall k :: k in entries <==> k in keys)
    }

    /** `d[k] = v`: binds `k` to `v`; a new key goes last, an existing key
        keeps its place and only its value changes. */
    function Put(k: string, v: V): (d: Dict<V>)
      ensures Valid() ==> d.Valid()
      ensures k in d.entries && d.entries[k] == v
      ensures forall k' :: k' != k ==> (k' in d.entries <==> k' in entries)
      ensures forall k' :: k' != k && k' in entries ==> d.entries[k'] == entries[k']
      ensures k in entries ==> d.keys == keys
      ensures k !in entries ==> d.keys == keys + [k]
    {
      Dict(if k in entries then keys else keys + [k], entries[k := v])
    }

    /** `d.get(k)`: `None` for a missing key. */
    function Get(k: string): (r: Option<V>)
      ensures r.Some? <==> k in entries
      ensures r.Some? ==> r.value == entries[k]
    {
      if k in entries then Some(entries[k]) else None
    }

    /** `d[k]`: raises `KeyError` for a missing key. */
    function Index(k: string): (r: Result<V>)
      ensures r.Ok? <==> k in entries
      ensures r.Ok? ==> r.value == entries[k]
      ensures r.Err? ==> r.error == KeyError(k)
    {
      if k in entries then Ok(entries[k]) else Err(KeyError(k))
    }

    /** `list(d.values())`: the values in insertion order of their keys. */
    function Values(): (vs: seq<V>)
      requires Valid()
      ensures |vs| == |keys|
      ensures forall i :: 0 <= i < |keys| ==> vs[i] == entries[keys[i]]
    {
      seq(|keys|, i requires 0 <= i < |keys| => entries[keys[i]])
    }
  }

  /** `dict()`: the empty dictionary. */
  function Empty<V>(): (d: Dict<V>)
    ensures d.Valid() && d.keys == [] && d.entries == map[]
  {
    Dict([], map[])
  }

  /** After `d[k] = v` the values list either gains `v` at its end (a new
      key) or has `v` in place of the old value of `k` (an existing key). */
  lemma ValuesAfterPut<V>(d: Dict<V>, k: string, v: V)
    requires d.Valid()
    ensures k !in d.entries ==> d.Put(k, v).Values() == d.Values() + [v]
    ensures forall i :: 0 <= i < |d.keys| && d.keys[i] == k ==>
              d.Put(k, v).Values() == d.Values()[i := v]
  {
    var d' := d.Put(k, v);
    if k !in d.entries {
      assert d'.Values() == d.Values() + [v];
    }
    forall i | 0 <= i < |d.keys| && d.keys[i] == k
      ensures d'.Values() == d.Values()[i := v]
    {
      assert k in d.entries;
      forall j | 0 <= j < |d.keys|
        ensures d'.Values()[j] == d.Values()[i := v][j]
      {
        if j != i {
          assert d.keys[j] != k;
        }
      }
    }
  }

  /** `zip(ks, vs)`: pairs up the two lists, as long as the shorter one. */
  function Zip<V>(ks: seq<string>, vs: seq<V>): (ps: seq<(string, V)>)
    ensures |ps| == if |ks| <= |vs| then |ks| else |vs|
    ensures forall i :: 0 <= i < |ps| ==> ps[i] == (ks[i], vs[i])
  {
    var n := if |ks| <= |vs| then |ks| else |vs|;
    seq(n, i requires 0 <= i < n => (ks[i], vs[i]))
  }

  /** The keys of a list of pairs, in list order. */
  function KeysOf<V>(ps: seq<(string, V)>): (ks: seq<string>)
    ensures |ks| == |ps|
    ensures forall i :: 0 <= i < |ps| ==> ks[i] == ps[i].0
  {
    seq(|ps|, i requires 0 <= i < |ps| => ps[i].0)
  }

  /** `{k: v for k, v in ps}`: the pairs inserted one after the other. */
  function FromPairs<V>(ps: seq<(string, V)>): (d: Dict<V>)
    ensures d.Valid()
    decreases |ps|
  {
    if ps == [] then Empty()
    else FromPairs(ps[..|ps| - 1]).Put(ps[|ps| - 1].0, ps[|ps| - 1].1)
  }

  /** The position of the first occurrence of `k` in `ks`. */
  function FirstIndex(ks: seq<string>, k: string): (i: nat)
    requires k in ks
    ensures i < |ks| && ks[i] == k
    ensures forall j :: 0 <= j < i ==> ks[j] != k
  {
    if ks[0] == k then 0 else 1 + FirstIndex(ks[1..], k)
  }

  /** `ps[i]` is the last pair with key `ps[i].0`. */
  ghost predicate LastOccurrence<V>(ps: seq<(string, V)>, i: int) {
    && 0 <= i < |ps|
    && forall j :: i < j < |ps| ==> ps[j].0 != ps[i].0
  }

  /** Folding a list of pairs into a dict keeps exactly the keys that occur
      in the list. */
  lemma {:induction false} FromPairsKeys<V>(ps: seq<(string, V)>)
    ensures forall k :: k in FromPairs(ps).entries <==> k in KeysOf(ps)
    decreases |ps|
  {
    if ps != [] {
      var init := ps[..|ps| - 1];
      FromPairsKeys(init);
      assert KeysOf(ps) == KeysOf(init) + [ps[|ps| - 1].0];
    }
  }

  /** Folding a list of pairs into a dict binds each key to the value of its
      last occurrence: later duplicates overwrite earlier ones. */
  lemma {:induction false} FromPairsLastWins<V>(ps: seq<(string, V)>, i: int)
    requires LastOccurrence(ps, i)
    ensures ps[i].0 in FromPairs(ps).entries
    ensures FromPairs(ps).entries[ps[i].0] == ps[i].1
    decreases |ps|
  {
    if i < |ps| - 1 {
      var init := ps[..|ps| - 1];
      assert init[i] == ps[i];
      FromPairsLastWins(init, i);
    }
  }

  /** Every entry of the folded dict is bound to the value of the last pair
      with that key. */
  lemma {:induction false} FromPairsFrom<V>(ps: seq<(string, V)>, k: string)
    requires k in FromPairs(ps).entries
    ensures exists i :: LastOccurrence(ps, i) && ps[i].0 == k && FromPairs(ps).entries[k] == ps[i].1
    decreases |ps|
  {
    assert ps != [];
    var n := |ps| - 1;
    var init := ps[..n];
    assert k != ps[n].0 ==> k in FromPairs(init).entries;
    if ps[n].0 == k {
      assert LastOccurrence(ps, n);
    } else {
      FromPairsFrom(init, k);
      var i :| LastOccurrence(init, i) && init[i].0 == k && FromPairs(init).entries[k] == init[i].1;
      LastOccurrenceExtended(ps, i);
    }
  }

  /** A last occurrence in all but the final pair stays one when the final
      pair has another key. */
  lemma LastOccurrenceExtended<V>(ps: seq<(string, V)>, i: int)
    requires ps != [] && LastOccurrence(ps[..|ps| - 1], i)
    requires ps[|ps| - 1].0 != ps[i].0
    ensures LastOccurrence(ps, i)
  {
    var init := ps[..|ps| - 1];
    forall j | i < j < |ps| ensures ps[j].0 != ps[i].0 {
      if j < |ps| - 1 {
        assert ps[j] == init[j];
      }
    }
  }

  /** Every key of `keys` occurs in `ks`, and `keys` lists them in the order
      of their first occurrence in `ks`. */
  ghost predicate InFirstOccurrenceOrder(keys: seq<string>, ks: seq<string>) {
    && (forall i :: 0 <= i < |keys| ==> keys[i] in ks)
    && (forall i, j :: 0 <= i < j < |keys| ==> FirstIndex(ks, keys[i]) < FirstIndex(ks, keys[j]))
  }

  /** Folding a list of pairs keeps its keys in the order of their first
      occurrence in the list. */
  lemma {:induction false} FromPairsOrder<V>(ps: seq<(string, V)>)
    ensures InFirstOccurrenceOrder(FromPairs(ps).keys, KeysOf(ps))
    decreases |ps|
  {
    if ps != [] {
      var init, last := ps[..|ps| - 1], ps[|ps| - 1];
      var d0 := FromPairs(init);
      assert FromPairs(ps) == d0.Put(last.0, last.1);
      assert KeysOf(ps) == KeysOf(init) + [last.0];
      FromPairsOrder(init);
      OrderExtended(d0.keys, KeysOf(init), last.0);
      if last.0 !in d0.entries {
        FromPairsKeys(init);
        OrderAppended(d0.keys, KeysOf(init), last.0);
      }
    }
  }

  /** Appending to the list does not change the first occurrences of the
      keys already ordered. */
  lemma OrderExtended(keys: seq<string>, ks: seq<string>, x: string)
    requires InFirstOccurrenceOrder(keys, ks)
    ensures InFirstOccurrenceOrder(keys, ks + [x])
  {
    forall i | 0 <= i < |keys|
      ensures keys[i] in ks + [x] && FirstIndex(ks + [x], keys[i]) == FirstIndex(ks, keys[i])
    {
      FirstIndexPrefix(ks, [x], keys[i]);
    }
  }

  /** A key met for the first time goes after all the keys met before. */
  lemma OrderAppended(keys: seq<string>, ks: seq<string>, x: string)
    requires InFirstOccurrenceOrder(keys, ks)
    requires x !in ks
    ensures InFirstOccurrenceOrder(keys + [x], ks + [x])
  {
    OrderExtended(keys, ks, x);
    var keys', ks' := keys + [x], ks + [x];
    assert FirstIndex(ks', x) == |ks|;
    forall i | 0 <= i < |keys| ensures FirstIndex(ks', keys[i]) < |ks| {
      FirstIndexPrefix(ks, [x], keys[i]);
    }
  }

  /** The first occurrence of a key in a list is unchanged by appending to
      the list. */
  lemma {:induction false} FirstIndexPrefix(ks: seq<string>, more: seq<string>, k: string)
    requires k in ks
    ensures FirstIndex(ks + more, k) == FirstIndex(ks, k)
  {
    if ks[0] != k {
      assert (ks + more)[1..] == ks[1..] + more;
      FirstIndexPrefix(ks[1..], more, k);
    }
  }

  /** When the keys of the pairs are distinct, the folded dict keeps every
      pair, in list order. */
  lemma {:induction false} FromPairsDistinct<V>(ps: seq<(string, V)>)
    requires forall i, j :: 0 <= i < j < |ps| ==> ps[i].0 != ps[j].0
    ensures FromPairs(ps).keys == KeysOf(ps)
    ensures forall i :: 0 <= i < |ps| ==> FromPairs(ps).entries[ps[i].0] == ps[i].1
    decreases |ps|
  {
    if ps != [] {
      var init := ps[..|ps| - 1];
      FromPairsDistinct(init);
      FromPairsKeys(init);
      assert KeysOf(ps) == KeysOf(init) + [ps[|ps| - 1].0];
      forall i | 0 <= i < |ps| ensures FromPairs(ps).entries[ps[i].0] == ps[i].1 {
        assert LastOccurrence(ps, i);
        FromPairsLastWins(ps, i);
      }
    }
  }
}
