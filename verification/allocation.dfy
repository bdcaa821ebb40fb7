/** First-seen id allocation, shared by both exporters
    (GTASceneSync.py:55-66 and 109-119).

    The source walks the objects once, keeps a dictionary from key to what it
    recorded for that key, and a counter `cur` that starts at the starting id
    and grows by one each time a key is seen for the first time. A Python
    dictionary iterates in insertion order, so it is modelled as the sequence
    of its entries in insertion order. */
module Allocation {
  import opened Wrappers

  /** What the dictionary holds for one key: its id and the payload recorded
      when the key was first seen. */
  datatype Entry<P> = Entry(key: string, id: int, payload: P)

  /** The dictionary's entries in insertion order, and the counter. */
  datatype Table<P> = Table(entries: seq<Entry<P>>, next: int)

  /** Position of the first occurrence of `k` in `ks`. */
  function IndexOf(ks: seq<string>, k: string): (r: Option<nat>)
    ensures r.Some? ==> r.value < |ks| && ks[r.value] == k
    ensures r.Some? ==> forall m :: 0 <= m < r.value ==> ks[m] != k
    ensures r.None? ==> k !in ks
  {
    if |ks| == 0 then None
    else if ks[0] == k then Some(0)
    else
      match IndexOf(ks[1..], k)
      case Some(p) => Some(p + 1)
      case None => None
  }

  /** The keys of a sequence of (key, payload) pairs. */
  function KeysOf<P>(items: seq<(string, P)>): (ks: seq<string>)
    ensures |ks| == |items|
    ensures forall i :: 0 <= i < |items| ==> ks[i] == items[i].0
  {
    seq(|items|, i requires 0 <= i < |items| => items[i].0)
  }

  /** The keys of a dictionary, in insertion order. */
  function EntryKeys<P>(es: seq<Entry<P>>): (ks: seq<string>)
    ensures |ks| == |es|
    ensures forall i :: 0 <= i < |es| ==> ks[i] == es[i].key
  {
    seq(|es|, i requires 0 <= i < |es| => es[i].key)
  }

  predicate DistinctKeys<P>(es: seq<Entry<P>>)
  {
    forall i, j :: 0 <= i < j < |es| ==> es[i].key != es[j].key
  }

  /** `mapping.get(key)`: the id stored for `key`, if any. */
  function IdOf<P>(t: Table<P>, key: string): (r: Option<int>)
    ensures r.Some? <==> key in EntryKeys(t.entries)
    ensures DistinctKeys(t.entries) ==>
      forall j :: 0 <= j < |t.entries| && t.entries[j].key == key ==> r == Some(t.entries[j].id)
  {
    match IndexOf(EntryKeys(t.entries), key)
    case Some(p) => Some(t.entries[p].id)
    case None => None
  }

  /** The dictionary and counter after the loop over `items`, starting the
      counter at `start`: a key not yet present is inserted with the
      current counter and the payload it came with, and the counter grows;
      a key already present is skipped. */
  function Allocate<P>(items: seq<(string, P)>, start: int): (t: Table<P>)
    ensures t.next == start + |t.entries|
    ensures |t.entries| <= |items|
    ensures forall j :: 0 <= j < |t.entries| ==> t.entries[j].id == start + j
    decreases |items|
  {
    if |items| == 0 then Table([], start)
    else
      var pre := items[..|items| - 1];
      var t := Allocate(pre, start);
      var key := items[|items| - 1].0;
      if key in EntryKeys(t.entries) then
        t
      else
        Table(t.entries + [Entry(key, t.next, items[|items| - 1].1)], t.next + 1)
  }

  /** Each key of the items is in the dictionary exactly once, and the
      dictionary holds no other key. */
  lemma {:induction false} AllocateKeys<P>(items: seq<(string, P)>, start: int)
    ensures var t := Allocate(items, start);
      && DistinctKeys(t.entries)
      && (forall j :: 0 <= j < |t.entries| ==> t.entries[j].key in KeysOf(items))
      && (forall i :: 0 <= i < |items| ==> items[i].0 in EntryKeys(t.entries))
    decreases |items|
  {
    if |items| > 0 {
      var pre := items[..|items| - 1];
      AllocateKeys(pre, start);
      var t := Allocate(pre, start);
      var key := items[|items| - 1].0;
      assert KeysOf(items) == KeysOf(pre) + [key];
      if key !in EntryKeys(t.entries) {
        var e := Entry(key, t.next, items[|items| - 1].1);
        assert EntryKeys(t.entries + [e]) == EntryKeys(t.entries) + [key];
      }
    }
  }

  /** The keys of the dictionary do not depend on the payloads. */
  lemma {:induction false} AllocateKeysOnly<P, Q>(a: seq<(string, P)>, b: seq<(string, Q)>, start: int)
    requires KeysOf(a) == KeysOf(b)
    ensures EntryKeys(Allocate(a, start).entries) == EntryKeys(Allocate(b, start).entries)
    decreases |a|
  {
    if |a| > 0 {
      var pa, pb := a[..|a| - 1], b[..|b| - 1];
      assert KeysOf(pa) == KeysOf(a)[..|a| - 1];
      assert KeysOf(pb) == KeysOf(b)[..|b| - 1];
      AllocateKeysOnly(pa, pb, start);
      var ta, tb := Allocate(pa, start), Allocate(pb, start);
      var ka, kb := a[|a| - 1].0, b[|b| - 1].0;
      assert ka == KeysOf(a)[|a| - 1] == kb;
      if ka !in EntryKeys(ta.entries) {
        var ea := Entry(ka, ta.next, a[|a| - 1].1);
        var eb := Entry(kb, tb.next, b[|b| - 1].1);
        assert EntryKeys(ta.entries + [ea]) == EntryKeys(ta.entries) + [ka];
        assert EntryKeys(tb.entries + [eb]) == EntryKeys(tb.entries) + [kb];
      }
    }
  }

  /** Each entry holds the payload of the first item with its key. */
  ghost predicate FirstPayloads<P>(items: seq<(string, P)>, es: seq<Entry<P>>)
  {
    forall j :: 0 <= j < |es| ==>
      var f := IndexOf(KeysOf(items), es[j].key);
      f.Some? && es[j].payload == items[f.value].1
  }

  /** The entries are ordered by the first occurrence of their keys. */
  ghost predicate FirstSeenOrder<P>(items: seq<(string, P)>, es: seq<Entry<P>>)
  {
    forall i, j :: 0 <= i < j < |es| ==>
      var fi, fj := IndexOf(KeysOf(items), es[i].key), IndexOf(KeysOf(items), es[j].key);
      fi.Some? && fj.Some? && fi.value < fj.value
  }

  /** The entries appear in the order their keys were first seen, and each
      holds the payload of the first item with its key: later items with
      the same key change nothing. */
  lemma {:induction false} AllocateFirstSeen<P>(items: seq<(string, P)>, start: int)
    ensures FirstPayloads(items, Allocate(items, start).entries)
    ensures FirstSeenOrder(items, Allocate(items, start).entries)
    decreases |items|
  {
    if |items| > 0 {
      var n := |items|;
      var pre := items[..n - 1];
      AllocateFirstSeen(pre, start);
      AllocateKeys(pre, start);
      var tp := Allocate(pre, start);
      OldKeysKeepIndex(items, tp.entries);
      ReindexPayloads(items, tp.entries);
      ReindexOrder(items, tp.entries);
      var key := items[n - 1].0;
      if key !in EntryKeys(tp.entries) {
        var e := Entry(key, tp.next, items[n - 1].1);
        assert Allocate(items, start).entries == tp.entries + [e];
        assert KeysOf(pre) == KeysOf(items)[..n - 1];
        IndexOfPrefix(KeysOf(items), n - 1, key);
        AppendPayload(items, tp.entries, e);
        AppendOrder(items, tp.entries, e);
      }
    }
  }

  /** Every key of `es` first occurs among all but the last item, at the
      same position whether or not the last item is counted. */
  ghost predicate SameFirstIndex<P>(items: seq<(string, P)>, es: seq<Entry<P>>)
    requires |items| > 0
  {
    var pre := items[..|items| - 1];
    forall j :: 0 <= j < |es| ==>
      IndexOf(KeysOf(pre), es[j].key).Some? &&
      IndexOf(KeysOf(items), es[j].key) == IndexOf(KeysOf(pre), es[j].key)
  }

  /** Keys seen before the last item keep their first occurrence. */
  lemma OldKeysKeepIndex<P>(items: seq<(string, P)>, es: seq<Entry<P>>)
    requires |items| > 0
    requires forall j :: 0 <= j < |es| ==> es[j].key in KeysOf(items[..|items| - 1])
    ensures SameFirstIndex(items, es)
  {
    var n := |items|;
    var pre := items[..n - 1];
    var ks, kp := KeysOf(items), KeysOf(pre);
    assert kp == ks[..n - 1];
    forall j | 0 <= j < |es|
      ensures IndexOf(ks, es[j].key) == IndexOf(kp, es[j].key)
    {
      IndexOfPrefix(ks, n - 1, es[j].key);
    }
  }

  lemma ReindexPayloads<P>(items: seq<(string, P)>, es: seq<Entry<P>>)
    requires |items| > 0
    requires SameFirstIndex(items, es)
    requires FirstPayloads(items[..|items| - 1], es)
    ensures FirstPayloads(items, es)
  {
    var pre := items[..|items| - 1];
    forall j | 0 <= j < |es|
      ensures var f := IndexOf(KeysOf(items), es[j].key);
        f.Some? && es[j].payload == items[f.value].1
    {
      var f := IndexOf(KeysOf(pre), es[j].key);
      assert items[f.value] == pre[f.value];
    }
  }

  lemma ReindexOrder<P>(items: seq<(string, P)>, es: seq<Entry<P>>)
    requires |items| > 0
    requires SameFirstIndex(items, es)
    requires FirstSeenOrder(items[..|items| - 1], es)
    ensures FirstSeenOrder(items, es)
  {
  }

  lemma AppendPayload<P>(items: seq<(string, P)>, es: seq<Entry<P>>, e: Entry<P>)
    requires |items| > 0
    requires FirstPayloads(items, es)
    requires IndexOf(KeysOf(items), e.key) == Some(|items| - 1)
    requires e.payload == items[|items| - 1].1
    ensures FirstPayloads(items, es + [e])
  {
    var es' := es + [e];
    assert forall j :: 0 <= j < |es| ==> es'[j] == es[j];
  }

  lemma AppendOrder<P>(items: seq<(string, P)>, es: seq<Entry<P>>, e: Entry<P>)
    requires |items| > 0
    requires SameFirstIndex(items, es)
    requires FirstSeenOrder(items, es)
    requires IndexOf(KeysOf(items), e.key) == Some(|items| - 1)
    ensures FirstSeenOrder(items, es + [e])
  {
    var es' := es + [e];
    var pre := items[..|items| - 1];
    forall j | 0 <= j < |es|
      ensures IndexOf(KeysOf(items), es[j].key).value < |items| - 1
    {
      assert |KeysOf(pre)| == |items| - 1;
    }
    assert forall j :: 0 <= j < |es| ==> es'[j] == es[j];
  }

  /** Looking a key up in a longer sequence finds the same first occurrence
      when the key occurs in the prefix, and the first position after the
      prefix otherwise. */
  lemma IndexOfPrefix(ks: seq<string>, n: nat, k: string)
    requires n < |ks|
    ensures k in ks[..n] ==> IndexOf(ks, k) == IndexOf(ks[..n], k)
    ensures k !in ks[..n] && ks[n] == k ==> IndexOf(ks, k) == Some(n)
  {
    var r, rp := IndexOf(ks, k), IndexOf(ks[..n], k);
    if k in ks[..n] {
      assert rp.Some?;
      assert ks[rp.value] == k;
      assert r.Some?;
      assert forall m :: 0 <= m < rp.value ==> ks[m] == ks[..n][m];
    } else if ks[n] == k {
      assert forall m :: 0 <= m < n ==> ks[m] == ks[..n][m];
      assert r.Some?;
    }
  }

  /** In a dictionary without repeated keys, the key at position `j` is
      found at position `j`. */
  lemma IndexOfDistinct<P>(es: seq<Entry<P>>, j: nat)
    requires DistinctKeys(es)
    requires j < |es|
    ensures IndexOf(EntryKeys(es), es[j].key) == Some(j)
  {
    var ks := EntryKeys(es);
    assert ks[j] == es[j].key;
  }

  /** In a dictionary without repeated keys, looking up the key at
      position `j` gives the id stored at position `j`. */
  lemma IdAtPosition<P>(t: Table<P>, j: nat)
    requires DistinctKeys(t.entries)
    requires j < |t.entries|
    ensures IdOf(t, t.entries[j].key) == Some(t.entries[j].id)
  {
    IndexOfDistinct(t.entries, j);
  }

  /** Every item's key has an id, ids run from `start` below the final
      counter, and two items get the same id exactly when their keys are
      equal: each distinct key receives exactly one id, and a repeated key
      keeps the id it was given first. */
  lemma AllocateIds<P>(items: seq<(string, P)>, start: int)
    ensures var t := Allocate(items, start);
      forall i :: 0 <= i < |items| ==>
        IdOf(t, items[i].0).Some? && start <= IdOf(t, items[i].0).value < t.next
    ensures var t := Allocate(items, start);
      forall i, j :: 0 <= i < |items| && 0 <= j < |items| ==>
        (IdOf(t, items[i].0) == IdOf(t, items[j].0) <==> items[i].0 == items[j].0)
  {
    var t := Allocate(items, start);
    AllocateKeys(items, start);
    forall i | 0 <= i < |items|
      ensures IdOf(t, items[i].0).Some? && IdOf(t, items[i].0).value == start + IndexOf(EntryKeys(t.entries), items[i].0).value
    {
      assert items[i].0 in EntryKeys(t.entries);
    }
  }

  /** The id given to each key is the starting id plus the number of
      distinct keys seen before it: the ids are `start, start + 1, …` in
      first-seen order with no gaps. */
  lemma AllocateIdsInOrder<P>(items: seq<(string, P)>, start: int)
    ensures var t := Allocate(items, start);
      forall j :: 0 <= j < |t.entries| ==> IdOf(t, t.entries[j].key) == Some(start + j)
  {
    var t := Allocate(items, start);
    AllocateKeys(items, start);
    forall j | 0 <= j < |t.entries|
      ensures IdOf(t, t.entries[j].key) == Some(start + j)
    {
      IdAtPosition(t, j);
    }
  }

  /** The first item's key is the first entry and gets the starting id. */
  lemma AllocateFirstItem<P>(items: seq<(string, P)>, start: int)
    requires |items| > 0
    ensures var t := Allocate(items, start);
      |t.entries| > 0 && t.entries[0].key == items[0].0 && IdOf(t, items[0].0) == Some(start)
  {
    var t := Allocate(items, start);
    var ks := KeysOf(items);
    AllocateKeys(items, start);
    AllocateFirstSeen(items, start);
    assert items[0].0 in EntryKeys(t.entries);
    var p := IndexOf(EntryKeys(t.entries), items[0].0).value;
    assert IndexOf(ks, items[0].0) == Some(0);
    assert FirstSeenOrder(items, t.entries);
    assert p == 0;
    IndexOfDistinct(t.entries, 0);
  }

  /** Two allocations over the same keys give every key the same id. */
  lemma SameKeysSameIds<P, Q>(a: seq<(string, P)>, b: seq<(string, Q)>, start: int, key: string)
    requires KeysOf(a) == KeysOf(b)
    ensures IdOf(Allocate(a, start), key) == IdOf(Allocate(b, start), key)
  {
    var ta, tb := Allocate(a, start), Allocate(b, start);
    AllocateKeysOnly(a, b, start);
    var r := IndexOf(EntryKeys(ta.entries), key);
    assert r == IndexOf(EntryKeys(tb.entries), key);
    if r.Some? {
      assert |ta.entries| == |tb.entries|;
      assert ta.entries[r.value].id == start + r.value == tb.entries[r.value].id;
    }
  }

  /** One more item adds its key at the end exactly when it is new. */
  lemma AllocateKeysStep<P>(items: seq<(string, P)>, x: (string, P), start: int)
    ensures var before := EntryKeys(Allocate(items, start).entries);
      EntryKeys(Allocate(items + [x], start).entries) ==
        if x.0 in before then before else before + [x.0]
  {
    var all := items + [x];
    assert all[..|all| - 1] == items;
    var t := Allocate(items, start);
    var e := Entry(x.0, t.next, x.1);
    assert EntryKeys(t.entries + [e]) == EntryKeys(t.entries) + [x.0];
  }

  lemma KeysOfOne<P>(a: (string, P), start: int)
    ensures EntryKeys(Allocate([a], start).entries) == [a.0]
  {
    var none: seq<(string, P)> := [];
    AllocateKeysStep(none, a, start);
    assert none + [a] == [a];
  }

  lemma KeysOfTwo<P>(a: (string, P), b: (string, P), start: int)
    ensures a.0 == b.0 ==> EntryKeys(Allocate([a, b], start).entries) == [a.0]
    ensures a.0 != b.0 ==> EntryKeys(Allocate([a, b], start).entries) == [a.0, b.0]
  {
    KeysOfOne(a, start);
    AllocateKeysStep([a], b, start);
    assert [a] + [b] == [a, b];
  }

  lemma KeysOfThree<P>(a: (string, P), b: (string, P), c: (string, P), start: int)
    requires c.0 != a.0 && c.0 != b.0
    ensures a.0 == b.0 ==> EntryKeys(Allocate([a, b, c], start).entries) == [a.0, c.0]
    ensures a.0 != b.0 ==> EntryKeys(Allocate([a, b, c], start).entries) == [a.0, b.0, c.0]
  {
    KeysOfTwo(a, b, start);
    AllocateKeysStep([a, b], c, start);
    assert [a, b] + [c] == [a, b, c];
  }
}
