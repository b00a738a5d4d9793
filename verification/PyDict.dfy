/** A Python dict: insertion-ordered, assignment to a present key keeps its position. */
module PyDict {
  import opened Results

  datatype Entry<+V> = Entry(key: string, value: V)

  predicate Fresh<V>(entries: seq<Entry<V>>, key: string) {
    forall i :: 0 <= i < |entries| ==> entries[i].key != key
  }

  predicate DistinctKeys<V>(entries: seq<Entry<V>>) {
    forall i, j :: 0 <= i < j < |entries| ==> entries[i].key != entries[j].key
  }

  function Get<V>(entries: seq<Entry<V>>, key: string): (r: Option<V>)
    ensures r.Some? ==> Entry(key, r.value) in entries
    ensures r.None? <==> Fresh(entries, key)
  {
    if entries == [] then None
    else if entries[0].key == key then Some(entries[0].value)
    else Get(entries[1..], key)
  }

  function Put<V>(entries: seq<Entry<V>>, key: string, value: V): (r: seq<Entry<V>>)
  {
    if entries == [] then [Entry(key, value)]
    else if entries[0].key == key then [Entry(key, value)] + entries[1..]
    else [entries[0]] + Put(entries[1..], key, value)
  }

  /** Reading back: the assigned key holds the new value and every other key is untouched. */
  lemma {:induction false} GetPut<V>(entries: seq<Entry<V>>, key: string, value: V)
    ensures Get(Put(entries, key, value), key) == Some(value)
    ensures forall k :: k != key ==> Get(Put(entries, key, value), k) == Get(entries, k)
  {
    if entries != [] && entries[0].key != key {
      GetPut(entries[1..], key, value);
      var rest := Put(entries[1..], key, value);
      assert Put(entries, key, value) == [entries[0]] + rest;
      assert ([entries[0]] + rest)[1..] == rest;
    }
  }

  /** A new key goes to the end. */
  lemma {:induction false} PutFresh<V>(entries: seq<Entry<V>>, key: string, value: V)
    requires Fresh(entries, key)
    ensures Put(entries, key, value) == entries + [Entry(key, value)]
  {
    if entries != [] {
      assert entries == [entries[0]] + entries[1..];
      PutFresh(entries[1..], key, value);
    }
  }

  /** A later assignment to the same key replaces the earlier one in place. */
  lemma {:induction false} PutPut<V>(entries: seq<Entry<V>>, key: string, a: V, b: V)
    ensures Put(Put(entries, key, a), key, b) == Put(entries, key, b)
  {
    if entries != [] && entries[0].key != key {
      PutPut(entries[1..], key, a, b);
      var rest := Put(entries[1..], key, a);
      assert Put(entries, key, a) == [entries[0]] + rest;
      assert ([entries[0]] + rest)[1..] == rest;
    }
  }

  /** Writing back the value already there changes nothing. */
  lemma {:induction false} PutSame<V>(entries: seq<Entry<V>>, key: string, value: V)
    requires Get(entries, key) == Some(value)
    ensures Put(entries, key, value) == entries
  {
    if entries[0].key == key {
      assert entries == [Entry(key, value)] + entries[1..];
    } else {
      PutSame(entries[1..], key, value);
      assert entries == [entries[0]] + entries[1..];
    }
  }

  // ----- tuple(dict.fromkeys(xs)) -----

  /** The first occurrences, in order. */
  function Dedupe(xs: seq<string>): (r: seq<string>)
    ensures forall x :: x in r <==> x in xs
    ensures forall i, j :: 0 <= i < j < |r| ==> r[i] != r[j]
    decreases |xs|
  {
    if xs == [] then []
    else
      var init, last := xs[..|xs| - 1], xs[|xs| - 1];
      var r := Dedupe(init);
      assert xs == init + [last];
      if last in r then r else r + [last]
  }

  /** Removing repetitions piece by piece or all at once makes no difference. */
  lemma {:induction false} DedupeAbsorbs(a: seq<string>, b: seq<string>)
    ensures Dedupe(Dedupe(a) + b) == Dedupe(a + b)
    decreases |b|
  {
    if b == [] {
      assert Dedupe(a) + b == Dedupe(a) && a + b == a;
      DedupeOfDistinct(Dedupe(a));
    } else {
      var init, last := b[..|b| - 1], b[|b| - 1];
      assert (Dedupe(a) + b)[..|Dedupe(a) + b| - 1] == Dedupe(a) + init;
      assert (a + b)[..|a + b| - 1] == a + init;
      DedupeAbsorbs(a, init);
    }
  }

  lemma {:induction false} DedupeOfDistinct(xs: seq<string>)
    requires forall i, j :: 0 <= i < j < |xs| ==> xs[i] != xs[j]
    ensures Dedupe(xs) == xs
    decreases |xs|
  {
    if xs == [] {
    } else {
      DedupeOfDistinct(xs[..|xs| - 1]);
    }
  }
}
