/** Insertion-ordered dictionaries, as Python's `dict` behaves: assigning to a
    key that is already present replaces its value where it stands, assigning
    to a new key appends it at the end, and iteration follows insertion order.
    A dictionary is represented by the sequence of its (key, value) entries. */
module OrderedMap {
  import opened Wrappers

  type Entries<V> = seq<(string, V)>

  /** The keys of `m`, in iteration order. */
  function Keys<V>(m: Entries<V>): (ks: seq<string>)
    ensures |ks| == |m|
    ensures forall i :: 0 <= i < |m| ==> ks[i] == m[i].0
  {
    seq(|m|, i requires 0 <= i < |m| => m[i].0)
  }

  function KeySet<V>(m: Entries<V>): (ks: set<string>) {
    set i | 0 <= i < |m| :: m[i].0
  }

  /** Every key occurs at most once: the invariant of a dictionary. */
  predicate NoDupKeys<V>(m: Entries<V>) {
    forall i, j :: 0 <= i < j < |m| ==> m[i].0 != m[j].0
  }

  /** Position of the first entry with key `k`, if any. */
  function IndexOf<V>(m: Entries<V>, k: string): (r: Option<nat>)
    ensures r.Some? ==> r.value < |m| && m[r.value].0 == k
    ensures r.Some? ==> forall i :: 0 <= i < r.value ==> m[i].0 != k
    ensures r.None? <==> k !in KeySet(m)
  {
    if |m| == 0 then None
    else if m[0].0 == k then Some(0)
    else
      match IndexOf(m[1..], k)
      case None => None
      case Some(i) => Some(i + 1)
  }

  /** Lookup, as `d.get(k)`. */
  function Get<V>(m: Entries<V>, k: string): (r: Option<V>)
    ensures r.None? <==> k !in KeySet(m)
    ensures r.Some? ==> exists i :: 0 <= i < |m| && m[i] == (k, r.value)
  {
    match IndexOf(m, k)
    case None => None
    case Some(i) => Some(m[i].1)
  }

  /** Assignment, as `d[k] = v`. */
  function Put<V>(m: Entries<V>, k: string, v: V): (r: Entries<V>)
    ensures NoDupKeys(m) ==> NoDupKeys(r)
    ensures k in KeySet(m) ==> Keys(r) == Keys(m)
    ensures k !in KeySet(m) ==> r == m + [(k, v)]
    ensures KeySet(r) == KeySet(m) + {k}
    ensures Get(r, k) == Some(v)
    ensures forall k' :: k' != k ==> Get(r, k') == Get(m, k')
  {
    match IndexOf(m, k)
    case None =>
      KeySetSnoc(m, (k, v));
      forall k' | k' != k ensures Get(m + [(k, v)], k') == Get(m, k') {
        IndexOfSnoc(m, (k, v), k');
      }
      m + [(k, v)]
    case Some(i) =>
      var r := m[i := (k, v)];
      assert Keys(r) == Keys(m);
      assert KeySet(r) == KeySet(m) by {
        forall x | x in KeySet(m) ensures x in KeySet(r) {
          var j :| 0 <= j < |m| && m[j].0 == x;
          assert r[j].0 == x;
        }
      }
      assert IndexOf(r, k) == Some(i) by { IndexOfSameKeys(m, r, k); }
      forall k' | k' != k ensures Get(r, k') == Get(m, k') {
        IndexOfSameKeys(m, r, k');
      }
      r
  }

  lemma IndexOfSameKeys<V>(m: Entries<V>, r: Entries<V>, k: string)
    requires Keys(m) == Keys(r)
    ensures IndexOf(m, k) == IndexOf(r, k)
  {
    if |m| > 0 {
      assert Keys(m[1..]) == Keys(r[1..]) by {
        forall i | 0 <= i < |m| - 1 ensures Keys(m[1..])[i] == Keys(r[1..])[i] {
          assert Keys(m)[i + 1] == Keys(r)[i + 1];
        }
      }
      IndexOfSameKeys(m[1..], r[1..], k);
    }
  }

  lemma KeySetSnoc<V>(m: Entries<V>, e: (string, V))
    ensures KeySet(m + [e]) == KeySet(m) + {e.0}
  {
    var r := m + [e];
    forall x | x in KeySet(m) ensures x in KeySet(r) {
      var j :| 0 <= j < |m| && m[j].0 == x;
      assert r[j].0 == x;
    }
    assert r[|m|].0 == e.0;
  }

  lemma {:induction false} IndexOfSnoc<V>(m: Entries<V>, e: (string, V), k: string)
    requires k != e.0
    ensures IndexOf(m + [e], k) == IndexOf(m, k)
    decreases |m|
  {
    if |m| > 0 {
      assert (m + [e])[1..] == m[1..] + [e];
      IndexOfSnoc(m[1..], e, k);
    }
  }

  /** Successive assignments `d[k] = v` for every entry of `es`, in order. */
  function PutAll<V>(m: Entries<V>, es: Entries<V>): (r: Entries<V>)
    decreases |es|
  {
    if |es| == 0 then m
    else
      var last := es[|es| - 1];
      Put(PutAll(m, es[..|es| - 1]), last.0, last.1)
  }

  /** The value of the last entry of `es` whose key is `k`: the write that wins. */
  function LastValue<V>(es: Entries<V>, k: string): (r: Option<V>)
    ensures r.None? <==> k !in KeySet(es)
    decreases |es|
  {
    if |es| == 0 then None
    else if es[|es| - 1].0 == k then Some(es[|es| - 1].1)
    else
      var r := LastValue(es[..|es| - 1], k);
      assert KeySet(es) == KeySet(es[..|es| - 1]) + {es[|es| - 1].0} by {
        assert es == es[..|es| - 1] + [es[|es| - 1]];
      }
      r
  }

  /** The elements of `s` that are not in `seen`, each once, in the order of
      their first occurrence in `s`. */
  function NewKeys(s: seq<string>, seen: set<string>): (ks: seq<string>)
    decreases |s|
  {
    if |s| == 0 then []
    else
      var front := s[..|s| - 1];
      var x := s[|s| - 1];
      if x in seen || x in front then NewKeys(front, seen) else NewKeys(front, seen) + [x]
  }

  lemma KeySetOfPrefix<V>(es: Entries<V>)
    requires |es| > 0
    ensures KeySet(es) == KeySet(es[..|es| - 1]) + {es[|es| - 1].0}
    ensures Keys(es[..|es| - 1]) == Keys(es)[..|es| - 1]
  {
    assert es == es[..|es| - 1] + [es[|es| - 1]];
  }

  /** Lookup after a series of assignments: the last write to `k` wins, and a
      key never written keeps its earlier value. */
  lemma {:induction false} GetPutAll<V>(m: Entries<V>, es: Entries<V>, k: string)
    ensures Get(PutAll(m, es), k) == (if k in KeySet(es) then LastValue(es, k) else Get(m, k))
    decreases |es|
  {
    if |es| > 0 {
      KeySetOfPrefix(es);
      GetPutAll(m, es[..|es| - 1], k);
    }
  }

  lemma {:induction false} KeySetPutAll<V>(m: Entries<V>, es: Entries<V>)
    ensures KeySet(PutAll(m, es)) == KeySet(m) + KeySet(es)
    decreases |es|
  {
    if |es| > 0 {
      KeySetOfPrefix(es);
      KeySetPutAll(m, es[..|es| - 1]);
    }
  }

  lemma KeySetIsKeys<V>(m: Entries<V>, x: string)
    ensures x in KeySet(m) <==> x in Keys(m)
  {
    if x in KeySet(m) {
      var j :| 0 <= j < |m| && m[j].0 == x;
      assert Keys(m)[j] == x;
    }
  }

  /** Order after a series of assignments: the keys already present keep their
      positions, and the new keys follow in the order they were first written. */
  lemma {:induction false} KeysPutAll<V>(m: Entries<V>, es: Entries<V>)
    ensures Keys(PutAll(m, es)) == Keys(m) + NewKeys(Keys(es), KeySet(m))
    decreases |es|
  {
    if |es| > 0 {
      var front, last := es[..|es| - 1], es[|es| - 1];
      var x := last.0;
      KeysPutAll(m, front);
      var p := PutAll(m, front);
      assert PutAll(m, es) == Put(p, x, last.1);
      assert Keys(es)[..|es| - 1] == Keys(front);
      assert Keys(es)[|es| - 1] == x;
      assert x in KeySet(p) <==> x in KeySet(m) || x in Keys(front) by {
        KeySetPutAll(m, front);
        KeySetIsKeys(front, x);
      }
      if x !in KeySet(p) {
        KeysSnoc(p, (x, last.1));
      }
    }
  }

  lemma KeysSnoc<V>(m: Entries<V>, e: (string, V))
    ensures Keys(m + [e]) == Keys(m) + [e.0]
  {
  }

  /** Assigning every entry of a key-unique sequence to an empty dictionary
      reproduces the sequence. */
  lemma {:induction false} PutAllFresh<V>(es: Entries<V>)
    requires NoDupKeys(es)
    ensures PutAll([], es) == es
    decreases |es|
  {
    if |es| > 0 {
      var front, last := es[..|es| - 1], es[|es| - 1];
      NoDupSplit(es);
      PutAllFresh(front);
      assert PutAll([], es) == Put(front, last.0, last.1);
      SplitLast(es);
    }
  }

  lemma SplitLast<V>(es: Entries<V>)
    requires |es| > 0
    ensures es == es[..|es| - 1] + [(es[|es| - 1].0, es[|es| - 1].1)]
  {
  }

  /** Without its last entry a key-unique sequence stays key-unique and no
      longer holds the last key. */
  lemma NoDupSplit<V>(es: Entries<V>)
    requires NoDupKeys(es) && |es| > 0
    ensures NoDupKeys(es[..|es| - 1])
    ensures es[|es| - 1].0 !in KeySet(es[..|es| - 1])
  {
    var front := es[..|es| - 1];
    forall x | x in KeySet(front) ensures x != es[|es| - 1].0 {
      var j :| 0 <= j < |front| && front[j].0 == x;
      assert front[j] == es[j];
    }
  }

  /** Assignments keep the dictionary invariant. */
  lemma {:induction false} PutAllNoDup<V>(m: Entries<V>, es: Entries<V>)
    requires NoDupKeys(m)
    ensures NoDupKeys(PutAll(m, es))
    decreases |es|
  {
    if |es| > 0 {
      PutAllNoDup(m, es[..|es| - 1]);
    }
  }
}
