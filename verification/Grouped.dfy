/**
 Folding contributions into a table with one entry per key, as the detectors do with their
 correlation and finding maps: what such a table reports, and the log of what went into it.
 */
module Grouped {

  ghost predicate Distinct<T(!new)>(s: seq<T>) {
    forall i, j :: 0 <= i < j < |s| ==> s[i] != s[j]
  }

  ghost function OfKey<K, X>(xs: set<X>, key: X -> K, k: K): set<X> {
    set x | x in xs && key(x) == k
  }

  /** Exactly one entry per key that occurs, summarising the contributions of that key. */
  ghost predicate Tabulates<K(!new), C, X>(table: map<K, C>, xs: set<X>, key: X -> K, summarises: (C, set<X>) -> bool) {
    && (forall k :: k in table <==> OfKey(xs, key, k) != {})
    && (forall k :: k in table ==> summarises(table[k], OfKey(xs, key, k)))
  }

  lemma OfKeyAdd<K, X>(xs: set<X>, key: X -> K, x: X, k: K)
    ensures OfKey(xs + {x}, key, k) == if k == key(x) then OfKey(xs, key, k) + {x} else OfKey(xs, key, k)
  {
  }

  /** Replacing the entry of one contribution's key by one that summarises it too. */
  lemma Update<K(!new), C, X>(table: map<K, C>, xs: set<X>, key: X -> K, summarises: (C, set<X>) -> bool, x: X, c: C)
    requires Tabulates(table, xs, key, summarises) && summarises(c, OfKey(xs, key, key(x)) + {x})
    ensures Tabulates(table[key(x) := c], xs + {x}, key, summarises)
  {
    forall k
      ensures k in table[key(x) := c] <==> OfKey(xs + {x}, key, k) != {}
      ensures k in table[key(x) := c] ==> summarises(table[key(x) := c][k], OfKey(xs + {x}, key, k))
    {
      OfKeyAdd(xs, key, x, k);
    }
  }

  /** Contributions in the order they were recorded, with repetitions, latest last. */
  datatype Log<X> = Nothing | Then(before: Log<X>, x: X)

  function Seen<X>(log: Log<X>): set<X> {
    match log
    case Nothing => {}
    case Then(before, x) => Seen(before) + {x}
  }
}
