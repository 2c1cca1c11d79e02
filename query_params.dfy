/** The query-string half of URL canonicalisation: the tracking-parameter
    filter, the stable sort by key and the reserialisation of what is left. */
module QueryParams {
  import opened Text

  /** One `key=value` entry of a URL's query, as URLSearchParams yields it. */
  datatype QueryPair = QueryPair(key: string, value: string)

  /** The seven tracking keys the canonicaliser drops. */
  const TrackingParams: seq<string> :=
    ["utm_source", "utm_medium", "utm_campaign", "utm_term", "utm_content", "fbclid", "gclid"]

  /** A key is a tracking parameter when its lower-cased form is one of the seven. */
  predicate IsTrackingParam(key: string) {
    ToLower(key) in TrackingParams
  }

  /** The match ignores case. */
  lemma TrackingParamIgnoresCase(key: string)
    ensures IsTrackingParam(key) <==> IsTrackingParam(ToLower(key))
  {
    ToLowerIdempotent(key);
  }

  // ---------------------------------------------------------------------
  // Key order

  /** Strict lexicographic order on keys, comparing code points. */
  predicate KeyLess(a: string, b: string)
    decreases |a|
  {
    if a == [] then b != []
    else if b == [] then false
    else if a[0] != b[0] then a[0] < b[0]
    else KeyLess(a[1..], b[1..])
  }

  lemma {:induction false} KeyLessIrreflexive(a: string)
    ensures !KeyLess(a, a)
  {
    if a != [] {
      KeyLessIrreflexive(a[1..]);
    }
  }

  lemma {:induction false} KeyLessTransitive(a: string, b: string, c: string)
    requires KeyLess(a, b) && KeyLess(b, c)
    ensures KeyLess(a, c)
    decreases |a|
  {
    if a != [] && b != [] && c != [] && a[0] == b[0] && b[0] == c[0] {
      KeyLessTransitive(a[1..], b[1..], c[1..]);
    }
  }

  lemma {:induction false} KeyLessTotal(a: string, b: string)
    requires a != b
    ensures KeyLess(a, b) || KeyLess(b, a)
    decreases |a|
  {
    if a != [] && b != [] && a[0] == b[0] {
      assert a == [a[0]] + a[1..] && b == [b[0]] + b[1..];
      KeyLessTotal(a[1..], b[1..]);
    }
  }

  /** Every later pair's key is at least every earlier pair's key. */
  ghost predicate SortedByKey(ps: seq<QueryPair>) {
    forall i, j :: 0 <= i < j < |ps| ==> !KeyLess(ps[j].key, ps[i].key)
  }

  // ---------------------------------------------------------------------
  // The pairs with one key, in order: what a stable sort must preserve

  function WithKey(ps: seq<QueryPair>, k: string): seq<QueryPair> {
    if ps == [] then [] else (if ps[0].key == k then [ps[0]] else []) + WithKey(ps[1..], k)
  }

  lemma {:induction false} WithKeyAppend(a: seq<QueryPair>, b: seq<QueryPair>, k: string)
    ensures WithKey(a + b, k) == WithKey(a, k) + WithKey(b, k)
  {
    if a == [] {
      assert a + b == b;
    } else {
      var head := if a[0].key == k then [a[0]] else [];
      assert (a + b)[0] == a[0];
      assert (a + b)[1..] == a[1..] + b;
      WithKeyAppend(a[1..], b, k);
      assert WithKey(a + b, k) == head + (WithKey(a[1..], k) + WithKey(b, k));
      assert head + (WithKey(a[1..], k) + WithKey(b, k)) == (head + WithKey(a[1..], k)) + WithKey(b, k);
    }
  }

  /** A key that occurs among the pairs, with the index of one occurrence. */
  lemma {:induction false} WithKeyWitness(ps: seq<QueryPair>, k: string) returns (j: nat)
    requires WithKey(ps, k) != []
    ensures j < |ps| && ps[j].key == k
  {
    if ps[0].key == k {
      j := 0;
    } else {
      var j' := WithKeyWitness(ps[1..], k);
      j := j' + 1;
    }
  }

  /** No pair has key `k` when every key is strictly above `k`. */
  lemma {:induction false} WithKeyAbsent(ps: seq<QueryPair>, k: string)
    requires forall i :: 0 <= i < |ps| ==> KeyLess(k, ps[i].key)
    ensures WithKey(ps, k) == []
  {
    if ps != [] {
      KeyLessIrreflexive(k);
      WithKeyAbsent(ps[1..], k);
    }
  }

  // ---------------------------------------------------------------------
  // Filtering

  /** `filter(([key]) => !isTrackingParam(key))` */
  function DropTracking(ps: seq<QueryPair>): seq<QueryPair> {
    if ps == [] then []
    else (if IsTrackingParam(ps[0].key) then [] else [ps[0]]) + DropTracking(ps[1..])
  }

  lemma {:induction false} DropTrackingAppend(a: seq<QueryPair>, b: seq<QueryPair>)
    ensures DropTracking(a + b) == DropTracking(a) + DropTracking(b)
  {
    if a == [] {
      assert a + b == b;
    } else {
      assert (a + b)[1..] == a[1..] + b;
      DropTrackingAppend(a[1..], b);
    }
  }

  /** Only non-tracking input pairs survive the filter. */
  lemma {:induction false} DropTrackingMembers(ps: seq<QueryPair>)
    ensures forall p :: p in DropTracking(ps) ==> p in ps && !IsTrackingParam(p.key)
  {
    if ps != [] {
      DropTrackingMembers(ps[1..]);
    }
  }

  /** The filter drops everything exactly when every pair is a tracking pair. */
  lemma {:induction false} DropTrackingEmpty(ps: seq<QueryPair>)
    ensures DropTracking(ps) == [] <==> forall p :: p in ps ==> IsTrackingParam(p.key)
  {
    if ps != [] {
      DropTrackingEmpty(ps[1..]);
      assert forall p :: p in ps ==> p == ps[0] || p in ps[1..];
    }
  }

  /** The filter is the identity on pairs none of which is a tracking pair. */
  lemma {:induction false} DropTrackingKeepsClean(ps: seq<QueryPair>)
    requires forall p :: p in ps ==> !IsTrackingParam(p.key)
    ensures DropTracking(ps) == ps
  {
    if ps != [] {
      DropTrackingKeepsClean(ps[1..]);
      assert ps == [ps[0]] + ps[1..];
    }
  }

  /** Filtering removes every pair of a tracking key and keeps every other key's pairs in order. */
  lemma {:induction false} WithKeyDropTracking(ps: seq<QueryPair>, k: string)
    ensures WithKey(DropTracking(ps), k) == if IsTrackingParam(k) then [] else WithKey(ps, k)
  {
    if ps != [] {
      var head := if IsTrackingParam(ps[0].key) then [] else [ps[0]];
      WithKeyAppend(head, DropTracking(ps[1..]), k);
      WithKeyDropTracking(ps[1..], k);
    }
  }

  // ---------------------------------------------------------------------
  // The stable sort

  /** Inserts `p` after every pair whose key is not greater than its own. */
  function InsertByKey(ps: seq<QueryPair>, p: QueryPair): seq<QueryPair> {
    if ps == [] then [p]
    else if KeyLess(p.key, ps[0].key) then [p] + ps
    else [ps[0]] + InsertByKey(ps[1..], p)
  }

  /** `sort(([a], [b]) => compare(a, b))`: an insertion sort, stable like Array.prototype.sort. */
  function SortByKey(ps: seq<QueryPair>): seq<QueryPair> {
    if ps == [] then [] else InsertByKey(SortByKey(ps[..|ps| - 1]), ps[|ps| - 1])
  }

  lemma {:induction false} InsertByKeyPermutes(ps: seq<QueryPair>, p: QueryPair)
    ensures multiset(InsertByKey(ps, p)) == multiset(ps) + multiset{p}
  {
    if ps != [] && !KeyLess(p.key, ps[0].key) {
      InsertByKeyPermutes(ps[1..], p);
      assert ps == [ps[0]] + ps[1..];
    }
  }

  /** The sort is a permutation of its input. */
  lemma {:induction false} SortByKeyPermutes(ps: seq<QueryPair>)
    ensures multiset(SortByKey(ps)) == multiset(ps)
  {
    if ps != [] {
      var init, last := ps[..|ps| - 1], ps[|ps| - 1];
      SortByKeyPermutes(init);
      InsertByKeyPermutes(SortByKey(init), last);
      assert ps == init + [last];
      assert multiset(ps) == multiset(init) + multiset{last};
    }
  }

  lemma {:induction false} InsertKeepsSorted(ps: seq<QueryPair>, p: QueryPair)
    requires SortedByKey(ps)
    ensures SortedByKey(InsertByKey(ps, p))
  {
    if ps == [] {
    } else if KeyLess(p.key, ps[0].key) {
      forall j | 0 <= j < |ps|
        ensures !KeyLess(ps[j].key, p.key)
      {
        if KeyLess(ps[j].key, p.key) {
          KeyLessTransitive(ps[j].key, p.key, ps[0].key);
          KeyLessIrreflexive(ps[0].key);
        }
      }
    } else {
      var tail := InsertByKey(ps[1..], p);
      InsertKeepsSorted(ps[1..], p);
      InsertByKeyPermutes(ps[1..], p);
      forall x | x in tail
        ensures !KeyLess(x.key, ps[0].key)
      {
        assert x in multiset(tail);
        assert x == p || x in ps[1..];
      }
    }
  }

  lemma {:induction false} WithKeyInsert(ps: seq<QueryPair>, p: QueryPair, k: string)
    requires SortedByKey(ps)
    ensures WithKey(InsertByKey(ps, p), k) == WithKey(ps, k) + (if p.key == k then [p] else [])
  {
    if ps == [] {
    } else if KeyLess(p.key, ps[0].key) {
      WithKeyAppend([p], ps, k);
      if p.key == k {
        forall i | 0 <= i < |ps|
          ensures KeyLess(k, ps[i].key)
        {
          if i > 0 && !KeyLess(k, ps[i].key) {
            if ps[i].key != k {
              KeyLessTotal(k, ps[i].key);
              KeyLessTransitive(ps[i].key, k, ps[0].key);
            }
          }
        }
        WithKeyAbsent(ps, k);
      }
    } else {
      var tail := ps[1..];
      var extra := if p.key == k then [p] else [];
      assert SortedByKey(tail) by {
        forall i, j | 0 <= i < j < |tail|
          ensures !KeyLess(tail[j].key, tail[i].key)
        {
          assert tail[i] == ps[i + 1] && tail[j] == ps[j + 1];
        }
      }
      assert InsertByKey(ps, p) == [ps[0]] + InsertByKey(tail, p);
      WithKeyInsert(tail, p, k);
      WithKeyAppend([ps[0]], InsertByKey(tail, p), k);
      assert ps == [ps[0]] + tail;
      WithKeyAppend([ps[0]], tail, k);
      assert WithKey([ps[0]], k) + (WithKey(tail, k) + extra) == (WithKey([ps[0]], k) + WithKey(tail, k)) + extra;
    }
  }

  lemma {:induction false} SortByKeySorted(ps: seq<QueryPair>)
    ensures SortedByKey(SortByKey(ps))
  {
    if ps != [] {
      SortByKeySorted(ps[..|ps| - 1]);
      InsertKeepsSorted(SortByKey(ps[..|ps| - 1]), ps[|ps| - 1]);
    }
  }

  /** Stability: the pairs of each key come out in their input order. */
  lemma {:induction false} SortByKeyStable(ps: seq<QueryPair>, k: string)
    ensures WithKey(SortByKey(ps), k) == WithKey(ps, k)
  {
    if ps != [] {
      var init, last := ps[..|ps| - 1], ps[|ps| - 1];
      SortByKeySorted(init);
      SortByKeyStable(init, k);
      WithKeyInsert(SortByKey(init), last, k);
      assert ps == init + [last];
      WithKeyAppend(init, [last], k);
    }
  }

  /** Two sorted sequences that agree on the pairs of every key are equal:
      a stable sort's output depends only on those per-key sequences. */
  lemma {:induction false} SortedUnique(a: seq<QueryPair>, b: seq<QueryPair>)
    requires SortedByKey(a) && SortedByKey(b)
    requires forall k :: WithKey(a, k) == WithKey(b, k)
    ensures a == b
    decreases |a| + |b|
  {
    if a != [] {
      assert WithKey(a, a[0].key) != [];
    }
    if b != [] {
      assert WithKey(b, b[0].key) != [];
    }
    if a != [] && b != [] {
      var ka, kb := a[0].key, b[0].key;
      assert WithKey(b, ka) == WithKey(a, ka) != [];
      var j := WithKeyWitness(b, ka);
      assert !KeyLess(ka, kb) by {
        if j > 0 {
          assert !KeyLess(b[j].key, b[0].key);
        } else {
          KeyLessIrreflexive(ka);
        }
      }
      assert WithKey(a, kb) == WithKey(b, kb) != [];
      var i := WithKeyWitness(a, kb);
      assert !KeyLess(kb, ka) by {
        if i > 0 {
          assert !KeyLess(a[i].key, a[0].key);
        } else {
          KeyLessIrreflexive(kb);
        }
      }
      if ka != kb {
        KeyLessTotal(ka, kb);
      }
      assert a[0] == WithKey(a, ka)[0] == WithKey(b, ka)[0] == b[0];
      forall k
        ensures WithKey(a[1..], k) == WithKey(b[1..], k)
      {
        var h := if a[0].key == k then [a[0]] else [];
        assert WithKey(a, k) == h + WithKey(a[1..], k);
        assert WithKey(b, k) == h + WithKey(b[1..], k);
        assert WithKey(a[1..], k) == WithKey(a, k)[|h|..];
      }
      SortedUnique(a[1..], b[1..]);
      assert a == [a[0]] + a[1..] && b == [b[0]] + b[1..];
    }
  }

  // ---------------------------------------------------------------------
  // What the canonicaliser keeps of a query

  /** The non-tracking pairs, stably sorted by key. */
  function KeptParams(ps: seq<QueryPair>): seq<QueryPair> {
    SortByKey(DropTracking(ps))
  }

  /** The kept pairs are sorted, are a permutation of the non-tracking input
      pairs (so no tracking pair survives), and list each non-tracking key's
      pairs in input order. */
  lemma KeptParamsSpec(ps: seq<QueryPair>)
    ensures SortedByKey(KeptParams(ps))
    ensures multiset(KeptParams(ps)) == multiset(DropTracking(ps))
    ensures forall p :: p in KeptParams(ps) ==> p in ps && !IsTrackingParam(p.key)
    ensures forall k :: WithKey(KeptParams(ps), k) == if IsTrackingParam(k) then [] else WithKey(ps, k)
  {
    SortByKeySorted(DropTracking(ps));
    SortByKeyPermutes(DropTracking(ps));
    DropTrackingMembers(ps);
    assert forall p :: p in KeptParams(ps) ==> p in multiset(DropTracking(ps));
    forall k
      ensures WithKey(KeptParams(ps), k) == if IsTrackingParam(k) then [] else WithKey(ps, k)
    {
      SortByKeyStable(DropTracking(ps), k);
      WithKeyDropTracking(ps, k);
    }
  }

  /** Reordering pairs never changes the result, as long as each key's own pairs keep their order. */
  lemma KeptParamsIgnoresOrder(ps: seq<QueryPair>, qs: seq<QueryPair>)
    requires forall k :: WithKey(ps, k) == WithKey(qs, k)
    ensures KeptParams(ps) == KeptParams(qs)
  {
    KeptParamsSpec(ps);
    KeptParamsSpec(qs);
    SortedUnique(KeptParams(ps), KeptParams(qs));
  }

  /** Swapping two neighbouring pairs with different keys never changes the result. */
  lemma KeptParamsSwap(xs: seq<QueryPair>, p: QueryPair, q: QueryPair, ys: seq<QueryPair>)
    requires p.key != q.key
    ensures KeptParams(xs + [p, q] + ys) == KeptParams(xs + [q, p] + ys)
  {
    forall k
      ensures WithKey(xs + [p, q] + ys, k) == WithKey(xs + [q, p] + ys, k)
    {
      WithKeyAppend(xs + [p, q], ys, k);
      WithKeyAppend(xs, [p, q], k);
      WithKeyAppend(xs + [q, p], ys, k);
      WithKeyAppend(xs, [q, p], k);
      WithKeyAppend([p], [q], k);
      WithKeyAppend([q], [p], k);
    }
    KeptParamsIgnoresOrder(xs + [p, q] + ys, xs + [q, p] + ys);
  }

  /** Adding a tracking pair anywhere never changes the result. */
  lemma KeptParamsIgnoresTracking(xs: seq<QueryPair>, t: QueryPair, ys: seq<QueryPair>)
    requires IsTrackingParam(t.key)
    ensures KeptParams(xs + [t] + ys) == KeptParams(xs + ys)
  {
    var d := DropTracking(xs);
    calc {
      DropTracking(xs + [t] + ys);
      { DropTrackingAppend(xs + [t], ys); }
      DropTracking(xs + [t]) + DropTracking(ys);
      { DropTrackingAppend(xs, [t]); assert DropTracking([t]) == []; assert d + [] == d; }
      d + DropTracking(ys);
      { DropTrackingAppend(xs, ys); }
      DropTracking(xs + ys);
    }
  }

  /** Normalising an already normalised query changes nothing. */
  lemma KeptParamsIdempotent(ps: seq<QueryPair>)
    ensures KeptParams(KeptParams(ps)) == KeptParams(ps)
  {
    var r := KeptParams(ps);
    KeptParamsSpec(r);
    KeptParamsSpec(ps);
    SortedUnique(KeptParams(r), r);
  }

  // ---------------------------------------------------------------------
  // Reserialisation

  /** `key=value`; URLSearchParams' percent-encoding is not modelled. */
  function PairText(p: QueryPair): string {
    p.key + "=" + p.value
  }

  /** The pairs joined by `&`, in order. */
  function SerializePairs(ps: seq<QueryPair>): string {
    if ps == [] then ""
    else if |ps| == 1 then PairText(ps[0])
    else SerializePairs(ps[..|ps| - 1]) + "&" + PairText(ps[|ps| - 1])
  }

  /** The search component for a list of pairs: empty, or `?` and the serialised pairs. */
  function QueryString(ps: seq<QueryPair>): (r: string)
    ensures r == "" <==> ps == []
    ensures r != "" ==> r[0] == '?'
  {
    if ps == [] then "" else "?" + SerializePairs(ps)
  }

  /** `normalizeQueryParams`: filter, sort, then append each kept pair in turn. */
  method NormalizeQueryParams(params: seq<QueryPair>) returns (search: string)
    ensures search == QueryString(KeptParams(params))
    ensures search == "" <==> forall p :: p in params ==> IsTrackingParam(p.key)
    ensures search != "" ==> search[0] == '?'
  {
    var entries := KeptParams(params);
    DropTrackingEmpty(params);
    assert |entries| == |DropTracking(params)| by {
      SortByKeyPermutes(DropTracking(params));
      assert |multiset(entries)| == |multiset(DropTracking(params))|;
    }
    if |entries| == 0 {
      return "";
    }
    var normalized := "";
    for i := 0 to |entries|
      invariant normalized == SerializePairs(entries[..i])
    {
      if i > 0 {
        normalized := normalized + "&";
      }
      normalized := normalized + PairText(entries[i]);
      assert entries[..i + 1][..i] == entries[..i];
    }
    assert entries[..|entries|] == entries;
    search := "?" + normalized;
  }
}
