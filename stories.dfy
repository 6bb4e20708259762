/**
 * The search response as the component keeps it in `result`, and the
 * list operation behind the Dismiss button: `hits.filter(item =>
 * item.objectID !== id)`.
 */
module Stories {

  /** One search hit. Only `objectID` is looked at by the component; the
      other fields are what the table row displays. */
  datatype Hit = Hit(
    objectID: string,
    title: string,
    url: string,
    author: string,
    numComments: int,
    points: int)

  /** The response body stored in `result`: its `hits` list, and every other
      property of the body, kept opaque as a property-name to text map. */
  datatype SearchResult = SearchResult(hits: seq<Hit>, rest: map<string, string>)

  /** The hits whose `objectID` differs from `id`, in their original order. */
  function Without(hits: seq<Hit>, id: string): (r: seq<Hit>)
    ensures |r| <= |hits|
    ensures forall h :: h in r ==> h in hits && h.objectID != id
  {
    if hits == [] then []
    else if hits[0].objectID != id then [hits[0]] + Without(hits[1..], id)
    else Without(hits[1..], id)
  }

  /** `a` can be obtained from `b` by deleting elements (order kept). Matching
      each element of `a` against the earliest possible element of `b` loses
      no solutions, so this greedy definition is the usual notion. */
  predicate Subsequence(a: seq<Hit>, b: seq<Hit>)
    decreases |b|
  {
    if a == [] then true
    else if b == [] then false
    else if a[0] == b[0] then Subsequence(a[1..], b[1..])
    else Subsequence(a, b[1..])
  }

  /** Filtering keeps every hit with another id as often as it occurred and
      drops every hit with this id. */
  lemma {:induction false} WithoutCounts(hits: seq<Hit>, id: string)
    ensures forall h :: multiset(Without(hits, id))[h] ==
                        if h.objectID == id then 0 else multiset(hits)[h]
  {
    if hits != [] {
      WithoutCounts(hits[1..], id);
      assert hits == [hits[0]] + hits[1..];
      assert multiset(hits) == multiset{hits[0]} + multiset(hits[1..]);
      if hits[0].objectID != id {
        assert multiset(Without(hits, id)) == multiset{hits[0]} + multiset(Without(hits[1..], id));
      }
    }
  }

  /** Filtering keeps the relative order of the surviving hits. */
  lemma {:induction false} WithoutIsSubsequence(hits: seq<Hit>, id: string)
    ensures Subsequence(Without(hits, id), hits)
  {
    if hits != [] {
      WithoutIsSubsequence(hits[1..], id);
      var r := Without(hits, id);
      if hits[0].objectID != id {
        assert r[0] == hits[0] && r[1..] == Without(hits[1..], id);
      } else {
        SkipFront(r, hits);
      }
    }
  }

  /** A subsequence of the tail is a subsequence of the whole. */
  lemma {:induction false} SkipFront(a: seq<Hit>, b: seq<Hit>)
    requires b != [] && Subsequence(a, b[1..])
    ensures Subsequence(a, b)
    decreases |b|, |a|
  {
    if a != [] && a[0] == b[0] {
      DropFront(a, b[1..]);
    }
  }

  /** Dropping the first element of `a` keeps it a subsequence. */
  lemma {:induction false} DropFront(a: seq<Hit>, b: seq<Hit>)
    requires a != [] && Subsequence(a, b)
    ensures Subsequence(a[1..], b)
    decreases |b|, |a|
  {
    if a[0] != b[0] {
      DropFront(a, b[1..]);
    }
    SkipFront(a[1..], b);
  }

  /** Filtering leaves the list as it was exactly when no hit has the id. */
  lemma {:induction false} WithoutUnchangedIff(hits: seq<Hit>, id: string)
    ensures Without(hits, id) == hits <==> forall h :: h in hits ==> h.objectID != id
  {
    if hits != [] {
      WithoutUnchangedIff(hits[1..], id);
      if forall h :: h in hits ==> h.objectID != id {
        assert forall h :: h in hits[1..] ==> h in hits;
      } else if hits[0].objectID != id {
        assert hits[0] in hits;
        var h :| h in hits && h.objectID == id;
        assert h in hits[1..];
        assert Without(hits[1..], id) != hits[1..];
        assert Without(hits, id)[1..] == Without(hits[1..], id);
      } else {
        assert hits[0] !in Without(hits, id);
      }
    }
  }

  /** Dismissing the same id twice is the same as dismissing it once. */
  lemma WithoutIdempotent(hits: seq<Hit>, id: string)
    ensures Without(Without(hits, id), id) == Without(hits, id)
  {
    WithoutUnchangedIff(Without(hits, id), id);
  }

  /** A subsequence of `s` free of `id` is no longer than the filter of `s`. */
  lemma {:induction false} SubsequenceBound(r: seq<Hit>, s: seq<Hit>, id: string)
    requires Subsequence(r, s)
    requires forall h :: h in r ==> h.objectID != id
    ensures |r| <= |Without(s, id)|
    decreases |s|
  {
    if r != [] {
      assert forall h :: h in r[1..] ==> h in r;
      if r[0] == s[0] {
        SubsequenceBound(r[1..], s[1..], id);
      } else {
        SubsequenceBound(r, s[1..], id);
      }
    }
  }

  /** An id-free subsequence of the hits as long as the filter is the
      filter. Together with `SubsequenceBound` this makes the filter the
      unique longest id-free subsequence of the hits. */
  lemma {:induction false} WithoutUnique(hits: seq<Hit>, id: string, r: seq<Hit>)
    requires Subsequence(r, hits)
    requires forall h :: h in r ==> h.objectID != id
    requires |r| == |Without(hits, id)|
    ensures r == Without(hits, id)
    decreases |hits|
  {
    if r != [] {
      assert forall h :: h in r[1..] ==> h in r;
      if hits[0].objectID == id {
        assert r[0] != hits[0];
        WithoutUnique(hits[1..], id, r);
      } else if r[0] == hits[0] {
        WithoutUnique(hits[1..], id, r[1..]);
        assert r == [r[0]] + r[1..];
      } else {
        SubsequenceBound(r, hits[1..], id);
      }
    }
  }
}
