/**
 * The ranking half of `semantic_search`: every fetched entity is scored
 * against the query, the scored list is sorted by score, highest first, with
 * Python's stable `list.sort(reverse=True)`, and the first `k` are kept. The
 * score (a cosine similarity) is an opaque real given by the caller.
 */
module Ranking {

  /** One record fetched from the store: an entity that has an embedding. */
  datatype Record = Record(name: string, entityType: string, description: string, embedding: seq<real>)

  /** A scored record, as appended to `similarities`. */
  datatype Match = Match(name: string, entityType: string, description: string, similarity: real)

  function Scored(records: seq<Record>, similarity: seq<real> -> real): (ms: seq<Match>)
    ensures |ms| == |records|
    ensures forall i :: 0 <= i < |records| ==>
      ms[i] == Match(records[i].name, records[i].entityType, records[i].description, similarity(records[i].embedding))
  {
    seq(|records|, i requires 0 <= i < |records| =>
      Match(records[i].name, records[i].entityType, records[i].description, similarity(records[i].embedding)))
  }

  // ---------------------------------------------------------------------------
  // Stable descending sort

  /** Non-increasing in score. */
  ghost predicate Descending(s: seq<Match>) {
    forall i, j :: 0 <= i < j < |s| ==> s[i].similarity >= s[j].similarity
  }

  /** The matches of score `v`, in their order in `s`. */
  function WithScore(s: seq<Match>, v: real): seq<Match> {
    if s == [] then []
    else (if s[0].similarity == v then [s[0]] else []) + WithScore(s[1..], v)
  }

  /** `m` placed after every match scoring at least as high as it. */
  function Insert(m: Match, s: seq<Match>): seq<Match> {
    if s == [] then [m]
    else if s[0].similarity >= m.similarity then [s[0]] + Insert(m, s[1..])
    else [m] + s
  }

  /**
   * `list.sort(key=similarity, reverse=True)`: each match, in list order, is
   * inserted after the ones already placed with a score at least as high, so
   * equal scores keep their original order.
   */
  function SortDescending(s: seq<Match>): seq<Match> {
    if s == [] then [] else Insert(s[|s| - 1], SortDescending(s[..|s| - 1]))
  }

  lemma {:induction false} WithScoreAppend(a: seq<Match>, b: seq<Match>, v: real)
    ensures WithScore(a + b, v) == WithScore(a, v) + WithScore(b, v)
  {
    if a == [] {
      assert a + b == b;
    } else {
      var ab := a + b;
      assert ab[0] == a[0];
      assert ab[1..] == a[1..] + b;
      WithScoreAppend(a[1..], b, v);
      var head := if a[0].similarity == v then [a[0]] else [];
      assert WithScore(ab, v) == head + WithScore(a[1..] + b, v);
      assert WithScore(a, v) == head + WithScore(a[1..], v);
    }
  }

  lemma {:induction false} WithScoreMembers(s: seq<Match>, v: real)
    ensures forall m :: m in WithScore(s, v) <==> m in s && m.similarity == v
  {
    if s != [] {
      WithScoreMembers(s[1..], v);
      assert s == [s[0]] + s[1..];
    }
  }

  lemma {:induction false} InsertMultiset(m: Match, s: seq<Match>)
    ensures multiset(Insert(m, s)) == multiset(s) + multiset{m}
  {
    if s != [] && s[0].similarity >= m.similarity {
      InsertMultiset(m, s[1..]);
      assert s == [s[0]] + s[1..];
    }
  }

  lemma {:induction false} InsertDescending(m: Match, s: seq<Match>)
    requires Descending(s)
    ensures Descending(Insert(m, s))
  {
    if s != [] && s[0].similarity >= m.similarity {
      var rest := Insert(m, s[1..]);
      InsertDescending(m, s[1..]);
      InsertMultiset(m, s[1..]);
      forall j | 0 <= j < |rest| ensures s[0].similarity >= rest[j].similarity {
        assert rest[j] in multiset(rest);
        if rest[j] != m {
          assert rest[j] in multiset(s[1..]);
          var i :| 0 <= i < |s[1..]| && s[1..][i] == rest[j];
          assert s[i + 1] == rest[j];
        }
      }
    }
  }

  lemma {:induction false} InsertWithScore(m: Match, s: seq<Match>, v: real)
    requires Descending(s)
    ensures WithScore(Insert(m, s), v) == WithScore(s, v) + WithScore([m], v)
  {
    assert [m][1..] == [];
    if s == [] {
    } else if s[0].similarity >= m.similarity {
      InsertWithScore(m, s[1..], v);
      assert ([s[0]] + Insert(m, s[1..]))[1..] == Insert(m, s[1..]);
    } else {
      assert ([m] + s)[1..] == s;
      if m.similarity == v {
        // every match of s scores below m, so none of them has score v
        WithScoreMembers(s, v);
        if WithScore(s, v) != [] {
          var x := WithScore(s, v)[0];
          assert x in WithScore(s, v);
          assert x in s && x.similarity == v;
          DescendingHead(s, x);
        }
      }
    }
  }

  /** The sorted list is non-increasing in score. */
  lemma {:induction false} SortDescendingSorted(s: seq<Match>)
    ensures Descending(SortDescending(s))
    ensures multiset(SortDescending(s)) == multiset(s)
    ensures forall v :: WithScore(SortDescending(s), v) == WithScore(s, v)
  {
    if s != [] {
      var init, last := s[..|s| - 1], s[|s| - 1];
      assert s == init + [last];
      SortDescendingSorted(init);
      InsertDescending(last, SortDescending(init));
      InsertMultiset(last, SortDescending(init));
      forall v ensures WithScore(SortDescending(s), v) == WithScore(s, v) {
        InsertWithScore(last, SortDescending(init), v);
        WithScoreAppend(init, [last], v);
      }
    }
  }

  /** Sorting keeps the length. */
  lemma SortDescendingLength(s: seq<Match>)
    ensures |SortDescending(s)| == |s|
  {
    SortDescendingSorted(s);
    assert |multiset(SortDescending(s))| == |multiset(s)|;
  }

  /** In a non-increasing list the first match scores at least as high as any. */
  lemma DescendingHead(s: seq<Match>, m: Match)
    requires Descending(s) && m in s
    ensures s[0].similarity >= m.similarity
  {
  }

  /**
   * Any non-increasing list with the same matches of each score, in the same
   * order, as `s` is `SortDescending(s)`: the insertion sort above is the only
   * stable descending sort there is.
   */
  lemma {:induction false} StableSortUnique(s: seq<Match>, t: seq<Match>)
    requires Descending(t)
    requires forall v :: WithScore(t, v) == WithScore(s, v)
    ensures t == SortDescending(s)
  {
    SortDescendingSorted(s);
    SameScoresSame(t, SortDescending(s));
  }

  lemma HeadHasScore(a: seq<Match>)
    requires a != []
    ensures WithScore(a, a[0].similarity) == [a[0]] + WithScore(a[1..], a[0].similarity)
  {
  }

  /** The top score of `b` is at least any score that `b` has a match of. */
  lemma HeadScoreBound(a: seq<Match>, b: seq<Match>)
    requires Descending(b) && a != []
    requires WithScore(a, a[0].similarity) == WithScore(b, a[0].similarity)
    ensures b != [] && b[0].similarity >= a[0].similarity
  {
    var u := a[0].similarity;
    HeadHasScore(a);
    WithScoreMembers(b, u);
    var x := WithScore(b, u)[0];
    assert x in WithScore(b, u);
    DescendingHead(b, x);
  }

  lemma {:induction false} SameScoresSame(a: seq<Match>, b: seq<Match>)
    requires Descending(a) && Descending(b)
    requires forall v :: WithScore(a, v) == WithScore(b, v)
    ensures a == b
    decreases |a| + |b|
  {
    if a != [] {
      HeadScoreBound(a, b);
      HeadScoreBound(b, a);
      var u := a[0].similarity;
      HeadHasScore(a);
      HeadHasScore(b);
      assert a[0] == b[0] by {
        assert a[0] == WithScore(a, u)[0] && b[0] == WithScore(b, u)[0];
      }
      forall v ensures WithScore(a[1..], v) == WithScore(b[1..], v) {
        if v == u {
          assert WithScore(a[1..], v) == WithScore(a, v)[1..];
          assert WithScore(b[1..], v) == WithScore(b, v)[1..];
        } else {
          assert WithScore(a, v) == WithScore(a[1..], v);
          assert WithScore(b, v) == WithScore(b[1..], v);
        }
      }
      SameScoresSame(a[1..], b[1..]);
      assert a == [a[0]] + a[1..] && b == [b[0]] + b[1..];
    } else if b != [] {
      HeadScoreBound(b, a);
    }
  }

  // ---------------------------------------------------------------------------
  // Slicing

  function Min(a: int, b: int): int { if a <= b then a else b }

  function Max(a: int, b: int): int { if a >= b then a else b }

  /** Python's `s[:k]`: the first `k` elements, or all but the last `-k` when `k` is negative. */
  function Take<T>(s: seq<T>, k: int): (r: seq<T>)
    ensures r <= s
    ensures k >= 0 ==> |r| == Min(k, |s|)
    ensures k < 0 ==> |r| == Max(0, |s| + k)
  {
    if k >= 0 then s[..Min(k, |s|)] else s[..Max(0, |s| + k)]
  }

  // ---------------------------------------------------------------------------
  // semantic_search

  /**
   * `semantic_search`: score each fetched record in fetch order, sort the
   * scored list by score, highest first (stable), and keep the first `k`.
   */
  method SemanticSearch(records: seq<Record>, similarity: seq<real> -> real, k: int) returns (results: seq<Match>)
    ensures results == Take(SortDescending(Scored(records, similarity)), k)
    ensures k >= 0 ==> |results| == Min(k, |records|)
    ensures Descending(results)
    ensures multiset(results) <= multiset(Scored(records, similarity))
    ensures records == [] ==> results == []
  {
    var similarities: seq<Match> := [];
    for i := 0 to |records|
      invariant similarities == Scored(records[..i], similarity)
    {
      var record := records[i];
      similarities := similarities + [Match(record.name, record.entityType, record.description, similarity(record.embedding))];
    }
    assert records[..|records|] == records;
    ghost var scored := similarities;
    similarities := SortDescending(similarities);
    SortDescendingSorted(scored);
    SortDescendingLength(scored);
    results := Take(similarities, k);
    PrefixFacts(similarities, results);
  }

  /** A prefix of a non-increasing list is non-increasing and holds some of its matches. */
  lemma PrefixFacts(s: seq<Match>, p: seq<Match>)
    requires Descending(s) && p <= s
    ensures Descending(p)
    ensures multiset(p) <= multiset(s)
  {
    assert s == p + s[|p|..];
  }

  /**
   * Matches of equal score come out in fetch order: the results of each score
   * are the first ones of that score in the scored list.
   */
  lemma SearchKeepsFetchOrder(records: seq<Record>, similarity: seq<real> -> real, k: int, v: real)
    ensures WithScore(Take(SortDescending(Scored(records, similarity)), k), v) <= WithScore(Scored(records, similarity), v)
  {
    var scored := Scored(records, similarity);
    var sorted := SortDescending(scored);
    SortDescendingSorted(scored);
    WithScorePrefix(Take(sorted, k), sorted, v);
  }

  /** The matches of one score in a prefix are a prefix of those in the whole list. */
  lemma WithScorePrefix(p: seq<Match>, s: seq<Match>, v: real)
    requires p <= s
    ensures WithScore(p, v) <= WithScore(s, v)
  {
    assert s == p + s[|p|..];
    WithScoreAppend(p, s[|p|..], v);
  }
}
