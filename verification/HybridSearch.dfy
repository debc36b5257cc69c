/**
 Ranking, reciprocal-rank fusion and evidence selection of `IndexingService.search`
 (backend/app/services/indexing.py), over exact reals.
 */
module HybridSearch {
  import opened Options
  import FileChunks
  import IndexBuild
  import Similarity

  /** A chunk's primary key; UUID5 is taken to be injective in the name it is made from. */
  datatype Uuid = Uuid5(name: string)

  /** A chunk with its dense and lexical score for the query. */
  datatype Candidate = Candidate(id: Uuid, path: string, dense: real, lexical: real)

  datatype Scored = Scored(chunk: Candidate, score: real)

  datatype Method = Dense | Lexical | Hybrid

  // ----- `sorted(..., reverse=True)` -----

  function Insert(x: Scored, sorted: seq<Scored>): seq<Scored> {
    if sorted == [] || sorted[0].score <= x.score then [x] + sorted else [sorted[0]] + Insert(x, sorted[1..])
  }

  /** Descending by score; like Python's sort with `reverse=True` it keeps equal scores in their original order. */
  function SortDescending(items: seq<Scored>): seq<Scored> {
    if items == [] then [] else Insert(items[0], SortDescending(items[1..]))
  }

  predicate Descending(items: seq<Scored>) {
    forall i, j :: 0 <= i < j < |items| ==> items[i].score >= items[j].score
  }

  function WithScore(items: seq<Scored>, score: real): seq<Scored> {
    if items == [] then []
    else (if items[0].score == score then [items[0]] else []) + WithScore(items[1..], score)
  }

  lemma {:induction false} InsertKeepsItems(x: Scored, sorted: seq<Scored>)
    ensures multiset(Insert(x, sorted)) == multiset(sorted) + multiset{x}
  {
    if sorted != [] && sorted[0].score > x.score {
      InsertKeepsItems(x, sorted[1..]);
      assert sorted == [sorted[0]] + sorted[1..];
    }
  }

  predicate AllAtMost(items: seq<Scored>, score: real) {
    forall i :: 0 <= i < |items| ==> items[i].score <= score
  }

  lemma {:induction false} DescendingCons(head: Scored, tail: seq<Scored>)
    ensures Descending([head] + tail) <==> Descending(tail) && AllAtMost(tail, head.score)
  {
    var all := [head] + tail;
    forall i | 0 <= i < |tail| ensures all[i + 1] == tail[i] {
    }
    if Descending(all) {
      forall i | 0 <= i < |tail| ensures tail[i].score <= head.score {
        assert all[0].score >= all[i + 1].score;
      }
    } else if Descending(tail) && AllAtMost(tail, head.score) {
      forall i, j | 0 <= i < j < |all| ensures all[i].score >= all[j].score {
        if i == 0 {
          assert all[j] == tail[j - 1];
        } else {
          assert all[i] == tail[i - 1] && all[j] == tail[j - 1];
        }
      }
    }
  }

  lemma {:induction false} InsertSorts(x: Scored, sorted: seq<Scored>)
    requires Descending(sorted)
    ensures Descending(Insert(x, sorted))
    ensures forall y :: y in Insert(x, sorted) <==> y == x || y in sorted
  {
    if sorted != [] {
      var head, tail := sorted[0], sorted[1..];
      assert sorted == [head] + tail;
      DescendingCons(head, tail);
      DescendingCons(x, sorted);
      if head.score > x.score {
        InsertSorts(x, tail);
        assert AllAtMost(Insert(x, tail), head.score) by {
          forall i | 0 <= i < |Insert(x, tail)| ensures Insert(x, tail)[i].score <= head.score {
            assert Insert(x, tail)[i] in Insert(x, tail);
          }
        }
        DescendingCons(head, Insert(x, tail));
      }
    }
  }

  lemma {:induction false} InsertIsStable(x: Scored, sorted: seq<Scored>, score: real)
    requires Descending(sorted)
    ensures WithScore(Insert(x, sorted), score)
         == (if x.score == score then [x] else []) + WithScore(sorted, score)
  {
    if sorted != [] && sorted[0].score > x.score {
      InsertIsStable(x, sorted[1..], score);
      assert Insert(x, sorted)[1..] == Insert(x, sorted[1..]);
      if x.score == score {
        assert WithScore(sorted, score) == WithScore(sorted[1..], score);
      }
    } else {
      assert ([x] + sorted)[1..] == sorted;
    }
  }

  /** The ranking is a descending permutation that keeps ties in their original order. */
  lemma {:induction false} SortIsStableSort(items: seq<Scored>, score: real)
    ensures Descending(SortDescending(items))
    ensures multiset(SortDescending(items)) == multiset(items)
    ensures WithScore(SortDescending(items), score) == WithScore(items, score)
  {
    hide Insert, Descending;
    if items == [] {
      assert Descending([]) by { EmptyDescends(); }
    } else {
      SortIsStableSort(items[1..], score);
      InsertSorts(items[0], SortDescending(items[1..]));
      InsertKeepsItems(items[0], SortDescending(items[1..]));
      InsertIsStable(items[0], SortDescending(items[1..]), score);
      assert items == [items[0]] + items[1..];
    }
  }

  lemma {:induction false} EmptyDescends()
    ensures Descending([])
  {
  }

  // ----- Ranked lists -----

  function DenseScores(chunks: seq<Candidate>): (items: seq<Scored>)
    ensures |items| == |chunks| && forall i :: 0 <= i < |chunks| ==> items[i].chunk == chunks[i]
  {
    seq(|chunks|, i requires 0 <= i < |chunks| => Scored(chunks[i], chunks[i].dense))
  }

  function LexicalScores(chunks: seq<Candidate>): (items: seq<Scored>)
    ensures |items| == |chunks| && forall i :: 0 <= i < |chunks| ==> items[i].chunk == chunks[i]
  {
    seq(|chunks|, i requires 0 <= i < |chunks| => Scored(chunks[i], chunks[i].lexical))
  }

  predicate DistinctIds(items: seq<Scored>) {
    forall i, j :: 0 <= i < j < |items| ==> items[i].chunk.id != items[j].chunk.id
  }

  /** What one ranked list adds to a chunk's fused score. */
  function Contribution(list: seq<Scored>, id: Uuid): real {
    if list == [] then 0.0
    else Contribution(list[..|list| - 1], id)
         + (if list[|list| - 1].chunk.id == id then 1.0 / ((60 + |list|) as real) else 0.0)
  }

  function FusedScore(dense: seq<Scored>, lexical: seq<Scored>, id: Uuid): real {
    Contribution(dense, id) + Contribution(lexical, id)
  }

  ghost predicate Lists(items: seq<Scored>, id: Uuid) {
    exists i :: 0 <= i < |items| && items[i].chunk.id == id
  }

  lemma {:induction false} ListsLast(list: seq<Scored>, rank: nat, id: Uuid)
    requires rank < |list|
    ensures Lists(list[..rank + 1], id) <==> Lists(list[..rank], id) || list[rank].chunk.id == id
  {
    var front, more := list[..rank], list[..rank + 1];
    if i :| 0 <= i < rank && front[i].chunk.id == id {
      assert more[i] == front[i];
    }
    assert more[rank] == list[rank];
  }

  /** The two accumulation loops over the rankings: a chunk's score is the sum of what each list adds. */
  method Fuse(dense: seq<Scored>, lexical: seq<Scored>) returns (fused: map<Uuid, real>)
    ensures forall id :: id in fused <==> Lists(dense, id) || Lists(lexical, id)
    ensures forall id :: id in fused ==> fused[id] == FusedScore(dense, lexical, id)
  {
    hide Lists;
    fused := map[];
    NoneListed();
    for rank := 0 to |dense|
      invariant forall id :: id in fused <==> Lists(dense[..rank], id)
      invariant forall id :: (if id in fused then fused[id] else 0.0) == Contribution(dense[..rank], id)
    {
      var id := dense[rank].chunk.id;
      assert dense[..rank + 1][..rank] == dense[..rank];
      forall other {
        ListsLast(dense, rank, other);
      }
      fused := fused[id := (if id in fused then fused[id] else 0.0) + 1.0 / ((60 + rank + 1) as real)];
    }
    assert dense[..|dense|] == dense;
    for rank := 0 to |lexical|
      invariant forall id :: id in fused <==> Lists(dense, id) || Lists(lexical[..rank], id)
      invariant forall id :: (if id in fused then fused[id] else 0.0)
                  == Contribution(dense, id) + Contribution(lexical[..rank], id)
    {
      var id := lexical[rank].chunk.id;
      assert lexical[..rank + 1][..rank] == lexical[..rank];
      forall other {
        ListsLast(lexical, rank, other);
      }
      fused := fused[id := (if id in fused then fused[id] else 0.0) + 1.0 / ((60 + rank + 1) as real)];
    }
    assert lexical[..|lexical|] == lexical;
  }

  lemma {:induction false} NoneListed()
    ensures forall id :: !Lists([], id)
  {
  }

  /** In a list of distinct chunks the chunk at index i contributes exactly 1 / (60 + rank). */
  lemma {:induction false} ContributionAt(list: seq<Scored>, i: nat)
    requires DistinctIds(list) && i < |list|
    ensures Contribution(list, list[i].chunk.id) == 1.0 / ((61 + i) as real)
    decreases |list|
  {
    var front := list[..|list| - 1];
    if i < |front| {
      ContributionAt(front, i);
    } else {
      AbsentContributesNothing(front, list[i].chunk.id);
    }
  }

  lemma {:induction false} AbsentContributesNothing(list: seq<Scored>, id: Uuid)
    requires forall i :: 0 <= i < |list| ==> list[i].chunk.id != id
    ensures Contribution(list, id) == 0.0
  {
    if list != [] {
      AbsentContributesNothing(list[..|list| - 1], id);
    }
  }

  lemma {:induction false} ReciprocalDecreases(a: nat, b: nat)
    requires 0 < a <= b
    ensures 1.0 / (a as real) >= 1.0 / (b as real)
    ensures a < b ==> 1.0 / (a as real) > 1.0 / (b as real)
  {
    var x, y := a as real, b as real;
    assert 1.0 / x - 1.0 / y == (y - x) / (x * y);
  }

  lemma {:induction false} ReciprocalBounds(a: nat, n: nat)
    requires 61 <= a <= n
    ensures 1.0 / 61.0 >= 1.0 / (a as real) >= (2.0 / (n as real)) / 2.0
  {
    ReciprocalDecreases(61, a);
    ReciprocalDecreases(a, n);
    assert (2.0 / (n as real)) / 2.0 == 1.0 / (n as real);
  }

  /** Both rankings list the same chunks, each once. */
  ghost predicate SameChunks(dense: seq<Scored>, lexical: seq<Scored>) {
    && DistinctIds(dense) && DistinctIds(lexical) && |dense| == |lexical|
    && forall i :: 0 <= i < |dense| ==> Lists(lexical, dense[i].chunk.id)
  }

  /** Over n distinct chunks every fused score lies between 2/(60+n) and 2/61. */
  lemma {:induction false} FusedScoreBounds(dense: seq<Scored>, lexical: seq<Scored>, i: nat)
    requires SameChunks(dense, lexical) && i < |dense|
    ensures 2.0 / ((60 + |dense|) as real) <= FusedScore(dense, lexical, dense[i].chunk.id) <= 2.0 / 61.0
  {
    var j :| 0 <= j < |lexical| && lexical[j].chunk.id == dense[i].chunk.id;
    ContributionAt(dense, i);
    ContributionAt(lexical, j);
    ReciprocalBounds(61 + i, 60 + |dense|);
    ReciprocalBounds(61 + j, 60 + |dense|);
  }

  /** A chunk ranked ahead of another in both lists gets a strictly larger fused score. */
  lemma {:induction false} FusionIsMonotone(dense: seq<Scored>, lexical: seq<Scored>, i: nat, j: nat, k: nat, l: nat)
    requires DistinctIds(dense) && DistinctIds(lexical)
    requires i < j < |dense| && k < l < |lexical|
    requires lexical[k].chunk.id == dense[i].chunk.id && lexical[l].chunk.id == dense[j].chunk.id
    ensures FusedScore(dense, lexical, dense[i].chunk.id) > FusedScore(dense, lexical, dense[j].chunk.id)
  {
    ContributionAt(dense, i);
    ContributionAt(dense, j);
    ContributionAt(lexical, k);
    ContributionAt(lexical, l);
    ReciprocalDecreases(61 + i, 61 + j);
    ReciprocalDecreases(61 + k, 61 + l);
  }

  // ----- The scores sum to a constant -----

  function ReciprocalSum(n: nat): real {
    if n == 0 then 0.0 else ReciprocalSum(n - 1) + 1.0 / ((60 + n) as real)
  }

  function SumOfContributions(items: seq<Scored>, list: seq<Scored>): real {
    if items == [] then 0.0 else Contribution(list, items[0].chunk.id) + SumOfContributions(items[1..], list)
  }

  function SumOfFused(items: seq<Scored>, dense: seq<Scored>, lexical: seq<Scored>): real {
    if items == [] then 0.0 else FusedScore(dense, lexical, items[0].chunk.id) + SumOfFused(items[1..], dense, lexical)
  }

  lemma {:induction false} SumSplits(items: seq<Scored>, dense: seq<Scored>, lexical: seq<Scored>)
    ensures SumOfFused(items, dense, lexical) == SumOfContributions(items, dense) + SumOfContributions(items, lexical)
  {
    if items != [] {
      SumSplits(items[1..], dense, lexical);
    }
  }

  lemma {:induction false} SumWithLast(items: seq<Scored>, list: seq<Scored>, last: Scored)
    requires DistinctIds(items)
    ensures SumOfContributions(items, list + [last]) == SumOfContributions(items, list)
         + (if Lists(items, last.chunk.id) then 1.0 / ((61 + |list|) as real) else 0.0)
  {
    if items != [] {
      SumWithLast(items[1..], list, last);
      assert (list + [last])[..|list|] == list;
      if items[0].chunk.id == last.chunk.id {
        assert forall i :: 0 <= i < |items[1..]| ==> items[1..][i] == items[i + 1];
      } else if i :| 0 <= i < |items| && items[i].chunk.id == last.chunk.id {
        assert items[1..][i - 1] == items[i];
      }
    }
  }

  lemma {:induction false} SumOverList(items: seq<Scored>, list: seq<Scored>)
    requires DistinctIds(items)
    requires forall i :: 0 <= i < |list| ==> Lists(items, list[i].chunk.id)
    ensures SumOfContributions(items, list) == ReciprocalSum(|list|)
    decreases |list|
  {
    if list == [] {
      SumOfNothing(items);
    } else {
      var front := list[..|list| - 1];
      SumOverList(items, front);
      SumWithLast(items, front, list[|list| - 1]);
      assert front + [list[|list| - 1]] == list;
    }
  }

  lemma {:induction false} SumOfNothing(items: seq<Scored>)
    ensures SumOfContributions(items, []) == 0.0
  {
    if items != [] {
      SumOfNothing(items[1..]);
    }
  }

  /** The fused scores of all n chunks sum to twice the sum of 1/(60+r) for r = 1..n, whatever the rankings. */
  lemma {:induction false} FusedScoresSum(dense: seq<Scored>, lexical: seq<Scored>)
    requires SameChunks(dense, lexical) && SameChunks(lexical, dense)
    ensures SumOfFused(dense, dense, lexical) == 2.0 * ReciprocalSum(|dense|)
  {
    SumSplits(dense, dense, lexical);
    assert forall i :: 0 <= i < |dense| ==> Lists(dense, dense[i].chunk.id);
    SumOverList(dense, dense);
    SumOverList(dense, lexical);
  }

  // ----- Evidence: the best chunk per path -----

  function FirstPerPath(items: seq<Scored>, seen: set<string>): seq<Scored> {
    if items == [] then []
    else if items[0].chunk.path in seen then FirstPerPath(items[1..], seen)
    else [items[0]] + FirstPerPath(items[1..], seen + {items[0].chunk.path})
  }

  function Take(items: seq<Scored>, n: int): seq<Scored> {
    if 0 <= n < |items| then items[..n] else items
  }

  /** The loop tests `limit` after it appended, so a limit below one still yields one result. */
  function AtLeastOne(limit: int): nat { if limit < 1 then 1 else limit }

  method SelectEvidence(ordered: seq<Scored>, limit: int) returns (evidence: seq<Scored>)
    ensures evidence == Take(FirstPerPath(ordered, {}), AtLeastOne(limit))
  {
    evidence := [];
    var seen: set<string> := {};
    for i := 0 to |ordered|
      invariant evidence + FirstPerPath(ordered[i..], seen) == FirstPerPath(ordered, {})
      invariant |evidence| < AtLeastOne(limit)
    {
      ghost var rest := FirstPerPath(ordered[i..], seen);
      assert ordered[i..][1..] == ordered[i + 1..];
      if ordered[i].chunk.path in seen {
        continue;
      }
      seen := seen + {ordered[i].chunk.path};
      assert rest == [ordered[i]] + FirstPerPath(ordered[i + 1..], seen);
      assert evidence + rest == evidence + [ordered[i]] + FirstPerPath(ordered[i + 1..], seen);
      evidence := evidence + [ordered[i]];
      if |evidence| >= limit {
        return;
      }
    }
  }

  /**
   `kept` sits in `items` at the increasing positions `at`, each the first of its path; and every path
   outside `seen` is represented, at or before each of its chunks.
   */
  ghost predicate IsFirstPerPath(items: seq<Scored>, seen: set<string>, kept: seq<Scored>, at: seq<nat>) {
    && |at| == |kept|
    && (forall k :: 0 <= k < |at| ==> at[k] < |items| && kept[k] == items[at[k]] && kept[k].chunk.path !in seen)
    && (forall k, l :: 0 <= k < l < |at| ==> at[k] < at[l])
    && (forall k, i :: 0 <= k < |at| && 0 <= i < at[k] ==> items[i].chunk.path != kept[k].chunk.path)
    && (forall i :: 0 <= i < |items| && items[i].chunk.path !in seen ==> Represented(items, kept, at, i))
  }

  ghost predicate Represented(items: seq<Scored>, kept: seq<Scored>, at: seq<nat>, i: nat)
    requires i < |items| && |at| == |kept|
  {
    exists k :: 0 <= k < |at| && at[k] <= i && kept[k].chunk.path == items[i].chunk.path
  }

  function Shift(at: seq<nat>): (shifted: seq<nat>)
    ensures |shifted| == |at| && forall k :: 0 <= k < |at| ==> shifted[k] == at[k] + 1
  {
    seq(|at|, k requires 0 <= k < |at| => at[k] + 1)
  }

  lemma {:induction false} SkipHead(items: seq<Scored>, seen: set<string>, kept: seq<Scored>, at: seq<nat>)
    requires items != [] && items[0].chunk.path in seen && IsFirstPerPath(items[1..], seen, kept, at)
    ensures IsFirstPerPath(items, seen, kept, Shift(at))
  {
    hide Represented;
    var tail, shifted := items[1..], Shift(at);
    forall i | 0 <= i < |items| && items[i].chunk.path !in seen ensures Represented(items, kept, shifted, i) {
      assert tail[i - 1] == items[i];
      RepresentedShifts(items, kept, at, i);
    }
  }

  lemma {:induction false} RepresentedShifts(items: seq<Scored>, kept: seq<Scored>, at: seq<nat>, i: nat)
    requires 0 < i < |items| && |at| == |kept| && Represented(items[1..], kept, at, i - 1)
    ensures Represented(items, kept, Shift(at), i)
  {
    var k :| 0 <= k < |at| && at[k] <= i - 1 && kept[k].chunk.path == items[1..][i - 1].chunk.path;
    assert Shift(at)[k] <= i;
  }

  lemma {:induction false} KeepHead(items: seq<Scored>, seen: set<string>, kept: seq<Scored>, at: seq<nat>)
    requires items != [] && items[0].chunk.path !in seen
    requires IsFirstPerPath(items[1..], seen + {items[0].chunk.path}, kept, at)
    ensures IsFirstPerPath(items, seen, [items[0]] + kept, [0] + Shift(at))
  {
    hide Represented, Shift;
    var head, tail, all, places := items[0], items[1..], [items[0]] + kept, [0] + Shift(at);
    forall k | 0 <= k < |places|
      ensures places[k] < |items| && all[k] == items[places[k]] && all[k].chunk.path !in seen
      ensures k > 0 ==> places[k] == at[k - 1] + 1 && all[k] == kept[k - 1] == tail[at[k - 1]]
      ensures forall i :: 0 <= i < places[k] ==> items[i].chunk.path != all[k].chunk.path
    {
      if k > 0 {
        assert all[k].chunk.path != head.chunk.path;
        forall i | 0 < i < places[k] ensures items[i].chunk.path != all[k].chunk.path {
          assert tail[i - 1] == items[i];
        }
      }
    }
    forall i | 0 <= i < |items| && items[i].chunk.path !in seen ensures Represented(items, all, places, i) {
      if items[i].chunk.path == head.chunk.path {
        HeadRepresents(items, all, places, i);
      } else {
        assert tail[i - 1] == items[i];
        RepresentedShifts(items, kept, at, i);
        RepresentedGrows(items, kept, Shift(at), i);
      }
    }
  }

  lemma {:induction false} HeadRepresents(items: seq<Scored>, kept: seq<Scored>, at: seq<nat>, i: nat)
    requires i < |items| && |at| == |kept| > 0 && at[0] == 0 && kept[0].chunk.path == items[i].chunk.path
    ensures Represented(items, kept, at, i)
  {
  }

  lemma {:induction false} RepresentedGrows(items: seq<Scored>, kept: seq<Scored>, at: seq<nat>, i: nat)
    requires i < |items| && |at| == |kept| && Represented(items, kept, at, i)
    ensures Represented(items, [items[0]] + kept, [0] + at, i)
  {
    var k :| 0 <= k < |at| && at[k] <= i && kept[k].chunk.path == items[i].chunk.path;
    assert ([0] + at)[k + 1] == at[k] && ([items[0]] + kept)[k + 1] == kept[k];
  }

  /** The reduced list is what its description says. */
  lemma {:induction false} FirstPerPathIs(items: seq<Scored>, seen: set<string>) returns (at: seq<nat>)
    ensures IsFirstPerPath(items, seen, FirstPerPath(items, seen), at)
  {
    hide IsFirstPerPath;
    if items == [] {
      at := [];
      NothingIsKept(seen);
    } else if items[0].chunk.path in seen {
      at := FirstPerPathIs(items[1..], seen);
      SkipHead(items, seen, FirstPerPath(items[1..], seen), at);
      at := Shift(at);
    } else {
      at := FirstPerPathIs(items[1..], seen + {items[0].chunk.path});
      KeepHead(items, seen, FirstPerPath(items[1..], seen + {items[0].chunk.path}), at);
      at := [0] + Shift(at);
    }
  }

  lemma {:induction false} NothingIsKept(seen: set<string>)
    ensures IsFirstPerPath([], seen, [], [])
  {
  }

  // ----- The whole search -----

  function FusedScores(chunks: seq<Candidate>, dense: seq<Scored>, lexical: seq<Scored>): (items: seq<Scored>)
    ensures |items| == |chunks| && forall i :: 0 <= i < |chunks| ==>
              items[i].chunk == chunks[i] && items[i].score == FusedScore(dense, lexical, chunks[i].id)
  {
    seq(|chunks|, i requires 0 <= i < |chunks| => Scored(chunks[i], FusedScore(dense, lexical, chunks[i].id)))
  }

  function DenseRanked(chunks: seq<Candidate>): seq<Scored> { SortDescending(DenseScores(chunks)) }

  function LexicalRanked(chunks: seq<Candidate>): seq<Scored> { SortDescending(LexicalScores(chunks)) }

  function Order(chunks: seq<Candidate>, how: Method): seq<Scored> {
    match how
    case Dense => DenseRanked(chunks)
    case Lexical => LexicalRanked(chunks)
    case Hybrid => SortDescending(FusedScores(chunks, DenseRanked(chunks), LexicalRanked(chunks)))
  }

  /** Chunk ids are the table's primary key. */
  predicate UniqueIds(chunks: seq<Candidate>) {
    forall i, j :: 0 <= i < j < |chunks| ==> chunks[i].id != chunks[j].id
  }

  /** The two scores of a stored row for a query; a row without a vector is scored with the empty one. */
  function CandidateOf(row: IndexBuild.Stored, query: string, vector: Similarity.Vector,
                       sqrt: real -> real): Candidate {
    var c := row.chunk;
    Candidate(Uuid5(c.id), c.path,
              Similarity.Cosine(vector, if row.embedding.Some? then row.embedding.value else [], sqrt),
              Similarity.LexicalScore(query, c.searchText, c.symbolName, c.qualifiedName))
  }

  function Candidates(rows: seq<IndexBuild.Stored>, query: string, vector: Similarity.Vector,
                      sqrt: real -> real): (chunks: seq<Candidate>)
    ensures |chunks| == |rows|
    ensures forall i :: 0 <= i < |rows| ==> chunks[i] == CandidateOf(rows[i], query, vector, sqrt)
  {
    seq(|rows|, i requires 0 <= i < |rows| => CandidateOf(rows[i], query, vector, sqrt))
  }

  /** No answer is the `IndexError` of a provider that returns no vector for the query. */
  method Search(rows: seq<IndexBuild.Stored>, query: string, provider: IndexBuild.Provider, sqrt: real -> real,
                how: Method, topK: Option<int>, defaultTopK: int) returns (evidence: Option<seq<Scored>>)
    ensures evidence.None? <==> rows != [] && provider([query]) == []
    ensures evidence.Some? ==>
              var limit := if topK.Some? && topK.value != 0 then topK.value else defaultTopK;
              var vector := if rows == [] then [] else provider([query])[0];
              evidence.value == Take(FirstPerPath(Order(Candidates(rows, query, vector, sqrt), how), {}),
                                     AtLeastOne(limit))
  {
    hide Order, FirstPerPath, CandidateOf;
    var limit := if topK.Some? && topK.value != 0 then topK.value else defaultTopK;
    if rows == [] {
      SortOfNothing(Candidates(rows, query, [], sqrt), how);
      NothingPerPath();
      return Some([]);
    }
    var vectors := provider([query]);
    if vectors == [] {
      return None;
    }
    var ordered := Rank(Candidates(rows, query, vectors[0], sqrt), how);
    var found := SelectEvidence(ordered, limit);
    return Some(found);
  }

  method Rank(chunks: seq<Candidate>, how: Method) returns (ordered: seq<Scored>)
    ensures ordered == Order(chunks, how)
  {
    hide SortDescending, FusedScore;
    var dense, lexical := DenseRanked(chunks), LexicalRanked(chunks);
    match how {
      case Dense => ordered := dense;
      case Lexical => ordered := lexical;
      case Hybrid =>
        var fused := Fuse(dense, lexical);
        forall i | 0 <= i < |chunks| ensures chunks[i].id in fused {
          RankedHolds(DenseScores(chunks), i);
          assert Lists(dense, chunks[i].id);
        }
        var items := seq(|chunks|, i requires 0 <= i < |chunks| => Scored(chunks[i], fused[chunks[i].id]));
        assert items == FusedScores(chunks, dense, lexical);
        ordered := SortDescending(items);
    }
  }

  lemma {:induction false} SortOfNothing(chunks: seq<Candidate>, how: Method)
    requires chunks == []
    ensures Order(chunks, how) == []
  {
  }

  lemma {:induction false} NothingPerPath()
    ensures FirstPerPath([], {}) == []
  {
  }

  lemma {:induction false} RankedHolds(items: seq<Scored>, i: nat)
    requires i < |items|
    ensures items[i] in SortDescending(items)
  {
    SortIsStableSort(items, 0.0);
    assert items[i] in multiset(items);
    assert items[i] in multiset(SortDescending(items));
  }

  lemma {:induction false} SortKeepsDistinct(items: seq<Scored>)
    requires DistinctIds(items)
    ensures DistinctIds(SortDescending(items)) && |SortDescending(items)| == |items|
    ensures forall x :: x in SortDescending(items) <==> x in items
  {
    if items != [] {
      SortKeepsDistinct(items[1..]);
      InsertKeepsDistinct(items[0], SortDescending(items[1..]));
    }
  }

  lemma {:induction false} InsertKeepsDistinct(x: Scored, sorted: seq<Scored>)
    requires DistinctIds(sorted) && forall y :: y in sorted ==> y.chunk.id != x.chunk.id
    ensures DistinctIds(Insert(x, sorted)) && |Insert(x, sorted)| == |sorted| + 1
    ensures forall y :: y in Insert(x, sorted) <==> y == x || y in sorted
  {
    if sorted != [] && sorted[0].score > x.score {
      var tail := sorted[1..];
      assert sorted == [sorted[0]] + tail;
      InsertKeepsDistinct(x, tail);
      assert forall i :: 0 <= i < |Insert(x, tail)| ==> Insert(x, tail)[i] in Insert(x, tail);
    }
  }

  lemma {:induction false} RankingsAgree(chunks: seq<Candidate>)
    requires UniqueIds(chunks)
    ensures SameChunks(DenseRanked(chunks), LexicalRanked(chunks))
    ensures SameChunks(LexicalRanked(chunks), DenseRanked(chunks))
    ensures |DenseRanked(chunks)| == |chunks|
  {
    hide SortDescending;
    var d, l := DenseScores(chunks), LexicalScores(chunks);
    SortKeepsDistinct(d);
    SortKeepsDistinct(l);
    RankingLists(chunks, d, l);
    RankingLists(chunks, l, d);
  }

  lemma {:induction false} RankingLists(chunks: seq<Candidate>, d: seq<Scored>, l: seq<Scored>)
    requires |d| == |l| == |chunks| && forall i :: 0 <= i < |chunks| ==> d[i].chunk == l[i].chunk == chunks[i]
    requires forall x :: x in SortDescending(d) <==> x in d
    requires forall x :: x in SortDescending(l) <==> x in l
    ensures forall i :: 0 <= i < |SortDescending(d)| ==> Lists(SortDescending(l), SortDescending(d)[i].chunk.id)
  {
    hide SortDescending;
    forall i | 0 <= i < |SortDescending(d)| ensures Lists(SortDescending(l), SortDescending(d)[i].chunk.id) {
      assert SortDescending(d)[i] in d;
      var k :| 0 <= k < |d| && d[k] == SortDescending(d)[i];
      assert l[k] in SortDescending(l);
    }
  }

  /** The fused score of a chunk that is last of n in both rankings; of one chunk it is also the highest. */
  function LowestScore(n: nat): real { 2.0 / ((60 + n) as real) }

  /** Every hybrid score lies between 2/(60+n) and 2/61, and all n of them sum to twice the reciprocal sum. */
  lemma {:induction false} HybridScores(chunks: seq<Candidate>, i: nat)
    requires UniqueIds(chunks) && i < |chunks|
    ensures var score := FusedScore(DenseRanked(chunks), LexicalRanked(chunks), chunks[i].id);
            LowestScore(|chunks|) <= score <= LowestScore(1)
    ensures SumOfFused(DenseRanked(chunks), DenseRanked(chunks), LexicalRanked(chunks)) == 2.0 * ReciprocalSum(|chunks|)
  {
    hide SortDescending, FusedScore;
    RankingsAgree(chunks);
    FusedScoresSum(DenseRanked(chunks), LexicalRanked(chunks));
    RankedHolds(DenseScores(chunks), i);
    var k :| 0 <= k < |chunks| && DenseRanked(chunks)[k] == DenseScores(chunks)[i];
    FusedScoreBounds(DenseRanked(chunks), LexicalRanked(chunks), k);
  }

  /** A chunk ahead of another in both rankings comes ahead of it in the fused order. */
  lemma {:induction false} FusedOrderRespectsBoth(chunks: seq<Candidate>, i: nat, j: nat, k: nat, l: nat, p: nat,
                                                  q: nat)
    requires UniqueIds(chunks)
    requires i < j < |DenseRanked(chunks)| && k < l < |LexicalRanked(chunks)|
    requires p < |Order(chunks, Hybrid)| && q < |Order(chunks, Hybrid)|
    requires DenseRanked(chunks)[i].chunk.id == LexicalRanked(chunks)[k].chunk.id == Order(chunks, Hybrid)[p].chunk.id
    requires DenseRanked(chunks)[j].chunk.id == LexicalRanked(chunks)[l].chunk.id == Order(chunks, Hybrid)[q].chunk.id
    ensures p < q
  {
    hide SortDescending, FusedScore;
    var dense, lexical, order := DenseRanked(chunks), LexicalRanked(chunks), Order(chunks, Hybrid);
    RankingsAgree(chunks);
    FusionIsMonotone(dense, lexical, i, j, k, l);
    var items := FusedScores(chunks, dense, lexical);
    SortKeepsDistinct(items);
    SortIsStableSort(items, 0.0);
    assert order[p] in items && order[q] in items;
  }

  ghost predicate HasPath(items: seq<Scored>, path: string) {
    exists k :: 0 <= k < |items| && items[k].chunk.path == path
  }

  /**
   For a limit of at least one, the results are the first `limit` of the order reduced to the best chunk per
   path: scores do not increase, paths are distinct, each is the best chunk of its path, and fewer than
   `limit` results mean that every path is represented.
   */
  lemma {:induction false} EvidenceIsBestPerPath(chunks: seq<Candidate>, how: Method, limit: int)
    requires limit >= 1
    ensures var order := Order(chunks, how);
            var evidence := Take(FirstPerPath(order, {}), AtLeastOne(limit));
            && |evidence| <= limit
            && Descending(evidence)
            && (forall k, l :: 0 <= k < l < |evidence| ==> evidence[k].chunk.path != evidence[l].chunk.path)
            && (forall k, i :: 0 <= k < |evidence| && 0 <= i < |order|
                               && order[i].chunk.path == evidence[k].chunk.path ==>
                  order[i].score <= evidence[k].score)
            && (|evidence| < limit ==> forall i :: 0 <= i < |order| ==> HasPath(evidence, order[i].chunk.path))
  {
    hide SortDescending, FirstPerPath, Descending, HasPath, IsFirstPerPath;
    var order := Order(chunks, how);
    assert Descending(order) by {
      SortIsStableSort(DenseScores(chunks), 0.0);
      SortIsStableSort(LexicalScores(chunks), 0.0);
      SortIsStableSort(FusedScores(chunks, DenseRanked(chunks), LexicalRanked(chunks)), 0.0);
    }
    hide Order;
    var kept := FirstPerPath(order, {});
    var at := FirstPerPathIs(order, {});
    var n := |Take(kept, limit)|;
    assert Take(kept, limit) == kept[..n];
    SelectionIsBest(order, kept, at, n);
  }

  lemma {:induction false} SelectionIsBest(order: seq<Scored>, kept: seq<Scored>, at: seq<nat>, n: nat)
    requires Descending(order) && IsFirstPerPath(order, {}, kept, at) && n <= |kept|
    ensures Descending(kept[..n])
    ensures forall k, l :: 0 <= k < l < n ==> kept[k].chunk.path != kept[l].chunk.path
    ensures forall k, i :: 0 <= k < n && 0 <= i < |order| && order[i].chunk.path == kept[k].chunk.path ==>
              order[i].score <= kept[k].score
    ensures n == |kept| ==> forall i :: 0 <= i < |order| ==> HasPath(kept[..n], order[i].chunk.path)
  {
    hide Represented;
    forall k, l | 0 <= k < l < |kept|
      ensures kept[k].score >= kept[l].score && kept[k].chunk.path != kept[l].chunk.path
    {
      assert at[k] < at[l] && order[at[k]] == kept[k] && order[at[l]] == kept[l];
    }
    forall k, i | 0 <= k < n && 0 <= i < |order| && order[i].chunk.path == kept[k].chunk.path
      ensures order[i].score <= kept[k].score
    {
      assert i >= at[k];
    }
    if n == |kept| {
      assert kept[..n] == kept;
      forall i | 0 <= i < |order| ensures HasPath(kept, order[i].chunk.path) {
        assert Represented(order, kept, at, i);
        RepresentedHasPath(order, kept, at, i);
      }
    }
  }

  lemma {:induction false} RepresentedHasPath(items: seq<Scored>, kept: seq<Scored>, at: seq<nat>, i: nat)
    requires i < |items| && |at| == |kept| && Represented(items, kept, at, i)
    ensures HasPath(kept, items[i].chunk.path)
  {
  }

  // ----- Scores of stored rows -----

  /** The rows of a build have distinct chunks, as the fusion results ask. */
  lemma {:induction false} RowsAreDistinct(rows: seq<IndexBuild.Stored>, chunks: seq<FileChunks.Chunk>, query: string,
                                           vector: Similarity.Vector, sqrt: real -> real)
    requires |rows| == |chunks| && forall i :: 0 <= i < |rows| ==> rows[i].chunk == chunks[i]
    requires IndexBuild.DistinctIds(chunks)
    ensures UniqueIds(Candidates(rows, query, vector, sqrt))
  {
  }

  /** Every token of the query occurs in the row's names and search text, as often as in the query. */
  predicate HoldsQuery(row: IndexBuild.Stored, query: string) {
    var c := row.chunk;
    var text := FileChunks.JoinWith(' ', FileChunks.Present([c.symbolName, c.qualifiedName, Some(c.searchText)]));
    Similarity.Tokenize(query) != [] && multiset(Similarity.Tokenize(query)) <= multiset(Similarity.Tokenize(text))
  }

  lemma {:induction false} CandidateScores(row: IndexBuild.Stored, query: string, vector: Similarity.Vector,
                                           sqrt: real -> real)
    requires Similarity.IsSqrt(sqrt)
    ensures var c := CandidateOf(row, query, vector, sqrt);
            && -1.0 <= c.dense <= 1.0 && 0.0 <= c.lexical <= 1.0
            && (c.lexical == 1.0 <==> HoldsQuery(row, query))
            && (row.embedding == Some(vector) && vector != [] && Similarity.Dot(vector, vector) != 0.0 ==>
                c.dense == 1.0)
  {
    var c := row.chunk;
    var stored := if row.embedding.Some? then row.embedding.value else [];
    var text := FileChunks.JoinWith(' ', FileChunks.Present([c.symbolName, c.qualifiedName, Some(c.searchText)]));
    hide Similarity.Cosine, Similarity.TokenScore, Similarity.Tokenize, Similarity.Dot;
    hide FileChunks.JoinWith, FileChunks.Present;
    Similarity.CosineBounds(vector, stored, sqrt);
    Similarity.TokenScoreBounds(Similarity.Tokenize(query), Similarity.Tokenize(text));
    if row.embedding == Some(vector) && vector != [] && Similarity.Dot(vector, vector) != 0.0 {
      Similarity.CosineOfItself(vector, sqrt);
    }
  }

  /**
   The first of a lexical ranking scores 1 if any row holds every token of the query, and the first of a dense
   ranking scores 1 if any row stores the query's vector.
   */
  lemma {:induction false} PerfectMatchComesFirst(rows: seq<IndexBuild.Stored>, query: string,
                                                  vector: Similarity.Vector, sqrt: real -> real, k: nat)
    requires Similarity.IsSqrt(sqrt) && k < |rows|
    ensures var order := Order(Candidates(rows, query, vector, sqrt), Lexical);
            && order != [] && 0.0 <= order[0].score <= 1.0
            && (HoldsQuery(rows[k], query) ==> order[0].score == 1.0)
    ensures var order := Order(Candidates(rows, query, vector, sqrt), Dense);
            && order != [] && -1.0 <= order[0].score <= 1.0
            && (rows[k].embedding == Some(vector) && vector != [] && Similarity.Dot(vector, vector) != 0.0 ==>
                  order[0].score == 1.0)
  {
    hide SortDescending, CandidateOf, HoldsQuery, Similarity.IsSqrt, Similarity.Dot;
    var chunks := Candidates(rows, query, vector, sqrt);
    CandidateScores(rows[k], query, vector, sqrt);
    forall i | 0 <= i < |rows| ensures -1.0 <= chunks[i].dense <= 1.0 && 0.0 <= chunks[i].lexical <= 1.0 {
      CandidateScores(rows[i], query, vector, sqrt);
    }
    LargestComesFirst(DenseScores(chunks), k);
    LargestComesFirst(LexicalScores(chunks), k);
  }

  lemma {:induction false} LargestComesFirst(items: seq<Scored>, k: nat)
    requires k < |items|
    ensures SortDescending(items) != [] && SortDescending(items)[0] in items
            && SortDescending(items)[0].score >= items[k].score
  {
    hide SortDescending;
    var order := SortDescending(items);
    SortIsStableSort(items, 0.0);
    RankedHolds(items, k);
    assert order[0] in multiset(order);
    var i :| 0 <= i < |order| && order[i] == items[k];
  }

  /**
   A search of stored rows leads with the best-ranked one, and returns fewer rows than the limit only when
   every path that is stored is among them.
   */
  lemma {:induction false} SearchAnswers(rows: seq<IndexBuild.Stored>, query: string, vector: Similarity.Vector,
                                         sqrt: real -> real, how: Method, limit: int)
    requires limit >= 1
    ensures var chunks := Candidates(rows, query, vector, sqrt);
            var evidence := Take(FirstPerPath(Order(chunks, how), {}), AtLeastOne(limit));
            && (|evidence| < limit ==> forall i :: 0 <= i < |rows| ==> HasPath(evidence, rows[i].chunk.path))
            && (rows != [] ==> evidence != [] && evidence[0] == Order(chunks, how)[0])
  {
    hide Order, FirstPerPath, HasPath, Take, CandidateOf;
    var chunks := Candidates(rows, query, vector, sqrt);
    var order := Order(chunks, how);
    EvidenceIsBestPerPath(chunks, how, limit);
    assert forall i :: 0 <= i < |rows| ==> CandidateOf(rows[i], query, vector, sqrt).path == rows[i].chunk.path by {
      PathsOfCandidates(rows, query, vector, sqrt);
    }
    forall i | 0 <= i < |rows| ensures IsRanked(order, chunks[i]) {
      EveryChunkIsRanked(chunks, how, i);
    }
    if rows != [] {
      assert IsRanked(order, chunks[0]);
      FirstStays(order, limit);
    }
  }

  lemma {:induction false} PathsOfCandidates(rows: seq<IndexBuild.Stored>, query: string, vector: Similarity.Vector,
                                             sqrt: real -> real)
    ensures forall i :: 0 <= i < |rows| ==> CandidateOf(rows[i], query, vector, sqrt).path == rows[i].chunk.path
  {
  }

  ghost predicate IsRanked(order: seq<Scored>, chunk: Candidate) {
    exists k :: 0 <= k < |order| && order[k].chunk == chunk
  }

  lemma {:induction false} EveryChunkIsRanked(chunks: seq<Candidate>, how: Method, i: nat)
    requires i < |chunks|
    ensures IsRanked(Order(chunks, how), chunks[i])
  {
    hide SortDescending, FusedScore;
    var items := match how
      case Dense => DenseScores(chunks)
      case Lexical => LexicalScores(chunks)
      case Hybrid => FusedScores(chunks, DenseRanked(chunks), LexicalRanked(chunks));
    RankedHolds(items, i);
    var k :| 0 <= k < |SortDescending(items)| && SortDescending(items)[k] == items[i];
    assert Order(chunks, how)[k].chunk == chunks[i];
  }

  lemma {:induction false} FirstStays(order: seq<Scored>, limit: int)
    requires order != []
    ensures var evidence := Take(FirstPerPath(order, {}), AtLeastOne(limit));
            evidence != [] && evidence[0] == order[0]
  {
  }

  // ----- Hybrid search over the rows of a build -----

  /** Over the n rows a build stored every fused score is between 2/(60+n) and 2/61, and their sum is fixed. */
  lemma {:induction false} HybridScoresOfBuild(chunks: seq<FileChunks.Chunk>,
                                               previous: map<string, IndexBuild.Stored>,
                                               provider: IndexBuild.Provider, size: nat, dimensions: int,
                                               rows: seq<IndexBuild.Stored>, query: string, vector: Similarity.Vector,
                                               sqrt: real -> real, i: nat)
    requires size >= 1 && IndexBuild.Builds(chunks, previous, provider, size, dimensions, rows)
    requires IndexBuild.DistinctIds(chunks) && i < |rows|
    ensures var c := Candidates(rows, query, vector, sqrt);
            var dense, lexical := DenseRanked(c), LexicalRanked(c);
            && LowestScore(|rows|) <= FusedScore(dense, lexical, Uuid5(rows[i].chunk.id)) <= LowestScore(1)
            && SumOfFused(dense, dense, lexical) == 2.0 * ReciprocalSum(|rows|)
  {
    assert |rows| == |chunks| && forall j :: 0 <= j < |rows| ==> rows[j].chunk == chunks[j];
    hide *;
    var c := Candidates(rows, query, vector, sqrt);
    RowsAreDistinct(rows, chunks, query, vector, sqrt);
    HybridScores(c, i);
    CandidateKeepsId(rows[i], query, vector, sqrt);
  }

  lemma {:induction false} CandidateKeepsId(row: IndexBuild.Stored, query: string, vector: Similarity.Vector,
                                            sqrt: real -> real)
    ensures CandidateOf(row, query, vector, sqrt).id == Uuid5(row.chunk.id)
  {
  }

  /** Of two rows of a build, one that is ahead of the other in both rankings is ahead in the fused order. */
  lemma {:induction false} FusedOrderOfBuild(chunks: seq<FileChunks.Chunk>, previous: map<string, IndexBuild.Stored>,
                                             provider: IndexBuild.Provider, size: nat, dimensions: int,
                                             rows: seq<IndexBuild.Stored>, query: string, vector: Similarity.Vector,
                                             sqrt: real -> real, a: nat, b: nat)
    requires size >= 1 && IndexBuild.Builds(chunks, previous, provider, size, dimensions, rows)
    requires IndexBuild.DistinctIds(chunks) && a < |rows| && b < |rows|
    ensures var c := Candidates(rows, query, vector, sqrt);
            Ahead(DenseRanked(c), c[a], c[b]) && Ahead(LexicalRanked(c), c[a], c[b]) ==>
              Ahead(Order(c, Hybrid), c[a], c[b])
  {
    hide Order, DenseRanked, LexicalRanked, CandidateOf;
    var c := Candidates(rows, query, vector, sqrt);
    RowsAreDistinct(rows, chunks, query, vector, sqrt);
    var dense, lexical, order := DenseRanked(c), LexicalRanked(c), Order(c, Hybrid);
    if Ahead(dense, c[a], c[b]) && Ahead(lexical, c[a], c[b]) {
      var i, j :| 0 <= i < j < |dense| && dense[i].chunk == c[a] && dense[j].chunk == c[b];
      var k, l :| 0 <= k < l < |lexical| && lexical[k].chunk == c[a] && lexical[l].chunk == c[b];
      EveryChunkIsRanked(c, Hybrid, a);
      EveryChunkIsRanked(c, Hybrid, b);
      var p :| 0 <= p < |order| && order[p].chunk == c[a];
      var q :| 0 <= q < |order| && order[q].chunk == c[b];
      FusedOrderRespectsBoth(c, i, j, k, l, p, q);
    }
  }

  /** x is listed ahead of y. */
  ghost predicate Ahead(order: seq<Scored>, x: Candidate, y: Candidate) {
    exists i, j :: 0 <= i < j < |order| && order[i].chunk == x && order[j].chunk == y
  }

  // ----- What each ranking ranks by -----

  lemma {:induction false} SortedIn(items: seq<Scored>, k: nat) returns (i: nat)
    requires k < |SortDescending(items)|
    ensures i < |items| && items[i] == SortDescending(items)[k]
  {
    hide SortDescending;
    SortIsStableSort(items, 0.0);
    assert SortDescending(items)[k] in multiset(SortDescending(items));
    assert SortDescending(items)[k] in multiset(items);
    i :| 0 <= i < |items| && items[i] == SortDescending(items)[k];
  }

  lemma {:induction false} SortedSize(items: seq<Scored>)
    ensures |SortDescending(items)| == |items|
  {
    hide SortDescending;
    SortIsStableSort(items, 0.0);
    assert |multiset(SortDescending(items))| == |multiset(items)|;
  }

  /** The dense and the lexical ranking list every chunk once, by that score, highest first. */
  lemma {:induction false} SingleRankings(chunks: seq<Candidate>, k: nat)
    requires k < |chunks|
    ensures var order := Order(chunks, Dense);
            && |order| == |chunks| && Descending(order) && IsRanked(order, chunks[k])
            && order[k].score == order[k].chunk.dense && order[k].chunk in chunks
    ensures var order := Order(chunks, Lexical);
            && |order| == |chunks| && Descending(order) && IsRanked(order, chunks[k])
            && order[k].score == order[k].chunk.lexical && order[k].chunk in chunks
  {
    hide SortDescending, Descending, IsRanked;
    EveryChunkIsRanked(chunks, Dense, k);
    EveryChunkIsRanked(chunks, Lexical, k);
    SortIsStableSort(DenseScores(chunks), 0.0);
    SortIsStableSort(LexicalScores(chunks), 0.0);
    SortedSize(DenseScores(chunks));
    SortedSize(LexicalScores(chunks));
    var i := SortedIn(DenseScores(chunks), k);
    var j := SortedIn(LexicalScores(chunks), k);
  }

  /** The fused ranking lists every chunk by the sum of the reciprocals of 60 and its two ranks, highest first. */
  lemma {:induction false} FusedRanking(chunks: seq<Candidate>, k: nat) returns (d: nat, l: nat)
    requires UniqueIds(chunks) && k < |chunks|
    ensures var order := Order(chunks, Hybrid);
            && |order| == |chunks| && Descending(order) && IsRanked(order, chunks[k])
            && d < |Order(chunks, Dense)| && Order(chunks, Dense)[d].chunk == order[k].chunk
            && l < |Order(chunks, Lexical)| && Order(chunks, Lexical)[l].chunk == order[k].chunk
            && order[k].score == 1.0 / ((61 + d) as real) + 1.0 / ((61 + l) as real)
  {
    hide SortDescending, Descending, IsRanked, Contribution;
    var items := FusedScores(chunks, DenseRanked(chunks), LexicalRanked(chunks));
    EveryChunkIsRanked(chunks, Hybrid, k);
    SortIsStableSort(items, 0.0);
    SortedSize(items);
    var i := SortedIn(items, k);
    RankedHolds(DenseScores(chunks), i);
    RankedHolds(LexicalScores(chunks), i);
    d :| 0 <= d < |DenseRanked(chunks)| && DenseRanked(chunks)[d] == DenseScores(chunks)[i];
    l :| 0 <= l < |LexicalRanked(chunks)| && LexicalRanked(chunks)[l] == LexicalScores(chunks)[i];
    RankingsAgree(chunks);
    ContributionAt(DenseRanked(chunks), d);
    ContributionAt(LexicalRanked(chunks), l);
  }

  // ----- How many results -----

  ghost function Paths(items: seq<Scored>): set<string> {
    set i | 0 <= i < |items| :: items[i].chunk.path
  }

  lemma {:induction false} PathsOfCons(items: seq<Scored>)
    requires items != []
    ensures Paths(items) == {items[0].chunk.path} + Paths(items[1..])
  {
    assert items == [items[0]] + items[1..];
    forall path ensures path in Paths(items) <==> path in {items[0].chunk.path} + Paths(items[1..]) {
      if path in Paths(items[1..]) {
        var i :| 0 <= i < |items[1..]| && items[1..][i].chunk.path == path;
        assert items[i + 1].chunk.path == path;
      }
      if path in Paths(items) {
        var i :| 0 <= i < |items| && items[i].chunk.path == path;
        assert i > 0 ==> items[1..][i - 1].chunk.path == path;
      }
    }
  }

  lemma {:induction false} FirstPerPathSize(items: seq<Scored>, seen: set<string>)
    ensures |FirstPerPath(items, seen)| == |Paths(items) - seen|
  {
    if items == [] {
      assert Paths(items) == {};
    } else {
      var path := items[0].chunk.path;
      PathsOfCons(items);
      hide Paths;
      if path in seen {
        FirstPerPathSize(items[1..], seen);
        assert Paths(items) - seen == Paths(items[1..]) - seen;
      } else {
        FirstPerPathSize(items[1..], seen + {path});
        assert Paths(items) - seen == (Paths(items[1..]) - (seen + {path})) + {path};
      }
    }
  }

  /** A search returns one result per path up to the limit, and one for a limit below one. */
  lemma {:induction false} EvidenceCount(order: seq<Scored>, limit: int)
    ensures var evidence, most := Take(FirstPerPath(order, {}), AtLeastOne(limit)), if limit < 1 then 1 else limit;
            |evidence| == if |Paths(order)| < most then |Paths(order)| else most
  {
    FirstPerPathSize(order, {});
    assert Paths(order) - {} == Paths(order);
    hide FirstPerPath, Paths;
  }

  /** A row's candidate: its id and path, the normalized dot product with its vector, and its share of the query. */
  lemma {:induction false} CandidateIs(row: IndexBuild.Stored, query: string, vector: Similarity.Vector,
                                       sqrt: real -> real)
    requires Similarity.IsSqrt(sqrt)
    ensures var c, chunk := CandidateOf(row, query, vector, sqrt), row.chunk;
            && c.id == Uuid5(chunk.id) && c.path == chunk.path
            && Similarity.IsShare(c.lexical, Similarity.Tokenize(query),
                                  Similarity.RowTokens(chunk.searchText, chunk.symbolName, chunk.qualifiedName))
            && Similarity.IsCosine(c.dense, vector, if row.embedding.Some? then row.embedding.value else [], sqrt)
  {
    hide Similarity.Cosine, Similarity.LexicalScore, Similarity.IsCosine, Similarity.IsShare;
    var chunk := row.chunk;
    Similarity.CosineIsNormalizedDot(vector, if row.embedding.Some? then row.embedding.value else [], sqrt);
    Similarity.LexicalScoreIs(query, chunk.searchText, chunk.symbolName, chunk.qualifiedName);
  }
}
