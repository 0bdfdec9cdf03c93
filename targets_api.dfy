/**
 * The target routes of api/targets.py: the clamped list, the compounds of one
 * target sorted by score, and the fixed-page search.
 */
module TargetsApi {
  import opened Wrappers
  import opened Text
  import opened Frames
  import opened Pagination
  import opened TargetNames
  import opened TargetAggregate
  import opened TargetQueries
  import opened TargetService
  import opened CompoundsApi
  import CompoundService

  /** `get_targets`: the service list for the clamped page and page size; `gene_family` is read and dropped. */
  function GetTargets(dirs: seq<PredictionDir>, reference: Frame, aliases: Aliases, page: int, pageSize: int, geneFamily: string,
                      search: Option<string>, sortBy: string, sortOrder: string,
                      parse: FloatParser, round4: CompoundService.Rounder): Result<TargetList>
  {
    TargetsList(dirs, reference, aliases, ClampPage(page), ClampPageSize(pageSize), search, sortBy, sortOrder, parse, round4)
  }

  /**
   * A page of the list describes a page of at least 1, a page size between 1 and
   * 100, and holds at most that many items; the empty answer carries the clamped
   * page size.
   */
  lemma GetTargetsClamped(dirs: seq<PredictionDir>, reference: Frame, aliases: Aliases, page: int, pageSize: int, geneFamily: string,
                          search: Option<string>, sortBy: string, sortOrder: string,
                          parse: FloatParser, round4: CompoundService.Rounder)
    requires GetTargets(dirs, reference, aliases, page, pageSize, geneFamily, search, sortBy, sortOrder, parse, round4).Success?
    ensures var r := GetTargets(dirs, reference, aliases, page, pageSize, geneFamily, search, sortBy, sortOrder, parse, round4).value;
            && (r.NoTargets? ==> r.pageSize == ClampPageSize(pageSize))
            && (r.TargetPage? ==>
                  && r.pagination.page == ClampPage(page)
                  && r.pagination.pageSize == ClampPageSize(pageSize)
                  && |r.items| <= r.pagination.pageSize <= MaxPageSize)
  {
    var all := UniqueTargets(dirs, reference, aliases, parse).value;
    if !IsEmpty(all) {
      var sorted := Sorted(Searched(all, search), sortBy, sortOrder);
      ListOfTargetsItems(all, ClampPage(page), ClampPageSize(pageSize), search, sortBy, sortOrder, parse, round4, 0, "");
      assert ListOfTargets(all, ClampPage(page), ClampPageSize(pageSize), search, sortBy, sortOrder, parse, round4).value.pagination
             == Window(sorted.rows, ClampPage(page), ClampPageSize(pageSize)).info;
    }
  }

  /** The gene family filter is not passed on: the list does not depend on it. */
  lemma GeneFamilyIgnored(dirs: seq<PredictionDir>, reference: Frame, aliases: Aliases, page: int, pageSize: int, a: string, b: string,
                          search: Option<string>, sortBy: string, sortOrder: string,
                          parse: FloatParser, round4: CompoundService.Rounder)
    ensures GetTargets(dirs, reference, aliases, page, pageSize, a, search, sortBy, sortOrder, parse, round4)
            == GetTargets(dirs, reference, aliases, page, pageSize, b, search, sortBy, sortOrder, parse, round4)
  {
  }

  // ------------------------------------------------ compounds of one target

  /** `key=lambda x: x.get('score', 0), reverse=True`: may `x` come before `y`? Missing scores go last. */
  predicate ScoreFirst(x: Associated, y: Associated)
  {
    SortsBefore(x.hit.score, y.hit.score, false)
  }

  predicate ScoreSorted(s: seq<Associated>)
  {
    forall p, q :: 0 <= p < q < |s| ==> ScoreFirst(s[p], s[q])
  }

  /** Positions `0..n` are in score order except for the one at `j`, which is moving left. */
  predicate SortedExcept(s: seq<Associated>, n: int, j: int)
    requires n < |s|
  {
    forall p, q :: 0 <= p < q <= n && p != j && q != j ==> ScoreFirst(s[p], s[q])
  }

  /** The element at `j` may precede everything after it up to `n`. */
  predicate LeadsFrom(s: seq<Associated>, n: int, j: int)
    requires 0 <= j <= n < |s|
  {
    forall q :: j < q <= n ==> ScoreFirst(s[j], s[q])
  }

  /** `x` and `y` have equal scores (or both lack one): either may come first. */
  predicate Tie(x: Associated, y: Associated)
  {
    ScoreFirst(x, y) && ScoreFirst(y, x)
  }

  /** The elements of `s` tied with `v`, in their order in `s`. */
  function TiedWith(s: seq<Associated>, v: Associated): (r: seq<Associated>)
    ensures |r| <= |s|
    ensures forall x :: x in r <==> x in s && Tie(x, v)
  {
    if s == [] then [] else (if Tie(s[0], v) then [s[0]] else []) + TiedWith(s[1..], v)
  }

  lemma {:induction false} TiedWithAppend(a: seq<Associated>, b: seq<Associated>, v: Associated)
    ensures TiedWith(a + b, v) == TiedWith(a, v) + TiedWith(b, v)
  {
    if a == [] {
      assert a + b == b;
    } else {
      assert (a + b)[0] == a[0] && (a + b)[1..] == a[1..] + b;
      TiedWithAppend(a[1..], b, v);
    }
  }

  /** Two elements tied with the same `v` may come in either order. */
  lemma TiedTogether(x: Associated, y: Associated, v: Associated)
    ensures Tie(x, v) && Tie(y, v) ==> ScoreFirst(x, y)
  {
    if Tie(x, v) && Tie(y, v) {
      SortsBeforeTrans(x.hit.score, v.hit.score, y.hit.score, false);
    }
  }

  /** Swapping neighbours that are out of score order never reorders elements tied with each other. */
  lemma SwapKeepsTies(s: seq<Associated>, j: int, v: Associated)
    requires 0 < j < |s| && !ScoreFirst(s[j - 1], s[j])
    ensures TiedWith(s[j - 1 := s[j]][j := s[j - 1]], v) == TiedWith(s, v)
  {
    var x, y := s[j - 1], s[j];
    var head, tail := s[..j - 1], s[j + 1..];
    assert s == head + ([x, y] + tail);
    assert s[j - 1 := y][j := x] == head + ([y, x] + tail);
    TiedTogether(x, y, v);
    PairTies(x, y, v);
    TiedWithAppend(head, [x, y] + tail, v);
    TiedWithAppend(head, [y, x] + tail, v);
    TiedWithAppend([x, y], tail, v);
    TiedWithAppend([y, x], tail, v);
  }

  /** Two neighbours not both tied with `v` contribute the same elements in either order. */
  lemma PairTies(x: Associated, y: Associated, v: Associated)
    requires !(Tie(x, v) && Tie(y, v))
    ensures TiedWith([x, y], v) == TiedWith([y, x], v)
  {
    assert [x, y][1..] == [y] && [y, x][1..] == [x];
  }

  /**
   * `compounds.sort(key=..., reverse=True)`, as an insertion sort in place. Like
   * Python's sort it is stable: compounds with equal scores keep their order.
   */
  method SortByScore(a: array<Associated>)
    modifies a
    ensures ScoreSorted(a[..])
    ensures multiset(a[..]) == multiset(old(a[..]))
    ensures forall v :: TiedWith(a[..], v) == TiedWith(old(a[..]), v)
  {
    var i := 0;
    while i < a.Length
      invariant 0 <= i <= a.Length
      invariant forall p, q :: 0 <= p < q < i ==> ScoreFirst(a[p], a[q])
      invariant multiset(a[..]) == multiset(old(a[..]))
      invariant forall v :: TiedWith(a[..], v) == TiedWith(old(a[..]), v)
    {
      var j := i;
      while j > 0 && !ScoreFirst(a[j - 1], a[j])
        invariant 0 <= j <= i < a.Length
        invariant SortedExcept(a[..], i, j)
        invariant LeadsFrom(a[..], i, j)
        invariant multiset(a[..]) == multiset(old(a[..]))
        invariant forall v :: TiedWith(a[..], v) == TiedWith(old(a[..]), v)
      {
        ghost var s := a[..];
        a[j - 1], a[j] := a[j], a[j - 1];
        assert a[..] == s[j - 1 := s[j]][j := s[j - 1]];
        SwapStep(s, i, j);
        forall v ensures TiedWith(a[..], v) == TiedWith(s, v) {
          SwapKeepsTies(s, j, v);
        }
        j := j - 1;
      }
      InsertDone(a[..], i, j);
      i := i + 1;
    }
    assert a[..] == a[..a.Length];
  }

  /** Moving the element at `j` one place left keeps both invariants. */
  lemma SwapStep(s: seq<Associated>, n: int, j: int)
    requires 0 < j <= n < |s|
    requires SortedExcept(s, n, j) && LeadsFrom(s, n, j)
    requires !ScoreFirst(s[j - 1], s[j])
    ensures SortedExcept(s[j - 1 := s[j]][j := s[j - 1]], n, j - 1)
    ensures LeadsFrom(s[j - 1 := s[j]][j := s[j - 1]], n, j - 1)
  {
    SortsBeforeTotal(s[j - 1].hit.score, s[j].hit.score, false);
  }

  /** Once the moving element may follow its left neighbour, positions `0..n` are in order. */
  lemma InsertDone(s: seq<Associated>, n: int, j: int)
    requires 0 <= j <= n < |s|
    requires SortedExcept(s, n, j) && LeadsFrom(s, n, j)
    requires j == 0 || ScoreFirst(s[j - 1], s[j])
    ensures forall p, q :: 0 <= p < q <= n ==> ScoreFirst(s[p], s[q])
  {
    forall p, q | 0 <= p < q <= n ensures ScoreFirst(s[p], s[q]) {
      if q == j && p < j - 1 {
        SortsBeforeTrans(s[p].hit.score, s[j - 1].hit.score, s[j].hit.score, false);
      }
    }
  }

  /** The target fields the route reports: `target.get(...)` of three keys. */
  datatype TargetInfo = TargetInfo(geneName: Option<Cell>, geneSymbol: Option<Cell>, proteinNames: Option<Cell>)

  function InfoOf(target: Record): TargetInfo
  {
    TargetInfo(Lookup(target, "gene_name"), Lookup(target, "gene_symbol"), Lookup(target, "protein_names"))
  }

  datatype CompoundsReply = TargetNotFound | CompoundsReply(info: TargetInfo, compounds: seq<Associated>, total: nat)

  /**
   * `GET /targets/<name>/compounds`: "Target not found", or the target's
   * associated compounds sorted by score, highest first, with their number.
   */
  method GetTargetCompounds(dirs: seq<PredictionDir>, reference: Frame, aliases: Aliases, parse: FloatParser,
                            table: Frame, name: string) returns (r: Result<CompoundsReply>)
    ensures var d := TargetDetailOf(dirs, reference, aliases, parse, table, name);
            && (r.Failure? <==> d.Failure?)
            && (d.Failure? ==> r.error == d.error)
            && (d.Success? && d.value.None? ==> r == Success(TargetNotFound))
            && (d.Success? && d.value.Some? ==>
                  && r.Success? && r.value.CompoundsReply?
                  && r.value.info == InfoOf(d.value.value.target)
                  && multiset(r.value.compounds) == multiset(d.value.value.compounds)
                  && ScoreSorted(r.value.compounds)
                  && (forall v :: TiedWith(r.value.compounds, v) == TiedWith(d.value.value.compounds, v))
                  && r.value.total == |r.value.compounds| == d.value.value.count)
  {
    var detail := GetTargetDetail(dirs, reference, aliases, parse, table, name);
    if detail.Failure? {
      return Failure(detail.error);
    }
    if detail.value.None? {
      return Success(TargetNotFound);
    }
    var compounds := detail.value.value.compounds;
    var a := new Associated[|compounds|](i requires 0 <= i < |compounds| => compounds[i]);
    assert a[..] == compounds;
    SortByScore(a);
    var sorted := a[..];
    assert |sorted| == |multiset(sorted)| == |multiset(compounds)| == |compounds|;
    return Success(CompoundsReply(InfoOf(detail.value.value.target), sorted, |sorted|));
  }

  // ------------------------------------------------------------------ search

  /** The search asks the list for this many targets on page 1. */
  const SearchPageSize: int := 100

  datatype SearchReply = SearchReply(items: seq<Record>, total: nat)

  /** `search_targets` over the aggregate: page 1 of the list with the query as the search. */
  function SearchOver(all: Frame, query: string, parse: FloatParser, round4: CompoundService.Rounder): (r: Result<SearchReply>)
    ensures r.Success? ==> r.value.total == |r.value.items|
  {
    var list :- ListOfTargets(all, 1, SearchPageSize, Some(query), "prediction_count", "desc", parse, round4);
    var items := if list.NoTargets? then [] else list.items;
    Success(SearchReply(items, |items|))
  }

  /** `search_targets`: the search over all unique targets; the search type is read and dropped. */
  function SearchTargets(dirs: seq<PredictionDir>, reference: Frame, aliases: Aliases, query: string, searchType: string,
                         parse: FloatParser, round4: CompoundService.Rounder): Result<SearchReply>
  {
    var all :- UniqueTargets(dirs, reference, aliases, parse);
    SearchOver(all, query, parse, round4)
  }

  /**
   * A search returns at most 100 targets, each an aggregate row that contains a
   * non-empty query in one of the search fields, with that row's value under
   * every display key other than the average score and the counts.
   */
  lemma SearchOverMatch(all: Frame, query: string, parse: FloatParser, round4: CompoundService.Rounder, i: int, k: string)
    requires SearchOver(all, query, parse, round4).Success?
    ensures |SearchOver(all, query, parse, round4).value.items| <= SearchPageSize
    ensures var items := SearchOver(all, query, parse, round4).value.items;
            0 <= i < |items| ==>
              exists row :: row in all.rows &&
                (query != "" ==> exists c | c in TargetSearchFields && c in all.columns :: ContainsIgnoreCase(CellText(Get(row, c)), query)) &&
                (k in TargetColumns && k in all.columns && k != AvgScoreField && k !in CountFields ==>
                   Lookup(items[i], k) == Some(FillCell(Get(row, k), Str(""))))
  {
    if !IsEmpty(all) {
      var search := Some(query);
      ListOfTargetsItems(all, 1, SearchPageSize, search, "prediction_count", "desc", parse, round4, i, k);
      var items := SearchOver(all, query, parse, round4).value.items;
      if 0 <= i < |items| {
        var searched := Searched(all, search);
        var sorted := Sorted(searched, "prediction_count", "desc");
        var row := sorted.rows[i];
        assert row in multiset(sorted.rows);
        assert row in searched.rows;
      }
    }
  }

  /** The search type never changes the result. */
  lemma SearchTypeIgnored(dirs: seq<PredictionDir>, reference: Frame, aliases: Aliases, query: string, a: string, b: string,
                          parse: FloatParser, round4: CompoundService.Rounder)
    ensures SearchTargets(dirs, reference, aliases, query, a, parse, round4) == SearchTargets(dirs, reference, aliases, query, b, parse, round4)
  {
  }
}
