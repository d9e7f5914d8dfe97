/**
 * The web front end's label store (Pinia, web/src/stores/label.ts): the label
 * list, the system statistics and a search query, the lists and figures
 * computed from them, and the local list updates that follow a create, update
 * or delete. Server answers are parameters; an `Err` stands for the error the
 * awaited call throws, which every action rethrows after clearing `loading`.
 */
module WebLabelStore {
  import opened Wrappers
  import opened Strs
  import opened JsArrays
  import opened Sorting
  import opened Store
  import opened Services
  import opened ApiClient
  import opened LabelLists

  /** The figures `statsOverview` shows. */
  datatype Overview = Overview(totalLabels: int, usedLabels: int, unusedLabels: int, totalTexts: int, labeledTexts: int)

  /**
   * The `filteredLabels` test: the lower-cased name, or a non-empty lower-cased
   * description, contains the lower-cased query as typed (not trimmed).
   */
  predicate MatchesQuery(l: LabelRow, query: string)
  {
    Contains(LowerAscii(l.name), LowerAscii(query))
    || (l.description.Some? && l.description.value != [] && Contains(LowerAscii(l.description.value), LowerAscii(query)))
  }

  function MatchesQueryTest(query: string): LabelRow -> bool
  {
    (l: LabelRow) => MatchesQuery(l, query)
  }

  /** `filteredLabels`: every label for a blank query, otherwise the matching ones in list order. */
  function FilteredLabels(labels: seq<LabelRow>, query: string): (r: seq<LabelRow>)
    ensures JsTrim(query) == [] ==> r == labels
    ensures JsTrim(query) != [] ==> forall l :: l in r <==> l in labels && MatchesQuery(l, query)
    ensures |r| <= |labels|
  {
    if JsTrim(query) == [] then labels
    else
      FilterMembers(labels, MatchesQueryTest(query));
      Filter(labels, MatchesQueryTest(query))
  }

  /**
   * Only the blank test trims: a query with a leading space must match with that
   * space, so " a" finds nothing in a label named "ab" that "a" finds.
   */
  lemma QueryNotTrimmed(l: LabelRow)
    requires l == LabelRow(1, "ab", None)
    ensures FilteredLabels([l], "a") == [l]
    ensures FilteredLabels([l], " a") == []
  {
    PlainQueryFinds(l);
    SpacedQueryMisses(l);
  }

  lemma PlainQueryFinds(l: LabelRow)
    requires l == LabelRow(1, "ab", None)
    ensures FilteredLabels([l], "a") == [l]
  {
    NotBlank("a", 0);
    FilteredOne(l, "a");
    PlainMatch(l);
  }

  lemma SpacedQueryMisses(l: LabelRow)
    requires l == LabelRow(1, "ab", None)
    ensures FilteredLabels([l], " a") == []
  {
    NotBlank(" a", 1);
    FilteredOne(l, " a");
    SpacedMiss(l);
  }

  /** Searching a one-label list for a non-blank query keeps the label exactly when it matches. */
  lemma FilteredOne(l: LabelRow, query: string)
    requires JsTrim(query) != []
    ensures FilteredLabels([l], query) == if MatchesQuery(l, query) then [l] else []
  {
    FilterOne(l, MatchesQueryTest(query));
  }

  lemma PlainMatch(l: LabelRow)
    requires l == LabelRow(1, "ab", None)
    ensures MatchesQuery(l, "a")
  {
    NoCapitals("ab");
    NoCapitals("a");
    assert InfixAt("ab", "a", 0);
  }

  lemma SpacedMiss(l: LabelRow)
    requires l == LabelRow(1, "ab", None)
    ensures !MatchesQuery(l, " a")
  {
    NoCapitals("ab");
    NoCapitals(" a");
    assert !InfixAt("ab", " a", 0) by { assert "ab"[0] != " a"[0]; }
  }

  /** A query holding a non-blank character is not blank. */
  lemma NotBlank(query: string, i: nat)
    requires i < |query| && !JsSpace(query[i])
    ensures JsTrim(query) != []
  {
    assert !AllSpace(query, JsSpace);
  }

  /** Lower-casing leaves a string without capitals as it is. */
  lemma NoCapitals(s: string)
    requires forall i :: 0 <= i < |s| ==> !('A' <= s[i] <= 'Z')
    ensures LowerAscii(s) == s
  {
  }

  /** Filtering a one-element list keeps the element exactly when it passes. */
  lemma FilterOne(l: LabelRow, p: LabelRow -> bool)
    ensures Filter([l], p) == if p(l) then [l] else []
  {
    assert [l][1..] == [];
  }

  /** The statistics keyed by label name, built entry by entry, so a later entry replaces an earlier one. */
  function StatsMap(stats: seq<LabelStat>): (m: map<string, LabelStat>)
    ensures forall name :: name in m <==> exists k :: 0 <= k < |stats| && stats[k].name == name
    ensures forall name :: name in m ==> m[name].name == name && m[name] in stats
  {
    if stats == [] then map[]
    else
      var init := stats[..|stats| - 1];
      var last := stats[|stats| - 1];
      var m := StatsMap(init)[last.name := last];
      assert forall k :: 0 <= k < |init| ==> init[k] == stats[k];
      m
  }

  /** Each name maps to its last entry. */
  lemma {:induction false} StatsMapLastWins(stats: seq<LabelStat>, k: nat)
    requires k < |stats|
    requires forall j :: k < j < |stats| ==> stats[j].name != stats[k].name
    ensures StatsMap(stats)[stats[k].name] == stats[k]
  {
    var n := |stats| - 1;
    if k < n {
      var init := stats[..n];
      assert init[k] == stats[k];
      assert StatsMap(stats) == StatsMap(init)[stats[n].name := stats[n]];
      StatsMapLastWins(init, k);
    }
  }

  /** `labelStatsMap`: empty until statistics arrive. */
  function LabelStatsMap(systemStats: Option<SystemStats>): (m: map<string, LabelStat>)
    ensures systemStats.None? ==> m == map[]
  {
    match systemStats
    case None => map[]
    case Some(s) => StatsMap(s.labelStats)
  }

  /** `labelStatsMap.get(name)?.count || 0`: how often a label is used, 0 when it has no entry. */
  function UsageCount(m: map<string, LabelStat>, name: string): int
  {
    if name in m then m[name].count else 0
  }

  function UsageKey(m: map<string, LabelStat>): LabelRow -> int
  {
    (l: LabelRow) => UsageCount(m, l.name)
  }

  /** `labelsByUsage`: the filtered labels, most used first, equal counts in list order. */
  function LabelsByUsage(labels: seq<LabelRow>, query: string, systemStats: Option<SystemStats>): (r: seq<LabelRow>)
    ensures |r| == |FilteredLabels(labels, query)|
  {
    SortDesc(FilteredLabels(labels, query), UsageKey(LabelStatsMap(systemStats)))
  }

  /** `labelsByUsage` sorts by usage without losing, adding or reordering equally used labels. */
  lemma LabelsByUsageFacts(labels: seq<LabelRow>, query: string, systemStats: Option<SystemStats>, c: int)
    ensures var key := UsageKey(LabelStatsMap(systemStats)); var r := LabelsByUsage(labels, query, systemStats);
      SortedDesc(r, key) && multiset(r) == multiset(FilteredLabels(labels, query)) &&
      WithKey(r, key, c) == WithKey(FilteredLabels(labels, query), key, c)
  {
    var key := UsageKey(LabelStatsMap(systemStats));
    SortDescPermutes(FilteredLabels(labels, query), key);
    SortDescStable(FilteredLabels(labels, query), key, c);
  }

  function UnusedTest(m: map<string, LabelStat>): LabelRow -> bool
  {
    (l: LabelRow) => UsageCount(m, l.name) == 0
  }

  function UsedTest(m: map<string, LabelStat>): LabelRow -> bool
  {
    (l: LabelRow) => UsageCount(m, l.name) != 0
  }

  /** `unusedLabels`: the filtered labels whose usage count is 0, in list order. */
  function UnusedLabels(labels: seq<LabelRow>, query: string, systemStats: Option<SystemStats>): (r: seq<LabelRow>)
    ensures forall l :: l in r <==> l in FilteredLabels(labels, query) && UsageCount(LabelStatsMap(systemStats), l.name) == 0
    ensures |r| <= |labels|
  {
    var m := LabelStatsMap(systemStats);
    FilterMembers(FilteredLabels(labels, query), UnusedTest(m));
    Filter(FilteredLabels(labels, query), UnusedTest(m))
  }

  /** `systemStats.value?.field || 0`. */
  function StatOrZero(systemStats: Option<SystemStats>, f: SystemStats -> int): int
  {
    if systemStats.Some? then f(systemStats.value) else 0
  }

  /**
   * `statsOverview` as written: the total counts every label, but the unused count
   * comes from `unusedLabels`, which only looks at the labels the query keeps.
   */
  function StatsOverview(labels: seq<LabelRow>, query: string, systemStats: Option<SystemStats>): (r: Overview)
    ensures r.usedLabels + r.unusedLabels == r.totalLabels == |labels|
    ensures r.usedLabels >= 0 && r.unusedLabels >= 0
  {
    var unused := UnusedLabels(labels, query, systemStats);
    Overview(|labels|, |labels| - |unused|, |unused|,
      StatOrZero(systemStats, (s: SystemStats) => s.totalTexts),
      StatOrZero(systemStats, (s: SystemStats) => s.labeledTexts))
  }

  /** The query "a" keeps the label named "a" and hides the one named "b". */
  lemma HiddenExampleFilter(a: LabelRow, b: LabelRow)
    requires a == LabelRow(1, "a", None) && b == LabelRow(2, "b", None)
    ensures FilteredLabels([a, b], "a") == [a]
  {
    NotBlank("a", 0);
    NameMatch(a);
    NameMiss(b);
    FilterTwo(a, b, MatchesQueryTest("a"));
  }

  lemma NameMatch(a: LabelRow)
    requires a == LabelRow(1, "a", None)
    ensures MatchesQuery(a, "a")
  {
    NoCapitals("a");
    assert InfixAt("a", "a", 0);
  }

  lemma NameMiss(b: LabelRow)
    requires b == LabelRow(2, "b", None)
    ensures !MatchesQuery(b, "a")
  {
    NoCapitals("a");
    NoCapitals("b");
    assert !InfixAt("b", "a", 0) by { assert "b"[0] != "a"[0]; }
  }

  /** Filtering a two-element list tests each element in turn. */
  lemma FilterTwo(a: LabelRow, b: LabelRow, p: LabelRow -> bool)
    ensures Filter([a, b], p) == (if p(a) then [a] else []) + (if p(b) then [b] else [])
  {
    assert [a, b][1..] == [b];
    FilterOne(b, p);
  }

  /**
   * With a search under way the overview counts a hidden label that nobody uses
   * as used: two unused labels and the query "a" give one used label.
   */
  lemma OverviewCountsHiddenAsUsed(a: LabelRow, b: LabelRow)
    requires a == LabelRow(1, "a", None) && b == LabelRow(2, "b", None)
    ensures UsageCount(LabelStatsMap(None), a.name) == 0 && UsageCount(LabelStatsMap(None), b.name) == 0
    ensures StatsOverview([a, b], "a", None).usedLabels == 1
  {
    HiddenExampleFilter(a, b);
    assert UnusedLabels([a, b], "a", None) == Filter([a], UnusedTest(map[]));
    assert [a][1..] == [];
  }

  /** The overview with both counts taken over every label, whatever the query. */
  function StatsOverviewAll(labels: seq<LabelRow>, systemStats: Option<SystemStats>): (r: Overview)
    ensures r.usedLabels + r.unusedLabels == r.totalLabels == |labels|
    ensures r.usedLabels == |Filter(labels, UsedTest(LabelStatsMap(systemStats)))|
  {
    var m := LabelStatsMap(systemStats);
    var unused := Filter(labels, UnusedTest(m));
    FilterComplement(labels, UsedTest(m), UnusedTest(m));
    Overview(|labels|, |labels| - |unused|, |unused|,
      StatOrZero(systemStats, (s: SystemStats) => s.totalTexts),
      StatOrZero(systemStats, (s: SystemStats) => s.labeledTexts))
  }

  /** Without a query both overviews agree. */
  lemma OverviewsAgreeWithoutQuery(labels: seq<LabelRow>, query: string, systemStats: Option<SystemStats>)
    requires JsTrim(query) == []
    ensures StatsOverview(labels, query, systemStats) == StatsOverviewAll(labels, systemStats)
  {
  }

  class LabelStore {
    var labels: seq<LabelRow>
    var loading: bool
    var systemStats: Option<SystemStats>
    var searchQuery: string

    constructor ()
      ensures labels == [] && !loading && systemStats.None? && searchQuery == []
    {
      labels := [];
      loading := false;
      systemStats := None;
      searchQuery := [];
    }

    /** `hasLabels`. */
    predicate HasLabels()
      reads this
    {
      labels != []
    }

    method SetLoading(value: bool)
      modifies this`loading
      ensures loading == value
    {
      loading := value;
    }

    method SetSearchQuery(query: string)
      modifies this`searchQuery
      ensures searchQuery == query
    {
      searchQuery := query;
    }

    /** `fetchLabels`: the server's list replaces the local one. */
    method FetchLabels(response: Result<seq<LabelRow>, ApiError>) returns (r: Result<seq<LabelRow>, ApiError>)
      modifies this`labels, this`loading
      ensures r == response && !loading
      ensures labels == if response.Ok? then response.value else old(labels)
    {
      loading := true;
      if response.Ok? {
        labels := response.value;
      }
      r := response;
      loading := false;
    }

    /** `fetchSystemStats`: the statistics are kept when they arrive; `loading` is not touched. */
    method FetchSystemStats(response: Result<SystemStats, ApiError>) returns (r: Result<SystemStats, ApiError>)
      modifies this`systemStats
      ensures r == response
      ensures systemStats == if response.Ok? then Some(response.value) else old(systemStats)
    {
      if response.Ok? {
        systemStats := Some(response.value);
      }
      r := response;
    }

    /**
     * `createLabel`: the created label is appended, then the statistics are fetched
     * again; when that fetch fails the call fails, but the label stays appended.
     */
    method CreateLabel(created: Result<LabelRow, ApiError>, refreshed: Result<SystemStats, ApiError>) returns (r: Result<LabelRow, ApiError>)
      modifies this`labels, this`loading, this`systemStats
      ensures !loading
      ensures created.Err? ==> r == created && labels == old(labels) && systemStats == old(systemStats)
      ensures created.Ok? ==> labels == old(labels) + [created.value] && HasLabels()
      ensures created.Ok? && refreshed.Ok? ==> r == created && systemStats == Some(refreshed.value)
      ensures created.Ok? && refreshed.Err? ==> r == Err(refreshed.error) && systemStats == old(systemStats)
    {
      loading := true;
      if created.Err? {
        loading := false;
        return created;
      }
      labels := labels + [created.value];
      var s := FetchSystemStats(refreshed);
      r := if s.Ok? then created else Err(s.error);
      loading := false;
    }

    /**
     * `updateLabel`: the first label with the id is replaced by the server's
     * version and the others stay; no local label with the id means no local change.
     */
    method UpdateLabel(id: int, updated: Result<LabelRow, ApiError>, refreshed: Result<SystemStats, ApiError>) returns (r: Result<LabelRow, ApiError>)
      modifies this`labels, this`loading, this`systemStats
      ensures !loading
      ensures updated.Err? ==> r == updated && labels == old(labels) && systemStats == old(systemStats)
      ensures updated.Ok? ==> labels == ReplaceFirst(old(labels), HasId(id), updated.value)
      ensures updated.Ok? ==> var i := FindIndex(old(labels), HasId(id));
        (i == -1 ==> labels == old(labels)) &&
        (i != -1 ==> labels[i] == updated.value && forall k :: 0 <= k < |labels| && k != i ==> labels[k] == old(labels)[k])
      ensures updated.Ok? && refreshed.Ok? ==> r == updated && systemStats == Some(refreshed.value)
      ensures updated.Ok? && refreshed.Err? ==> r == Err(refreshed.error) && systemStats == old(systemStats)
    {
      loading := true;
      if updated.Err? {
        loading := false;
        return updated;
      }
      ReplaceFirstFacts(labels, HasId(id), updated.value);
      var index := FindIndex(labels, HasId(id));
      if index != -1 {
        labels := labels[index := updated.value];
      }
      var s := FetchSystemStats(refreshed);
      r := if s.Ok? then updated else Err(s.error);
      loading := false;
    }

    /** `deleteLabel`: every label with the id leaves the list, the rest keep their order. */
    method DeleteLabel(id: int, deleted: Option<ApiError>, refreshed: Result<SystemStats, ApiError>) returns (r: Option<ApiError>)
      modifies this`labels, this`loading, this`systemStats
      ensures !loading
      ensures deleted.Some? ==> r == deleted && labels == old(labels) && systemStats == old(systemStats)
      ensures deleted.None? ==> labels == WithoutId(old(labels), id) && GetLabelById(id).None?
      ensures deleted.None? && refreshed.Ok? ==> r.None? && systemStats == Some(refreshed.value)
      ensures deleted.None? && refreshed.Err? ==> r == Some(refreshed.error) && systemStats == old(systemStats)
    {
      loading := true;
      if deleted.Some? {
        loading := false;
        return deleted;
      }
      labels := WithoutId(labels, id);
      DeletedNotFound(old(labels), id);
      var s := FetchSystemStats(refreshed);
      r := if s.Ok? then None else Some(s.error);
      loading := false;
    }

    /** `getLabelById`. */
    function GetLabelById(id: int): (r: Option<LabelRow>)
      reads this
      ensures r.Some? ==> r.value in labels && r.value.id == id
      ensures r.None? <==> forall k :: 0 <= k < |labels| ==> labels[k].id != id
    {
      LabelById(labels, id)
    }

    /** `getLabelByName`. */
    function GetLabelByName(name: string): (r: Option<LabelRow>)
      reads this
      ensures r.Some? ==> r.value in labels && r.value.name == name
      ensures r.None? <==> forall k :: 0 <= k < |labels| ==> labels[k].name != name
    {
      LabelByName(labels, name)
    }

    /** `getLabelStats`: the last statistics entry for the name, if any. */
    function GetLabelStats(name: string): (r: Option<LabelStat>)
      reads this
      ensures r.Some? ==> systemStats.Some? && r.value.name == name && r.value in systemStats.value.labelStats
      ensures r.None? <==> name !in LabelStatsMap(systemStats)
    {
      var m := LabelStatsMap(systemStats);
      if name in m then Some(m[name]) else None
    }
  }
}
