/**
 Story clusters folded into the article list. Clusters may overlap, so the fold is
 greedy: candidates are ordered by their first article and absorb what earlier ones
 left. The row of an absorbed group is its earliest article.
 */
module StoryRows {
  import opened Wrappers

  type Id = string

  datatype Article = Article(id: Id, title: string)

  datatype Cluster = Cluster(id: string, members: seq<Id>)

  datatype Row = Row(article: Article, cluster: Option<Cluster>)

  /** A cluster with its articles on the page, or with those it absorbs. */
  datatype Group = Group(cluster: Cluster, articles: seq<Article>)

  function Ids(articles: seq<Article>): set<Id> {
    if articles == [] then {} else {articles[0].id} + Ids(articles[1..])
  }

  predicate Distinct(articles: seq<Article>) {
    articles == [] || (articles[0].id !in Ids(articles[1..]) && Distinct(articles[1..]))
  }

  function MemberIds(c: Cluster): set<Id> {
    set m | m in c.members
  }

  /** The articles whose id is listed, in their order. */
  function Select(articles: seq<Article>, ids: set<Id>): seq<Article> {
    if articles == [] then []
    else (if articles[0].id in ids then [articles[0]] else []) + Select(articles[1..], ids)
  }

  function Without(articles: seq<Article>, ids: set<Id>): seq<Article> {
    if articles == [] then []
    else (if articles[0].id in ids then [] else [articles[0]]) + Without(articles[1..], ids)
  }

  // ---------- Candidates and their order ----------

  function Candidates(articles: seq<Article>, clusters: seq<Cluster>): (r: seq<Group>)
    ensures forall i :: 0 <= i < |r| ==> |r[i].articles| > 1
  {
    if clusters == [] then []
    else
      var here := Select(articles, MemberIds(clusters[0]));
      (if |here| > 1 then [Group(clusters[0], here)] else []) + Candidates(articles, clusters[1..])
  }

  /** The position map of the source: a later duplicate id wins, an unknown id counts as 0. */
  function Position(articles: seq<Article>, id: Id): nat {
    if articles == [] then 0
    else if articles[|articles| - 1].id == id then |articles| - 1
    else Position(articles[..|articles| - 1], id)
  }

  /** The comparator is not positive: earlier first article, then more articles. */
  predicate NotAfter(articles: seq<Article>, left: Group, right: Group)
    requires left.articles != [] && right.articles != []
  {
    var l, r := Position(articles, left.articles[0].id), Position(articles, right.articles[0].id);
    l < r || (l == r && |left.articles| >= |right.articles|)
  }

  predicate AllProper(groups: seq<Group>) {
    forall i :: 0 <= i < |groups| ==> |groups[i].articles| > 1
  }

  /** Puts a group before the first one it may precede, as a stable sort does. */
  function Insert(articles: seq<Article>, g: Group, sorted: seq<Group>): (r: seq<Group>)
    requires |g.articles| > 1 && AllProper(sorted)
    ensures AllProper(r)
  {
    if sorted == [] || NotAfter(articles, g, sorted[0]) then [g] + sorted
    else [sorted[0]] + Insert(articles, g, sorted[1..])
  }

  function Sort(articles: seq<Article>, groups: seq<Group>): (r: seq<Group>)
    requires AllProper(groups)
    ensures AllProper(r)
  {
    if groups == [] then [] else Insert(articles, groups[0], Sort(articles, groups[1..]))
  }

  lemma {:induction false} InsertKeepsAll(articles: seq<Article>, g: Group, sorted: seq<Group>)
    requires |g.articles| > 1 && AllProper(sorted)
    ensures multiset(Insert(articles, g, sorted)) == multiset(sorted) + multiset{g}
  {
    if sorted != [] && !NotAfter(articles, g, sorted[0]) {
      InsertKeepsAll(articles, g, sorted[1..]);
      assert sorted == [sorted[0]] + sorted[1..];
    }
  }

  lemma {:induction false} SortKeepsAll(articles: seq<Article>, groups: seq<Group>)
    requires AllProper(groups)
    ensures multiset(Sort(articles, groups)) == multiset(groups)
  {
    hide Insert, NotAfter;
    if groups != [] {
      SortKeepsAll(articles, groups[1..]);
      InsertKeepsAll(articles, groups[0], Sort(articles, groups[1..]));
      assert groups == [groups[0]] + groups[1..];
    }
  }

  predicate Sorted(articles: seq<Article>, groups: seq<Group>)
    requires AllProper(groups)
  {
    forall i, j :: 0 <= i < j < |groups| ==> NotAfter(articles, groups[i], groups[j])
  }

  lemma {:induction false} InsertSorts(articles: seq<Article>, g: Group, sorted: seq<Group>)
    requires |g.articles| > 1 && AllProper(sorted) && Sorted(articles, sorted)
    ensures Sorted(articles, Insert(articles, g, sorted))
  {
    if sorted != [] && !NotAfter(articles, g, sorted[0]) {
      InsertSorts(articles, g, sorted[1..]);
      InsertKeepsAll(articles, g, sorted[1..]);
      var tail := Insert(articles, g, sorted[1..]);
      forall j | 0 <= j < |tail|
        ensures NotAfter(articles, sorted[0], tail[j])
      {
        assert tail[j] in multiset(tail);
        assert tail[j] == g || tail[j] in sorted[1..];
      }
    }
  }

  lemma {:induction false} SortSorts(articles: seq<Article>, groups: seq<Group>)
    requires AllProper(groups)
    ensures Sorted(articles, Sort(articles, groups))
  {
    if groups != [] {
      SortSorts(articles, groups[1..]);
      InsertSorts(articles, groups[0], Sort(articles, groups[1..]));
    }
  }

  // ---------- The greedy fold ----------

  /** The groups that get a row, each holding what it absorbs. */
  function Absorb(candidates: seq<Group>, hidden: set<Id>): seq<Group> {
    if candidates == [] then []
    else
      var available := Without(candidates[0].articles, hidden);
      if |available| < 2 then Absorb(candidates[1..], hidden)
      else [Group(candidates[0].cluster, available)] + Absorb(candidates[1..], hidden + Ids(available))
  }

  function HiddenIds(groups: seq<Group>): set<Id> {
    if groups == [] then {} else Ids(groups[0].articles) + HiddenIds(groups[1..])
  }

  /** The row article of each group. */
  function Primaries(groups: seq<Group>): map<Id, Cluster>
    requires AllProper(groups)
  {
    if groups == [] then map[]
    else map[groups[0].articles[0].id := groups[0].cluster] + Primaries(groups[1..])
  }

  /** The rows of one article: its cluster's row, none if absorbed, else a plain row. */
  function RowOf(a: Article, hidden: set<Id>, primaries: map<Id, Cluster>): seq<Row> {
    if a.id in primaries then [Row(a, Some(primaries[a.id]))]
    else if a.id in hidden then []
    else [Row(a, None)]
  }

  function RowsFor(articles: seq<Article>, hidden: set<Id>, primaries: map<Id, Cluster>): seq<Row> {
    if articles == [] then [] else RowOf(articles[0], hidden, primaries) + RowsFor(articles[1..], hidden, primaries)
  }

  function Folded(articles: seq<Article>, clusters: seq<Cluster>): (groups: seq<Group>)
    ensures AllProper(groups)
  {
    var groups := Absorb(Sort(articles, Candidates(articles, clusters)), {});
    AbsorbIsProper(Sort(articles, Candidates(articles, clusters)), {});
    groups
  }

  lemma {:induction false} AbsorbIsProper(candidates: seq<Group>, hidden: set<Id>)
    ensures AllProper(Absorb(candidates, hidden))
    decreases |candidates|
  {
    if candidates != [] {
      var available := Without(candidates[0].articles, hidden);
      AbsorbIsProper(candidates[1..], hidden);
      AbsorbIsProper(candidates[1..], hidden + Ids(available));
    }
  }

  function ListRows(articles: seq<Article>, clusters: seq<Cluster>): seq<Row> {
    var groups := Folded(articles, clusters);
    RowsFor(articles, HiddenIds(groups), Primaries(groups))
  }

  /** `storyClusterListRows`; absent clusters are an empty list. */
  method StoryClusterListRows(articles: seq<Article>, clusters: Option<seq<Cluster>>) returns (rows: seq<Row>)
    ensures rows == ListRows(articles, if clusters.Some? then clusters.value else [])
  {
    if clusters.None? || clusters.value == [] {
      PlainRows(articles);
      rows := seq(|articles|, i requires 0 <= i < |articles| => Row(articles[i], None));
      return;
    }
    var candidates := Sort(articles, Candidates(articles, clusters.value));
    var hiddenArticleIds, clusterByPrimaryArticleId := AbsorbCandidates(candidates);
    rows := CollectRows(articles, hiddenArticleIds, clusterByPrimaryArticleId);
  }

  /** The loop over the sorted candidates. */
  method AbsorbCandidates(candidates: seq<Group>) returns (hidden: set<Id>, primaries: map<Id, Cluster>)
    ensures AllProper(Absorb(candidates, {}))
    ensures hidden == HiddenIds(Absorb(candidates, {})) && primaries == Primaries(Absorb(candidates, {}))
  {
    hide AllProper, Without, Ids;
    AbsorbIsProper(candidates, {});
    ghost var groups := Absorb(candidates, {});
    hidden, primaries := {}, map[];
    assert candidates[0..] == candidates;
    assert {} + HiddenIds(groups) == HiddenIds(groups) && map[] + Primaries(groups) == Primaries(groups);
    for i := 0 to |candidates|
      invariant AllProper(Absorb(candidates[i..], hidden))
      invariant hidden + HiddenIds(Absorb(candidates[i..], hidden)) == HiddenIds(groups)
      invariant primaries + Primaries(Absorb(candidates[i..], hidden)) == Primaries(groups)
    {
      var availableArticles := Without(candidates[i].articles, hidden);
      AbsorbStep(candidates, i, hidden, primaries);
      if |availableArticles| >= 2 {
        primaries := primaries[availableArticles[0].id := candidates[i].cluster];
        hidden := hidden + Ids(availableArticles);
      }
    }
    assert Absorb([], hidden) == [];
    assert hidden + {} == hidden && primaries + map[] == primaries;
  }

  /** The closing `flatMap`. */
  method CollectRows(articles: seq<Article>, hidden: set<Id>, primaries: map<Id, Cluster>) returns (rows: seq<Row>)
    ensures rows == RowsFor(articles, hidden, primaries)
  {
    rows := [];
    for i := 0 to |articles|
      invariant rows + RowsFor(articles[i..], hidden, primaries) == RowsFor(articles, hidden, primaries)
    {
      var id := articles[i].id;
      RowsForStep(articles[i..], hidden, primaries, rows);
      assert articles[i..][1..] == articles[i + 1..];
      if id in primaries {
        rows := rows + [Row(articles[i], Some(primaries[id]))];
      } else if id !in hidden {
        rows := rows + [Row(articles[i], None)];
      }
    }
    assert rows + [] == rows;
  }

  lemma RowsForStep(articles: seq<Article>, hidden: set<Id>, primaries: map<Id, Cluster>, before: seq<Row>)
    requires articles != []
    ensures before + RowsFor(articles, hidden, primaries)
         == before + RowOf(articles[0], hidden, primaries) + RowsFor(articles[1..], hidden, primaries)
  {
  }

  lemma {:induction false} PlainRows(articles: seq<Article>)
    ensures ListRows(articles, []) == seq(|articles|, i requires 0 <= i < |articles| => Row(articles[i], None))
    decreases |articles|
  {
    assert ListRows(articles, []) == RowsFor(articles, {}, map[]);
    if articles != [] {
      PlainRows(articles[1..]);
      assert ListRows(articles[1..], []) == RowsFor(articles[1..], {}, map[]);
    }
  }

  /** One turn of the loop over the candidates. */
  lemma AbsorbStep(candidates: seq<Group>, i: nat, hidden: set<Id>, primaries: map<Id, Cluster>)
    requires i < |candidates| && AllProper(Absorb(candidates[i..], hidden))
    ensures var available := Without(candidates[i].articles, hidden);
            var hidden' := if |available| < 2 then hidden else hidden + Ids(available);
            var primaries' :=
              if |available| < 2 then primaries else primaries[available[0].id := candidates[i].cluster];
            && AllProper(Absorb(candidates[i + 1..], hidden'))
            && hidden' + HiddenIds(Absorb(candidates[i + 1..], hidden'))
            == hidden + HiddenIds(Absorb(candidates[i..], hidden))
            && primaries' + Primaries(Absorb(candidates[i + 1..], hidden'))
            == primaries + Primaries(Absorb(candidates[i..], hidden))
  {
    var available := Without(candidates[i].articles, hidden);
    assert candidates[i..][1..] == candidates[i + 1..];
    AbsorbIsProper(candidates[i + 1..], hidden);
    AbsorbIsProper(candidates[i + 1..], hidden + Ids(available));
    if |available| >= 2 {
      var rest := Absorb(candidates[i + 1..], hidden + Ids(available));
      assert Absorb(candidates[i..], hidden)[1..] == rest;
    }
  }

  // ---------- What the fold conserves ----------

  lemma {:induction false} SelectIds(articles: seq<Article>, ids: set<Id>)
    ensures Ids(Select(articles, ids)) == Ids(articles) * ids
    ensures Distinct(articles) ==> Distinct(Select(articles, ids))
  {
    if articles != [] {
      SelectIds(articles[1..], ids);
      assert Select(articles, ids)[if articles[0].id in ids then 1 else 0..] == Select(articles[1..], ids);
    }
  }

  lemma {:induction false} WithoutSelected(articles: seq<Article>, ids: set<Id>, hidden: set<Id>)
    ensures Without(Select(articles, ids), hidden) == Select(articles, ids - hidden)
  {
    if articles != [] {
      WithoutSelected(articles[1..], ids, hidden);
      assert Select(articles, ids)[if articles[0].id in ids then 1 else 0..] == Select(articles[1..], ids);
    }
  }

  lemma {:induction false} DistinctCount(articles: seq<Article>)
    requires Distinct(articles)
    ensures |Ids(articles)| == |articles|
  {
    if articles != [] {
      DistinctCount(articles[1..]);
    }
  }

  /** A group picked from the page: its articles in page order, at least two. */
  ghost predicate Picked(articles: seq<Article>, g: Group) {
    && |g.articles| >= 2
    && g.articles == Select(articles, Ids(g.articles))
    && Ids(g.articles) <= Ids(articles) * MemberIds(g.cluster)
  }

  ghost predicate AllPicked(articles: seq<Article>, groups: seq<Group>) {
    forall i :: 0 <= i < |groups| ==> Picked(articles, groups[i])
  }

  /** No article is absorbed twice. */
  ghost predicate Disjoint(groups: seq<Group>) {
    forall i, j :: 0 <= i < j < |groups| ==> Ids(groups[i].articles) !! Ids(groups[j].articles)
  }

  lemma {:induction false} SelectOwnIds(articles: seq<Article>, ids: set<Id>)
    ensures Select(articles, Ids(articles) * ids) == Select(articles, ids)
  {
    SelectWithin(articles, Ids(articles) * ids, ids);
  }

  lemma {:induction false} SelectWithin(articles: seq<Article>, a: set<Id>, b: set<Id>)
    requires Ids(articles) * a == Ids(articles) * b
    ensures Select(articles, a) == Select(articles, b)
  {
    if articles != [] {
      assert articles[0].id in Ids(articles);
      assert articles[0].id in Ids(articles) * a <==> articles[0].id in Ids(articles) * b;
      assert Ids(articles[1..]) * a == Ids(articles[1..]) * b by {
        forall x | x in Ids(articles[1..])
          ensures x in a <==> x in b
        {
          assert x in Ids(articles) * a <==> x in Ids(articles) * b;
        }
      }
      SelectWithin(articles[1..], a, b);
    }
  }

  /** Every candidate is its cluster's articles on the page, and every cluster with two is a candidate. */
  lemma {:induction false} CandidatesAreClusters(articles: seq<Article>, clusters: seq<Cluster>)
    ensures forall i :: 0 <= i < |Candidates(articles, clusters)| ==>
              Candidates(articles, clusters)[i].articles ==
                Select(articles, MemberIds(Candidates(articles, clusters)[i].cluster))
    ensures forall c :: c in clusters && |Select(articles, MemberIds(c))| > 1 ==>
              Group(c, Select(articles, MemberIds(c))) in Candidates(articles, clusters)
  {
    if clusters != [] {
      CandidatesAreClusters(articles, clusters[1..]);
    }
  }

  /** Candidates in any order: what the fold needs of each of them. */
  ghost predicate OfPage(articles: seq<Article>, candidates: seq<Group>) {
    forall i :: 0 <= i < |candidates| ==>
      candidates[i].articles == Select(articles, MemberIds(candidates[i].cluster))
  }

  lemma SortedAreOfPage(articles: seq<Article>, clusters: seq<Cluster>)
    ensures OfPage(articles, Sort(articles, Candidates(articles, clusters)))
  {
    var cs := Candidates(articles, clusters);
    CandidatesAreClusters(articles, clusters);
    SortKeepsAll(articles, cs);
    forall i | 0 <= i < |Sort(articles, cs)|
      ensures Sort(articles, cs)[i].articles == Select(articles, MemberIds(Sort(articles, cs)[i].cluster))
    {
      assert Sort(articles, cs)[i] in multiset(cs);
    }
  }

  lemma AvailableIsPicked(articles: seq<Article>, candidate: Group, hidden: set<Id>)
    requires candidate.articles == Select(articles, MemberIds(candidate.cluster))
    requires |Without(candidate.articles, hidden)| >= 2
    ensures Picked(articles, Group(candidate.cluster, Without(candidate.articles, hidden)))
    ensures Ids(Without(candidate.articles, hidden)) !! hidden
  {
    var ids := MemberIds(candidate.cluster);
    WithoutSelected(articles, ids, hidden);
    SelectIds(articles, ids - hidden);
    SelectOwnIds(articles, ids - hidden);
  }

  lemma {:induction false} AbsorbedArePicked(articles: seq<Article>, candidates: seq<Group>, hidden: set<Id>)
    requires OfPage(articles, candidates)
    ensures var groups := Absorb(candidates, hidden);
            AllPicked(articles, groups) && Disjoint(groups) && HiddenIds(groups) !! hidden
    decreases |candidates|
  {
    hide Ids, Select, Without, MemberIds, Picked;
    if candidates != [] {
      var available := Without(candidates[0].articles, hidden);
      if |available| < 2 {
        AbsorbedArePicked(articles, candidates[1..], hidden);
      } else {
        AvailableIsPicked(articles, candidates[0], hidden);
        AbsorbedArePicked(articles, candidates[1..], hidden + Ids(available));
        MembersAreHidden(Absorb(candidates[1..], hidden + Ids(available)));
      }
    }
  }

  lemma {:induction false} MembersAreHidden(groups: seq<Group>)
    ensures forall i :: 0 <= i < |groups| ==> Ids(groups[i].articles) <= HiddenIds(groups)
  {
    if groups != [] {
      MembersAreHidden(groups[1..]);
    }
  }

  lemma {:induction false} HiddenHasGroup(groups: seq<Group>, id: Id) returns (i: nat)
    requires id in HiddenIds(groups)
    ensures i < |groups| && id in Ids(groups[i].articles)
  {
    if id in Ids(groups[0].articles) {
      i := 0;
    } else {
      i := HiddenHasGroup(groups[1..], id);
      i := i + 1;
    }
  }

  function RowArticles(rows: seq<Row>): seq<Article> {
    if rows == [] then [] else [rows[0].article] + RowArticles(rows[1..])
  }

  /** Rows are the input without the hidden articles that are no primary, each with its own cluster. */
  lemma {:induction false} RowsAreKept(articles: seq<Article>, hidden: set<Id>, primaries: map<Id, Cluster>)
    ensures var rows := RowsFor(articles, hidden, primaries);
            && RowArticles(rows) == Without(articles, hidden - primaries.Keys)
            && |RowArticles(rows)| == |rows|
            && forall i :: 0 <= i < |rows| ==>
                 rows[i].cluster ==
                   if rows[i].article.id in primaries then Some(primaries[rows[i].article.id]) else None
  {
    if articles != [] {
      RowsAreKept(articles[1..], hidden, primaries);
      var one, rest := RowOf(articles[0], hidden, primaries), RowsFor(articles[1..], hidden, primaries);
      assert one == [] ==> one + rest == rest;
      assert one != [] ==> (one + rest)[1..] == rest;
    }
  }

  lemma {:induction false} WithoutCount(articles: seq<Article>, ids: set<Id>)
    requires Distinct(articles) && ids <= Ids(articles)
    ensures |Without(articles, ids)| == |articles| - |ids|
  {
    if articles == [] {
      assert ids == {};
    } else {
      var id := articles[0].id;
      WithoutCount(articles[1..], ids - {id});
      WithoutIrrelevant(articles[1..], ids, id);
    }
  }

  lemma {:induction false} WithoutIrrelevant(articles: seq<Article>, ids: set<Id>, id: Id)
    requires id !in Ids(articles)
    ensures Without(articles, ids - {id}) == Without(articles, ids)
  {
    if articles != [] {
      WithoutIrrelevant(articles[1..], ids, id);
    }
  }

  /** Articles absorbed without a row of their own: all but one of each group. */
  function Extra(groups: seq<Group>): int {
    if groups == [] then 0 else |groups[0].articles| - 1 + Extra(groups[1..])
  }

  lemma FirstIsIn(articles: seq<Article>)
    requires articles != []
    ensures articles[0].id in Ids(articles)
  {
  }

  /** Primaries belong to their groups. */
  lemma {:induction false} PrimariesAreHidden(articles: seq<Article>, groups: seq<Group>)
    requires AllProper(groups) && AllPicked(articles, groups)
    ensures Primaries(groups).Keys <= HiddenIds(groups) <= Ids(articles)
  {
    if groups != [] {
      assert Picked(articles, groups[0]);
      PrimariesAreHidden(articles, groups[1..]);
      FirstIsIn(groups[0].articles);
    }
  }

  lemma {:induction false} PrimariesShowTheirCluster(articles: seq<Article>, groups: seq<Group>, i: nat)
    requires AllProper(groups) && AllPicked(articles, groups) && Disjoint(groups) && i < |groups|
    ensures groups[i].articles[0].id in Primaries(groups)
    ensures Primaries(groups)[groups[i].articles[0].id] == groups[i].cluster
  {
    var rest := groups[1..];
    PrimariesAreHidden(articles, rest);
    FirstIsIn(groups[0].articles);
    RestIsDisjoint(groups);
    if i > 0 {
      PrimariesShowTheirCluster(articles, rest, i - 1);
      assert groups[i] == rest[i - 1];
    }
  }

  lemma PickedCount(articles: seq<Article>, g: Group)
    requires Distinct(articles) && Picked(articles, g)
    ensures |Ids(g.articles)| == |g.articles| && g.articles[0].id in Ids(g.articles)
  {
    SelectIds(articles, Ids(g.articles));
    DistinctCount(g.articles);
  }

  /** Disjoint groups hide all their members but one each. */
  lemma {:induction false} ExtraCount(articles: seq<Article>, groups: seq<Group>)
    requires Distinct(articles) && AllProper(groups) && AllPicked(articles, groups) && Disjoint(groups)
    ensures |HiddenIds(groups) - Primaries(groups).Keys| == Extra(groups)
  {
    if groups != [] {
      var g, rest := groups[0], groups[1..];
      hide Ids, Select, Distinct, MemberIds;
      ExtraCount(articles, rest);
      PrimariesAreHidden(articles, rest);
      PickedCount(articles, g);
      RestIsDisjoint(groups);
      DisjointSplit(Ids(g.articles), HiddenIds(rest), g.articles[0].id, Primaries(rest).Keys);
      assert Primaries(groups).Keys == {g.articles[0].id} + Primaries(rest).Keys;
    }
  }

  lemma DisjointSplit(a: set<Id>, b: set<Id>, p: Id, q: set<Id>)
    requires a !! b && p in a && q <= b
    ensures |a + b - ({p} + q)| == |a| - 1 + |b - q|
  {
  }

  lemma RestIsDisjoint(groups: seq<Group>)
    requires groups != [] && Disjoint(groups)
    ensures Ids(groups[0].articles) !! HiddenIds(groups[1..])
  {
    forall id | id in HiddenIds(groups[1..])
      ensures id !in Ids(groups[0].articles)
    {
      var i := HiddenHasGroup(groups[1..], id);
      assert groups[1..][i] == groups[i + 1];
    }
  }

  lemma FoldedIsSound(articles: seq<Article>, clusters: seq<Cluster>)
    ensures AllPicked(articles, Folded(articles, clusters)) && Disjoint(Folded(articles, clusters))
  {
    SortedAreOfPage(articles, clusters);
    AbsorbedArePicked(articles, Sort(articles, Candidates(articles, clusters)), {});
  }

  /**
   Folding conserves articles. Rows are a subsequence of the page; groups are disjoint,
   have at least two members in page order, and each shows its cluster on the row of its
   first article; the row count is the article count less all but one of each group.
   */
  lemma FoldConserves(articles: seq<Article>, clusters: seq<Cluster>)
    requires Distinct(articles)
    ensures var groups, rows := Folded(articles, clusters), ListRows(articles, clusters);
            && AllPicked(articles, groups) && Disjoint(groups)
            && RowArticles(rows) == Without(articles, HiddenIds(groups) - Primaries(groups).Keys)
            && |rows| == |articles| - Extra(groups)
    ensures var groups, rows := Folded(articles, clusters), ListRows(articles, clusters);
            forall i :: 0 <= i < |rows| ==>
              rows[i].cluster ==
                if rows[i].article.id in Primaries(groups) then Some(Primaries(groups)[rows[i].article.id]) else None
    ensures var groups := Folded(articles, clusters);
            forall i :: 0 <= i < |groups| ==>
              && groups[i].articles[0].id in Primaries(groups)
              && Primaries(groups)[groups[i].articles[0].id] == groups[i].cluster
  {
    var groups := Folded(articles, clusters);
    FoldedIsSound(articles, clusters);
    RowsAreKept(articles, HiddenIds(groups), Primaries(groups));
    PrimariesAreHidden(articles, groups);
    ExtraCount(articles, groups);
    forall i | 0 <= i < |groups|
      ensures groups[i].articles[0].id in Primaries(groups)
      ensures Primaries(groups)[groups[i].articles[0].id] == groups[i].cluster
    {
      PrimariesShowTheirCluster(articles, groups, i);
    }
    WithoutCount(articles, HiddenIds(groups) - Primaries(groups).Keys);
  }

  lemma {:induction false} WithoutMembers(articles: seq<Article>, ids: set<Id>, a: Article)
    ensures a in Without(articles, ids) <==> a in articles && a.id !in ids
  {
    if articles != [] {
      WithoutMembers(articles[1..], ids, a);
    }
  }

  lemma {:induction false} SelectFirstIsEarliest(articles: seq<Article>, ids: set<Id>) returns (k: nat)
    requires Select(articles, ids) != []
    ensures k < |articles| && articles[k] == Select(articles, ids)[0] && articles[k].id in ids
    ensures forall j :: 0 <= j < k ==> articles[j].id !in ids
  {
    if articles[0].id in ids {
      k := 0;
    } else {
      k := SelectFirstIsEarliest(articles[1..], ids);
      k := k + 1;
    }
  }

  /**
   An article without a row belongs to exactly one absorbed group, and the row of that
   group is the earliest of the group's articles on the page.
   */
  lemma MissingArticleIsAbsorbed(articles: seq<Article>, clusters: seq<Cluster>, a: Article)
    returns (i: nat, k: nat)
    requires Distinct(articles) && a in articles && a !in RowArticles(ListRows(articles, clusters))
    ensures var groups := Folded(articles, clusters);
            && i < |groups| && a.id in Ids(groups[i].articles)
            && (forall j :: 0 <= j < |groups| && a.id in Ids(groups[j].articles) ==> j == i)
            && k < |articles| && articles[k] == groups[i].articles[0] && articles[k] != a
            && (forall j :: 0 <= j < k ==> articles[j].id !in Ids(groups[i].articles))
            && articles[k] in RowArticles(ListRows(articles, clusters))
  {
    var groups := Folded(articles, clusters);
    FoldConserves(articles, clusters);
    var gone := HiddenIds(groups) - Primaries(groups).Keys;
    WithoutMembers(articles, gone, a);
    i := HiddenHasGroup(groups, a.id);
    assert Picked(articles, groups[i]);
    k := SelectFirstIsEarliest(articles, Ids(groups[i].articles));
    WithoutMembers(articles, gone, articles[k]);
    forall j | 0 <= j < |groups| && a.id in Ids(groups[j].articles)
      ensures j == i
    {
      assert a.id in Ids(groups[i].articles) * Ids(groups[j].articles);
    }
  }

  // ---------- What greediness guarantees ----------

  lemma {:induction false} WithoutShrinks(articles: seq<Article>, a: set<Id>, b: set<Id>)
    requires a <= b
    ensures |Without(articles, b)| <= |Without(articles, a)|
  {
    if articles != [] {
      WithoutShrinks(articles[1..], a, b);
    }
  }

  lemma {:induction false} WithoutAll(articles: seq<Article>, ids: set<Id>)
    requires Ids(Without(articles, {})) <= ids
    ensures Without(articles, ids) == []
  {
    if articles != [] {
      assert Without(articles, {})[1..] == Without(articles[1..], {});
      WithoutAll(articles[1..], ids);
    }
  }

  lemma {:induction false} WithoutSplit(articles: seq<Article>, hidden: set<Id>)
    ensures Ids(articles) <= hidden + Ids(Without(articles, hidden))
    ensures Without(articles, {}) == articles
  {
    if articles != [] {
      WithoutSplit(articles[1..], hidden);
      if articles[0].id in hidden {
        assert Without(articles, hidden) == Without(articles[1..], hidden);
      } else {
        assert Without(articles, hidden)[1..] == Without(articles[1..], hidden);
      }
    }
  }

  lemma {:induction false} NoCandidateLeftOver(candidates: seq<Group>, hidden: set<Id>, i: nat)
    requires i < |candidates|
    ensures |Without(candidates[i].articles, hidden + HiddenIds(Absorb(candidates, hidden)))| <= 1
    decreases |candidates|
  {
    var available := Without(candidates[0].articles, hidden);
    var hidden' := if |available| < 2 then hidden else hidden + Ids(available);
    var later := Absorb(candidates[1..], hidden');
    if |available| >= 2 {
      assert Absorb(candidates, hidden)[1..] == later;
    }
    assert hidden + HiddenIds(Absorb(candidates, hidden)) == hidden' + HiddenIds(later);
    if i > 0 {
      assert candidates[1..][i - 1] == candidates[i];
      NoCandidateLeftOver(candidates[1..], hidden', i - 1);
    } else if |available| < 2 {
      WithoutShrinks(candidates[0].articles, hidden, hidden + HiddenIds(later));
    } else {
      WithoutSplit(candidates[0].articles, hidden);
      WithoutAll(candidates[0].articles, hidden' + HiddenIds(later));
    }
  }

  /** Of every cluster at most one article on the page is left unabsorbed. */
  lemma NoClusterLeftOver(articles: seq<Article>, clusters: seq<Cluster>, c: Cluster)
    requires c in clusters
    ensures |Without(Select(articles, MemberIds(c)), HiddenIds(Folded(articles, clusters)))| <= 1
  {
    hide Ids, Select, Without, MemberIds, Candidates, Sort, HiddenIds, Absorb;
    var here := Select(articles, MemberIds(c));
    var hidden := HiddenIds(Folded(articles, clusters));
    if |here| > 1 {
      var i := CandidateOf(articles, clusters, c);
      NoCandidateLeftOver(Sort(articles, Candidates(articles, clusters)), {}, i);
      assert {} + hidden == hidden;
    } else {
      WithoutSplit(here, {});
      WithoutShrinks(here, {}, hidden);
    }
  }

  /**
   The first group absorbs its whole cluster, and no cluster with two articles on the page
   starts earlier, or at the same article with more.
   */
  lemma FirstGroupIsBest(articles: seq<Article>, clusters: seq<Cluster>, c: Cluster)
    requires c in clusters && |Select(articles, MemberIds(c))| > 1
    ensures var groups := Folded(articles, clusters);
            && groups != []
            && groups[0].articles == Select(articles, MemberIds(groups[0].cluster))
            && NotAfter(articles, groups[0], Group(c, Select(articles, MemberIds(c))))
            && (Distinct(articles) ==> Before(articles, groups[0].articles, Select(articles, MemberIds(c))))
  {
    var sorted := Sort(articles, Candidates(articles, clusters));
    var g := Group(c, Select(articles, MemberIds(c)));
    SortSorts(articles, Candidates(articles, clusters));
    SortedAreOfPage(articles, clusters);
    var i := CandidateOf(articles, clusters, c);
    WithoutSplit(sorted[0].articles, {});
    assert Folded(articles, clusters)[0] == Group(sorted[0].cluster, sorted[0].articles);
    assert i > 0 ==> NotAfter(articles, sorted[0], sorted[i]);
    if Distinct(articles) {
      NotAfterIsBefore(articles, sorted[0], g);
    }
  }

  // ---------- The order in page positions ----------

  lemma {:induction false} IdIsListed(articles: seq<Article>, k: nat)
    requires k < |articles|
    ensures articles[k].id in Ids(articles)
  {
    if k > 0 {
      IdIsListed(articles[1..], k - 1);
    }
  }

  lemma {:induction false} IdsDiffer(articles: seq<Article>, j: nat, k: nat)
    requires Distinct(articles) && j < k < |articles|
    ensures articles[j].id != articles[k].id
  {
    if j == 0 {
      IdIsListed(articles[1..], k - 1);
    } else {
      IdsDiffer(articles[1..], j - 1, k - 1);
    }
  }

  /** What distinct means: no id twice on the page. */
  lemma {:induction false} DistinctExactly(articles: seq<Article>)
    ensures Distinct(articles) <==> forall j, k :: 0 <= j < k < |articles| ==> articles[j].id != articles[k].id
  {
    if Distinct(articles) {
      forall j, k | 0 <= j < k < |articles|
        ensures articles[j].id != articles[k].id
      {
        IdsDiffer(articles, j, k);
      }
    } else {
      var j, k := TwiceListed(articles);
    }
  }

  lemma {:induction false} TwiceListed(articles: seq<Article>) returns (j: nat, k: nat)
    requires !Distinct(articles)
    ensures j < k < |articles| && articles[j].id == articles[k].id
  {
    if articles[0].id in Ids(articles[1..]) {
      j := 0;
      k := IndexOfId(articles[1..], articles[0].id);
      k := k + 1;
    } else {
      j, k := TwiceListed(articles[1..]);
      j, k := j + 1, k + 1;
    }
  }

  lemma {:induction false} IndexOfId(articles: seq<Article>, id: Id) returns (k: nat)
    requires id in Ids(articles)
    ensures k < |articles| && articles[k].id == id
  {
    if articles[0].id == id {
      k := 0;
    } else {
      k := IndexOfId(articles[1..], id);
      k := k + 1;
    }
  }

  /** On a page of distinct ids the position map gives the index. */
  lemma PositionIsIndex(articles: seq<Article>, k: nat)
    requires Distinct(articles) && k < |articles|
    ensures Position(articles, articles[k].id) == k
  {
    var n := k + 1;
    assert articles[..n][..|articles[..n]| - 1] == articles[..k];
    PositionFrom(articles, n, k);
    assert articles[..|articles|] == articles;
  }

  /** Later articles do not move it. */
  lemma {:induction false} PositionFrom(articles: seq<Article>, n: nat, k: nat)
    requires Distinct(articles) && k < n <= |articles|
    requires Position(articles[..n], articles[k].id) == k
    ensures Position(articles, articles[k].id) == k
    decreases |articles| - n
  {
    if n == |articles| {
      assert articles[..n] == articles;
    } else {
      IdsDiffer(articles, k, n);
      assert articles[..n + 1][..n] == articles[..n];
      PositionFrom(articles, n + 1, k);
    }
  }

  /** `left` starts above `right` on the page, or at the same article with at least as many. */
  ghost predicate Before(articles: seq<Article>, left: seq<Article>, right: seq<Article>)
    requires left != [] && right != []
  {
    forall k, m :: 0 <= k < |articles| && 0 <= m < |articles| && articles[k] == left[0] && articles[m] == right[0] ==>
      k < m || (k == m && |left| >= |right|)
  }

  lemma NotAfterIsBefore(articles: seq<Article>, left: Group, right: Group)
    requires Distinct(articles) && left.articles != [] && right.articles != [] && NotAfter(articles, left, right)
    ensures Before(articles, left.articles, right.articles)
  {
    forall k, m |
      && 0 <= k < |articles| && 0 <= m < |articles|
      && articles[k] == left.articles[0] && articles[m] == right.articles[0]
      ensures k < m || (k == m && |left.articles| >= |right.articles|)
    {
      PositionIsIndex(articles, k);
      PositionIsIndex(articles, m);
    }
  }

  /** Candidates are handled in page order of their first article, larger ones first where that is shared. */
  lemma SortedByPage(articles: seq<Article>, groups: seq<Group>, i: nat, j: nat)
    requires Distinct(articles) && AllProper(groups) && i < j < |Sort(articles, groups)|
    ensures Before(articles, Sort(articles, groups)[i].articles, Sort(articles, groups)[j].articles)
  {
    SortSorts(articles, groups);
    NotAfterIsBefore(articles, Sort(articles, groups)[i], Sort(articles, groups)[j]);
  }

  /** The group formed at step i comes from a candidate no later than any that still has two articles left. */
  lemma {:induction false} AbsorbInOrder(candidates: seq<Group>, hidden: set<Id>, i: nat, p: nat) returns (q: nat)
    requires i < |Absorb(candidates, hidden)| && p < |candidates|
    requires |Without(candidates[p].articles, hidden + HiddenIds(Absorb(candidates, hidden)[..i]))| >= 2
    ensures q <= p && candidates[q].cluster == Absorb(candidates, hidden)[i].cluster
    ensures Absorb(candidates, hidden)[i].articles ==
      Without(candidates[q].articles, hidden + HiddenIds(Absorb(candidates, hidden)[..i]))
    decreases |candidates|
  {
    hide Without, Ids;
    var groups := Absorb(candidates, hidden);
    var left := hidden + HiddenIds(groups[..i]);
    var available := Without(candidates[0].articles, hidden);
    if |available| < 2 {
      if p == 0 {
        WithoutShrinks(candidates[0].articles, hidden, left);
        assert false;
      } else {
        q := AbsorbInOrder(candidates[1..], hidden, i, p - 1);
        q := q + 1;
      }
    } else if i == 0 {
      assert left == hidden;
      q := 0;
    } else {
      var hidden' := hidden + Ids(available);
      assert groups[1..] == Absorb(candidates[1..], hidden');
      assert groups[..i][1..] == groups[1..][..i - 1];
      assert left == hidden' + HiddenIds(groups[1..][..i - 1]);
      if p == 0 {
        WithoutSplit(candidates[0].articles, hidden);
        WithoutAll(candidates[0].articles, left);
        assert false;
      } else {
        q := AbsorbInOrder(candidates[1..], hidden', i - 1, p - 1);
        q := q + 1;
      }
    }
  }

  /**
   Every group absorbs all that earlier groups left of its cluster, and among the clusters that still had
   two articles left none starts above it on the page, or at the same article with more.
   */
  lemma EveryGroupIsBest(articles: seq<Article>, clusters: seq<Cluster>, i: nat, c: Cluster)
    requires Distinct(articles) && i < |Folded(articles, clusters)| && c in clusters
    requires var earlier := HiddenIds(Folded(articles, clusters)[..i]);
      |Without(Select(articles, MemberIds(c)), earlier)| >= 2
    ensures var groups := Folded(articles, clusters);
      var page := Select(articles, MemberIds(groups[i].cluster));
      && groups[i].articles == Without(page, HiddenIds(groups[..i]))
      && page != [] && Select(articles, MemberIds(c)) != []
      && Before(articles, page, Select(articles, MemberIds(c)))
  {
    hide Without, Select, MemberIds, Ids, Absorb, Position, Candidates, Sort, Before, HiddenIds, Distinct;
    var sorted := Sort(articles, Candidates(articles, clusters));
    var here := Select(articles, MemberIds(c));
    var earlier := HiddenIds(Folded(articles, clusters)[..i]);
    assert {} + earlier == earlier;
    WithoutSplit(here, {});
    WithoutShrinks(here, {}, earlier);
    var p := CandidateOf(articles, clusters, c);
    var q := AbsorbInOrder(sorted, {}, i, p);
    SortedAreOfPage(articles, clusters);
    assert |sorted[q].articles| > 1;
    if q < p {
      SortedByPage(articles, Candidates(articles, clusters), q, p);
    } else {
      SameIsBefore(articles, here);
    }
  }

  /** A cluster with two articles on the page is a candidate. */
  lemma CandidateOf(articles: seq<Article>, clusters: seq<Cluster>, c: Cluster) returns (p: nat)
    requires c in clusters && |Select(articles, MemberIds(c))| > 1
    ensures var sorted := Sort(articles, Candidates(articles, clusters));
      p < |sorted| && sorted[p] == Group(c, Select(articles, MemberIds(c)))
  {
    hide Select, MemberIds, Candidates, Sort;
    var cs := Candidates(articles, clusters);
    var g := Group(c, Select(articles, MemberIds(c)));
    CandidatesAreClusters(articles, clusters);
    SortKeepsAll(articles, cs);
    assert g in multiset(Sort(articles, cs));
    p :| 0 <= p < |Sort(articles, cs)| && Sort(articles, cs)[p] == g;
  }

  lemma SameIsBefore(articles: seq<Article>, group: seq<Article>)
    requires Distinct(articles) && group != []
    ensures Before(articles, group, group)
  {
    forall k, m | 0 <= k < |articles| && 0 <= m < |articles| && articles[k] == group[0] && articles[m] == group[0]
      ensures k == m
    {
      if k < m {
        IdsDiffer(articles, k, m);
      } else if m < k {
        IdsDiffer(articles, m, k);
      }
    }
  }
}
