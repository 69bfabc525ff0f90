/** The reports screen. A fetch runs six queries (two counts, the views of
    the published posts, the ten most viewed published posts, every
    category with its posts, the ten newest posts) and turns the responses
    into the report; a missing response counts as zero rows. The category
    table is sorted in place, by total views, when it is rendered. */
module ReportsView {
  import opened Common
  import opened Seqs
  import opened Sorting
  import opened Tables

  /** A `categories(name, color, posts(id, views))` row. */
  datatype CategoryJoin = CategoryJoin(name: string, color: string, posts: Option<seq<Post>>)

  /** The six responses; None is a query that returned null. */
  datatype ReportResponses = ReportResponses(
    totalPosts: Option<nat>,
    publishedPosts: Option<nat>,
    viewsData: Option<seq<Post>>,
    topPosts: Option<seq<JoinedPost>>,
    categories: Option<seq<CategoryJoin>>,
    recentActivity: Option<seq<Post>>)

  datatype CategoryStat = CategoryStat(name: string, color: string, postCount: nat, totalViews: nat)

  datatype ReportData = ReportData(
    totalPosts: nat,
    publishedPosts: nat,
    totalViews: nat,
    avgViewsPerPost: nat,
    topPosts: seq<JoinedPost>,
    categoryStats: seq<CategoryStat>,
    recentActivity: seq<Post>)

  /** The initial state, before the first fetch completes. */
  const EmptyReport: ReportData := ReportData(0, 0, 0, 0, [], [], [])

  function InCategory(id: Id): Post -> bool
  {
    (p: Post) => p.categoryId == Some(id)
  }

  function StatViews(c: CategoryStat): nat { c.totalViews }

  /** The published posts ranked by views, at most n of them. */
  function MostViewed(posts: seq<Post>, n: nat): seq<Post>
  {
    Take(SortDesc(Filter(posts, IsPublished), Views), n)
  }

  /** The posts ranked newest first, at most n of them. */
  function Newest(posts: seq<Post>, n: nat): seq<Post>
  {
    Take(SortDesc(posts, PostCreatedAt), n)
  }

  function CategoryRows(cats: seq<Category>, posts: seq<Post>): (r: seq<CategoryJoin>)
    ensures |r| == |cats|
    ensures forall i :: 0 <= i < |r| ==>
      r[i] == CategoryJoin(cats[i].name, cats[i].color, Some(Filter(posts, InCategory(cats[i].id))))
  {
    seq(|cats|, i requires 0 <= i < |cats| =>
      CategoryJoin(cats[i].name, cats[i].color, Some(Filter(posts, InCategory(cats[i].id)))))
  }

  /** What the backend answers for the tables `posts` and `categories`. */
  function Query(posts: seq<Post>, cats: seq<Category>): ReportResponses
  {
    ReportResponses(
      Some(|posts|),
      Some(Count(posts, IsPublished)),
      Some(Filter(posts, IsPublished)),
      Some(Join(MostViewed(posts, 10), cats)),
      Some(CategoryRows(cats, posts)),
      Some(Newest(posts, 10)))
  }

  /** `viewsData?.reduce((sum, post) => sum + post.views, 0) || 0`. */
  function TotalViews(viewsData: Option<seq<Post>>): (t: nat)
    ensures viewsData.None? ==> t == 0
    ensures viewsData.Some? ==> t == Sum(viewsData.value, Views)
  {
    match viewsData
    case None => 0
    case Some(rows) => Sum(rows, Views)
  }

  /** `publishedPosts ? Math.round(totalViews / publishedPosts) : 0`:
      0 for a null or zero count, otherwise the rounded quotient. */
  function AvgViews(total: nat, published: Option<nat>): (r: nat)
    ensures published.None? || published.value == 0 ==> r == 0
    ensures published.Some? && published.value > 0 ==>
      2 * published.value * r <= 2 * total + published.value < 2 * published.value * r + 2 * published.value
  {
    match published
    case None => 0
    case Some(p) => if p == 0 then 0 else MathRound(total, p)
  }

  /** One row of the category statistics: `posts?.length || 0` and the
      views of those posts, each `views || 0`. */
  function StatOf(c: CategoryJoin): (s: CategoryStat)
    ensures s.name == c.name && s.color == c.color
    ensures c.posts.None? ==> s.postCount == 0 && s.totalViews == 0
    ensures c.posts.Some? ==> s.postCount == |c.posts.value| && s.totalViews == Sum(c.posts.value, Views)
  {
    match c.posts
    case None => CategoryStat(c.name, c.color, 0, 0)
    case Some(ps) => CategoryStat(c.name, c.color, |ps|, Sum(ps, Views))
  }

  function CategoryStats(rows: Option<seq<CategoryJoin>>): (r: seq<CategoryStat>)
    ensures rows.None? ==> r == []
    ensures rows.Some? ==> |r| == |rows.value| && forall i :: 0 <= i < |r| ==> r[i] == StatOf(rows.value[i])
  {
    match rows
    case None => []
    case Some(cs) => seq(|cs|, i requires 0 <= i < |cs| => StatOf(cs[i]))
  }

  /** `fetchReportData` after the queries: the report built from the
      responses, with 0 or [] for every null. */
  function Build(resp: ReportResponses): (r: ReportData)
    ensures r.totalPosts == OrZero(resp.totalPosts) && r.publishedPosts == OrZero(resp.publishedPosts)
    ensures r.avgViewsPerPost == AvgViews(r.totalViews, resp.publishedPosts)
  {
    var total := TotalViews(resp.viewsData);
    ReportData(
      OrZero(resp.totalPosts),
      OrZero(resp.publishedPosts),
      total,
      AvgViews(total, resp.publishedPosts),
      match resp.topPosts case None => [] case Some(t) => t,
      CategoryStats(resp.categories),
      match resp.recentActivity case None => [] case Some(t) => t)
  }

  /** With every response null the report is all zeros and empty lists. */
  lemma BuildOfNulls()
    ensures Build(ReportResponses(None, None, None, None, None, None)) == EmptyReport
  {
  }

  /** The totals: counts of all and of published posts, the views of the
      published posts, and their rounded average, which is 0 when nothing
      is published. */
  lemma ReportTotals(posts: seq<Post>, cats: seq<Category>)
    ensures Build(Query(posts, cats)).totalPosts == |posts|
    ensures Build(Query(posts, cats)).publishedPosts == Count(posts, IsPublished)
    ensures Build(Query(posts, cats)).totalViews == Sum(Filter(posts, IsPublished), Views)
    ensures Count(posts, IsPublished) == 0 ==> Build(Query(posts, cats)).avgViewsPerPost == 0
    ensures Count(posts, IsPublished) > 0 ==>
      Build(Query(posts, cats)).avgViewsPerPost == MathRound(Sum(Filter(posts, IsPublished), Views), Count(posts, IsPublished))
  {
  }

  /** The n most viewed published posts: as many as `limit(n)` returns,
      drawn from the published posts, in non-increasing order of views,
      and no published post left out has more views than a listed one. */
  lemma MostViewedSpec(posts: seq<Post>, n: nat)
    ensures var r := MostViewed(posts, n);
      |r| == (if Count(posts, IsPublished) < n then Count(posts, IsPublished) else n) &&
      (forall i :: 0 <= i < |r| ==> r[i] in posts && r[i].published) &&
      (forall i, j :: 0 <= i < j < |r| ==> r[i].views >= r[j].views) &&
      (forall p :: p in posts && p.published && p !in r ==> forall q :: q in r ==> p.views <= q.views)
  {
    MostViewedDrawn(posts, n);
    MostViewedSorted(posts, n);
    MostViewedLeftOut(posts, n);
  }

  lemma MostViewedDrawn(posts: seq<Post>, n: nat)
    ensures forall i :: 0 <= i < |MostViewed(posts, n)| ==>
      MostViewed(posts, n)[i] in posts && MostViewed(posts, n)[i].published
  {
    var pub := Filter(posts, IsPublished);
    TopNMembers(pub, Views, n);
    FilterMembers(posts, IsPublished);
    forall i | 0 <= i < |MostViewed(posts, n)|
      ensures MostViewed(posts, n)[i] in posts && MostViewed(posts, n)[i].published
    {
      var q := MostViewed(posts, n)[i];
      assert q in pub;
      var k :| 0 <= k < |pub| && pub[k] == q;
    }
  }

  lemma MostViewedSorted(posts: seq<Post>, n: nat)
    ensures forall i, j :: 0 <= i < j < |MostViewed(posts, n)| ==>
      MostViewed(posts, n)[i].views >= MostViewed(posts, n)[j].views
  {
    TopN(Filter(posts, IsPublished), Views, n);
  }

  lemma MostViewedLeftOut(posts: seq<Post>, n: nat)
    ensures forall p :: p in posts && p.published && p !in MostViewed(posts, n) ==>
      forall q :: q in MostViewed(posts, n) ==> p.views <= q.views
  {
    var pub := Filter(posts, IsPublished);
    forall p | p in posts && p.published && p !in MostViewed(posts, n)
      ensures forall q :: q in MostViewed(posts, n) ==> p.views <= q.views
    {
      FilterKeeps(posts, IsPublished, p);
      TopNLeftOut(pub, Views, n, p);
    }
  }

  lemma TopPostsAreMostViewed(posts: seq<Post>, cats: seq<Category>)
    ensures Build(Query(posts, cats)).topPosts == Join(MostViewed(posts, 10), cats)
  {
  }

  /** The top posts: ten published posts, or all of them when there are
      fewer, by non-increasing views, each with its category; a published
      post left out has no more views than any listed one. */
  lemma TopPostsSpec(posts: seq<Post>, cats: seq<Category>)
    ensures var top := Join(MostViewed(posts, 10), cats);
      |top| == (if Count(posts, IsPublished) < 10 then Count(posts, IsPublished) else 10) &&
      (forall i :: 0 <= i < |top| ==>
         top[i].post in posts && top[i].post.published && top[i].categories == CategoryOf(cats, top[i].post.categoryId)) &&
      (forall i, j :: 0 <= i < j < |top| ==> top[i].post.views >= top[j].post.views) &&
      (forall p :: p in posts && p.published && (forall i :: 0 <= i < |top| ==> top[i].post != p) ==>
         forall i :: 0 <= i < |top| ==> p.views <= top[i].post.views)
  {
    MostViewedSpec(posts, 10);
    var top := Join(MostViewed(posts, 10), cats);
    forall p | p in posts && p.published && (forall i :: 0 <= i < |top| ==> top[i].post != p)
      ensures forall i :: 0 <= i < |top| ==> p.views <= top[i].post.views
    {
      JoinedLeftOut(MostViewed(posts, 10), cats, p);
    }
  }

  /** A row that no joined row carries is not among the rows joined. */
  lemma JoinedLeftOut(rows: seq<Post>, cats: seq<Category>, p: Post)
    requires forall i :: 0 <= i < |rows| ==> Join(rows, cats)[i].post != p
    ensures p !in rows
  {
    forall i | 0 <= i < |rows| ensures rows[i] != p {
      assert Join(rows, cats)[i].post == rows[i];
    }
  }

  /** The n newest posts, of any status: n of them, or all when there
      are fewer, drawn from the posts, newest first, and a post left out
      is no newer than any listed one. */
  lemma NewestSpec(posts: seq<Post>, n: nat)
    ensures var r := Newest(posts, n);
      |r| == (if |posts| < n then |posts| else n) &&
      (forall q :: q in r ==> q in posts) &&
      SortedDesc(r, PostCreatedAt) &&
      (forall p :: p in posts && p !in r ==> forall q :: q in r ==> p.createdAt <= q.createdAt)
  {
    TopN(posts, PostCreatedAt, n);
    TopNMembers(posts, PostCreatedAt, n);
    forall p | p in posts && p !in Newest(posts, n)
      ensures forall q :: q in Newest(posts, n) ==> p.createdAt <= q.createdAt
    {
      TopNLeftOut(posts, PostCreatedAt, n, p);
    }
  }

  lemma RecentActivityIsNewest(posts: seq<Post>, cats: seq<Category>)
    ensures Build(Query(posts, cats)).recentActivity == Newest(posts, 10)
  {
  }

  lemma CategoryStatsOfQuery(posts: seq<Post>, cats: seq<Category>)
    ensures Build(Query(posts, cats)).categoryStats == CategoryStats(Some(CategoryRows(cats, posts)))
  {
  }

  /** One statistic per category, in category order: the number of posts
      that reference it and the sum of their views, published or not. */
  lemma CategoryStatsSpec(posts: seq<Post>, cats: seq<Category>)
    ensures |CategoryStats(Some(CategoryRows(cats, posts)))| == |cats|
    ensures forall i :: 0 <= i < |cats| ==>
      CategoryStats(Some(CategoryRows(cats, posts)))[i]
        == CategoryStat(cats[i].name, cats[i].color,
                        Count(posts, InCategory(cats[i].id)), Sum(Filter(posts, InCategory(cats[i].id)), Views))
  {
  }

  /** A draft is counted in its category's statistic. */
  lemma DraftsCounted(posts: seq<Post>, cats: seq<Category>, i: nat, p: Post)
    requires i < |cats| && p in posts && p.categoryId == Some(cats[i].id)
    ensures CategoryStats(Some(CategoryRows(cats, posts)))[i].postCount > 0
  {
    FilterKeeps(posts, InCategory(cats[i].id), p);
  }

  /** The "Categorias Ativas" figure is the number of statistics, one per
      category; a category with no published post, even one with no post
      at all, still counts, so the figure exceeds the number of
      categories with published posts that its caption describes. */
  lemma ActiveCategoriesCountsAll(posts: seq<Post>, cats: seq<Category>, i: nat)
    requires i < |cats|
    requires forall p :: p in posts && p.categoryId == Some(cats[i].id) ==> !p.published
    ensures |Build(Query(posts, cats)).categoryStats| == |cats|
    ensures |Build(Query(posts, cats)).categoryStats| > ActiveCategories(posts, cats)
  {
    CategoryStatsOfQuery(posts, cats);
    assert cats[i] in cats;
    FilterDrops(cats, HasPublishedPost(posts), cats[i]);
  }

  function HasPublishedPost(posts: seq<Post>): Category -> bool
  {
    (c: Category) => exists p :: p in posts && p.published && p.categoryId == Some(c.id)
  }

  /** The figure as captioned: categories with at least one published post. */
  function ActiveCategories(posts: seq<Post>, cats: seq<Category>): (n: nat)
    ensures n <= |cats|
  {
    Count(cats, HasPublishedPost(posts))
  }

  /** The captioned figure reaches the number of categories exactly when
      every category has a published post. */
  lemma ActiveCategoriesSpec(posts: seq<Post>, cats: seq<Category>)
    ensures ActiveCategories(posts, cats) == |cats| <==>
      forall c :: c in cats ==> exists p :: p in posts && p.published && p.categoryId == Some(c.id)
  {
    CountAll(cats, HasPublishedPost(posts));
  }

  class ReportsPanel {
    var timeRange: string
    var report: ReportData
    /** The array behind `reportData.categoryStats`, which the render sorts. */
    var categoryStats: array<CategoryStat>

    ghost predicate Valid()
      reads this, categoryStats
    {
      categoryStats[..] == report.categoryStats
    }

    constructor ()
      ensures Valid() && timeRange == "all" && report == EmptyReport
    {
      timeRange := "all";
      report := EmptyReport;
      categoryStats := new CategoryStat[0];
    }

    /** `fetchReportData` on the current tables. */
    method FetchReportData(posts: seq<Post>, cats: seq<Category>)
      modifies this`report, this`categoryStats
      ensures Valid() && fresh(categoryStats)
      ensures report == Build(Query(posts, cats))
    {
      report := Build(Query(posts, cats));
      var s := report.categoryStats;
      categoryStats := new CategoryStat[|s|](i requires 0 <= i < |s| => s[i]);
      assert categoryStats[..] == s by {
        forall i | 0 <= i < |s| ensures categoryStats[i] == s[i] { }
      }
    }

    /** Choosing a time range only refetches: the report is the same for
        every range. */
    method SetTimeRange(range: string, posts: seq<Post>, cats: seq<Category>)
      modifies this`timeRange, this`report, this`categoryStats
      ensures Valid() && fresh(categoryStats) && timeRange == range
      ensures report == Build(Query(posts, cats))
    {
      timeRange := range;
      FetchReportData(posts, cats);
    }

    /** The category table: `categoryStats.sort((a, b) => b.total_views -
        a.total_views)` sorts the state array itself and renders it. */
    method RenderCategoryTable() returns (shown: seq<CategoryStat>)
      requires Valid()
      modifies this`report, categoryStats
      ensures Valid()
      ensures shown == SortDesc(old(report.categoryStats), StatViews)
      ensures report == old(report).(categoryStats := shown)
    {
      SortInPlace(categoryStats, StatViews);
      report := report.(categoryStats := categoryStats[..]);
      shown := categoryStats[..];
    }

    /** The first five rows of the top posts table, or all of them when
        there are fewer. */
    function ShownTopPosts(): (t: seq<JoinedPost>)
      reads this
      ensures |t| == (if |report.topPosts| < 5 then |report.topPosts| else 5) && t <= report.topPosts
    {
      Take(report.topPosts, 5)
    }
  }

  /** The rendered category table is sorted, a permutation of the
      statistics, keeps ties in fetched order, and a second render shows
      the same table. */
  lemma CategoryTableSpec(stats: seq<CategoryStat>, k: nat)
    ensures SortedDesc(SortDesc(stats, StatViews), StatViews)
    ensures multiset(SortDesc(stats, StatViews)) == multiset(stats)
    ensures KeyClass(SortDesc(stats, StatViews), StatViews, k) == KeyClass(stats, StatViews, k)
    ensures SortDesc(SortDesc(stats, StatViews), StatViews) == SortDesc(stats, StatViews)
  {
    SortDescSorted(stats, StatViews);
    SortDescStable(stats, StatViews, k);
    SortDescIdempotent(stats, StatViews);
  }
}
