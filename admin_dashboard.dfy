/** The dashboard overview: four counts fetched from the `posts` and
    `advertisements` tables, each null count read as 0, and the
    engagement figure, the rounded mean of views per published post. */
module AdminDashboard {
  import opened Common
  import opened Seqs
  import opened Tables
  import AdManager
  import ReportsView

  /** The four responses of `fetchStats`; None is a null count or null data. */
  datatype DashboardResponses = DashboardResponses(
    totalPosts: Option<nat>,
    publishedPosts: Option<nat>,
    viewsData: Option<seq<Post>>,
    totalAds: Option<nat>)

  datatype DashboardStats = DashboardStats(totalPosts: nat, publishedPosts: nat, totalViews: nat, totalAds: nat)

  /** The state before the fetch completes. */
  const InitialStats: DashboardStats := DashboardStats(0, 0, 0, 0)

  /** What the backend answers: a count of all posts, a count and the
      views of the published posts, and a count of every advertisement
      row (no filter on `active`). */
  function Query(posts: seq<Post>, ads: seq<Ad>): DashboardResponses
  {
    DashboardResponses(Some(|posts|), Some(Count(posts, IsPublished)), Some(Filter(posts, IsPublished)), Some(|ads|))
  }

  /** `setStats` after the queries: `count || 0` for the three counts and
      the summed views, 0 without a views response. */
  function FetchStats(resp: DashboardResponses): (s: DashboardStats)
    ensures resp.totalPosts.None? ==> s.totalPosts == 0
    ensures resp.publishedPosts.None? ==> s.publishedPosts == 0
    ensures resp.totalAds.None? ==> s.totalAds == 0
    ensures resp.viewsData.None? ==> s.totalViews == 0
    ensures resp.totalPosts.Some? ==> s.totalPosts == resp.totalPosts.value
    ensures resp.publishedPosts.Some? ==> s.publishedPosts == resp.publishedPosts.value
    ensures resp.totalAds.Some? ==> s.totalAds == resp.totalAds.value
    ensures resp.viewsData.Some? ==> s.totalViews == Sum(resp.viewsData.value, Views)
  {
    DashboardStats(
      OrZero(resp.totalPosts),
      OrZero(resp.publishedPosts),
      ReportsView.TotalViews(resp.viewsData),
      OrZero(resp.totalAds))
  }

  /** The engagement card: 0 with nothing published, else the quotient
      of views by published posts rounded half up. */
  function Engagement(s: DashboardStats): (e: nat)
    ensures s.publishedPosts == 0 ==> e == 0
    ensures s.publishedPosts > 0 ==>
      2 * s.publishedPosts * e <= 2 * s.totalViews + s.publishedPosts < 2 * s.publishedPosts * e + 2 * s.publishedPosts
  {
    if s.publishedPosts > 0 then MathRound(s.totalViews, s.publishedPosts) else 0
  }

  /** With every response null the figures are those of the initial state. */
  lemma FetchStatsOfNulls()
    ensures FetchStats(DashboardResponses(None, None, None, None)) == InitialStats
  {
  }

  /** Over the tables: all posts, the published ones, the views of the
      published ones, and every advertisement row. */
  lemma DashboardTotals(posts: seq<Post>, ads: seq<Ad>)
    ensures FetchStats(Query(posts, ads))
         == DashboardStats(|posts|, Count(posts, IsPublished), Sum(Filter(posts, IsPublished), Views), |ads|)
  {
  }

  /** Given the same published count and views rows, the engagement card
      shows the same number as the reports screen's average: a null count
      and a zero count both give 0 in each. */
  lemma EngagementMatchesAverage(d: DashboardResponses, r: ReportsView.ReportResponses)
    requires d.publishedPosts == r.publishedPosts && d.viewsData == r.viewsData
    ensures Engagement(FetchStats(d)) == ReportsView.Build(r).avgViewsPerPost
  {
    var t := ReportsView.TotalViews(d.viewsData);
    assert ReportsView.Build(r).totalViews == t;
  }

  /** On the same tables the two screens agree. */
  lemma EngagementIsReportAverage(posts: seq<Post>, cats: seq<Category>, ads: seq<Ad>)
    ensures Engagement(FetchStats(Query(posts, ads))) == ReportsView.Build(ReportsView.Query(posts, cats)).avgViewsPerPost
  {
    EngagementMatchesAverage(Query(posts, ads), ReportsView.Query(posts, cats));
  }

  /** The advertisement card is captioned as the active ads, but its
      figure counts every row: one inactive row puts it above the number
      of active ads. */
  lemma AdsCardCountsInactive(posts: seq<Post>, ads: seq<Ad>, a: Ad)
    requires a in ads && !a.active
    ensures FetchStats(Query(posts, ads)).totalAds > AdManager.Stats(ads).active
  {
    FilterDrops(ads, AdManager.IsActive, a);
  }

  /** The advertisement count with the `active` filter the caption
      describes, `.eq("active", true)`. */
  function QueryActiveAds(posts: seq<Post>, ads: seq<Ad>): DashboardResponses
  {
    Query(posts, ads).(totalAds := Some(Count(ads, AdManager.IsActive)))
  }

  /** With the filter the card shows the active-ads figure of the
      advertisement screen, and it reaches the number of rows exactly
      when every ad is active. */
  lemma ActiveAdsCard(posts: seq<Post>, ads: seq<Ad>)
    ensures FetchStats(QueryActiveAds(posts, ads)).totalAds == AdManager.Stats(ads).active
    ensures FetchStats(QueryActiveAds(posts, ads)).totalAds == |ads| <==> forall a :: a in ads ==> a.active
  {
    CountAll(ads, AdManager.IsActive);
  }
}
