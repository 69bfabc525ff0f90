/** The home page: two post queries (up to three featured posts and up
    to twelve regular ones, both published and newest first), the
    remapping of the embedded `categories` object to `category`, the
    featured section, and the "most popular" box, which sorts the regular
    posts in place by views and shows the first five. */
module IndexPage {
  import opened Common
  import opened Seqs
  import opened Sorting
  import opened Tables

  /** A post as the page keeps it: the row, its embedded join, and the
      `category` field the remapping adds. */
  datatype HomePost = HomePost(post: Post, categories: Option<Category>, category: Option<Category>)

  function HomeViews(h: HomePost): nat { h.post.views }

  function IsFeatured(): Post -> bool
  {
    (p: Post) => p.published && p.featured
  }

  function IsRegular(): Post -> bool
  {
    (p: Post) => p.published && !p.featured
  }

  /** `eq(...).order("created_at", { ascending: false }).limit(n)`. */
  function Latest(posts: seq<Post>, keep: Post -> bool, n: nat): seq<Post>
  {
    Take(SortDesc(Filter(posts, keep), PostCreatedAt), n)
  }

  /** The rows a filtered, newest-first, limited query returns: n of
      them, or every passing row when there are fewer, all from the table
      and passing the filter, newest first, and no passing row left out is
      newer than a returned one. */
  lemma LatestSpec(posts: seq<Post>, keep: Post -> bool, n: nat)
    ensures |Latest(posts, keep, n)| == if Count(posts, keep) < n then Count(posts, keep) else n
    ensures forall i :: 0 <= i < |Latest(posts, keep, n)| ==>
      Latest(posts, keep, n)[i] in posts && keep(Latest(posts, keep, n)[i])
    ensures SortedDesc(Latest(posts, keep, n), PostCreatedAt)
    ensures forall p :: p in posts && keep(p) && p !in Latest(posts, keep, n) ==>
      forall q :: q in Latest(posts, keep, n) ==> p.createdAt <= q.createdAt
  {
    LatestDrawn(posts, keep, n);
    TopN(Filter(posts, keep), PostCreatedAt, n);
    LatestLeftOut(posts, keep, n);
  }

  lemma LatestLeftOut(posts: seq<Post>, keep: Post -> bool, n: nat)
    ensures forall p :: p in posts && keep(p) && p !in Latest(posts, keep, n) ==>
      forall q :: q in Latest(posts, keep, n) ==> p.createdAt <= q.createdAt
  {
    forall p | p in posts && keep(p) && p !in Latest(posts, keep, n)
      ensures forall q :: q in Latest(posts, keep, n) ==> p.createdAt <= q.createdAt
    {
      FilterKeeps(posts, keep, p);
      TopNLeftOut(Filter(posts, keep), PostCreatedAt, n, p);
    }
  }

  lemma LatestDrawn(posts: seq<Post>, keep: Post -> bool, n: nat)
    ensures forall i :: 0 <= i < |Latest(posts, keep, n)| ==>
      Latest(posts, keep, n)[i] in posts && keep(Latest(posts, keep, n)[i])
  {
    var kept := Filter(posts, keep);
    TopNMembers(kept, PostCreatedAt, n);
    FilterMembers(posts, keep);
    forall i | 0 <= i < |Latest(posts, keep, n)|
      ensures Latest(posts, keep, n)[i] in posts && keep(Latest(posts, keep, n)[i])
    {
      var q := Latest(posts, keep, n)[i];
      assert q in kept;
      var k :| 0 <= k < |kept| && kept[k] == q;
    }
  }

  /** What the backend answers for the two queries. */
  function FeaturedQuery(posts: seq<Post>, cats: seq<Category>): Option<seq<JoinedPost>>
  {
    Some(Join(Latest(posts, IsFeatured(), 3), cats))
  }

  function RegularQuery(posts: seq<Post>, cats: seq<Category>): Option<seq<JoinedPost>>
  {
    Some(Join(Latest(posts, IsRegular(), 12), cats))
  }

  /** `(data || []).map(post => ({ ...post, category: post.categories }))`. */
  function Remap(data: Option<seq<JoinedPost>>): (r: seq<HomePost>)
    ensures data.None? ==> r == []
    ensures data.Some? ==> |r| == |data.value|
    ensures data.Some? ==> forall i :: 0 <= i < |r| ==>
      r[i].post == data.value[i].post && r[i].categories == data.value[i].categories && r[i].category == r[i].categories
  {
    match data
    case None => []
    case Some(rows) => seq(|rows|, i requires 0 <= i < |rows| => HomePost(rows[i].post, rows[i].categories, rows[i].categories))
  }

  /** The featured posts: the three newest published, featured posts,
      or all of them when there are fewer, newest first, each with its
      category. */
  lemma FeaturedSpec(posts: seq<Post>, cats: seq<Category>)
    ensures var f := Remap(FeaturedQuery(posts, cats));
      |f| == (if Count(posts, IsFeatured()) < 3 then Count(posts, IsFeatured()) else 3) &&
      (forall i :: 0 <= i < |f| ==> f[i].post in posts && f[i].post.published && f[i].post.featured) &&
      (forall i :: 0 <= i < |f| ==> f[i].category == CategoryOf(cats, f[i].post.categoryId)) &&
      (forall i, j :: 0 <= i < j < |f| ==> f[i].post.createdAt >= f[j].post.createdAt) &&
      (forall p :: p in posts && p.published && p.featured && (forall i :: 0 <= i < |f| ==> f[i].post != p) ==>
         forall i :: 0 <= i < |f| ==> p.createdAt <= f[i].post.createdAt)
  {
    LatestSpec(posts, IsFeatured(), 3);
    RemapLeftOut(posts, cats, IsFeatured(), 3);
  }

  /** The regular posts: the twelve newest published posts that are not
      featured, or all of them when there are fewer, newest first, each
      with its category. */
  lemma RegularSpec(posts: seq<Post>, cats: seq<Category>)
    ensures var r := Remap(RegularQuery(posts, cats));
      |r| == (if Count(posts, IsRegular()) < 12 then Count(posts, IsRegular()) else 12) &&
      (forall i :: 0 <= i < |r| ==> r[i].post in posts && r[i].post.published && !r[i].post.featured) &&
      (forall i :: 0 <= i < |r| ==> r[i].category == CategoryOf(cats, r[i].post.categoryId)) &&
      (forall i, j :: 0 <= i < j < |r| ==> r[i].post.createdAt >= r[j].post.createdAt) &&
      (forall p :: p in posts && p.published && !p.featured && (forall i :: 0 <= i < |r| ==> r[i].post != p) ==>
         forall i :: 0 <= i < |r| ==> p.createdAt <= r[i].post.createdAt)
  {
    LatestSpec(posts, IsRegular(), 12);
    RemapLeftOut(posts, cats, IsRegular(), 12);
  }

  /** A passing row that no remapped post carries is no newer than any of
      them. */
  lemma RemapLeftOut(posts: seq<Post>, cats: seq<Category>, keep: Post -> bool, n: nat)
    ensures var r := Remap(Some(Join(Latest(posts, keep, n), cats)));
      forall p :: p in posts && keep(p) && (forall i :: 0 <= i < |r| ==> r[i].post != p) ==>
        forall i :: 0 <= i < |r| ==> p.createdAt <= r[i].post.createdAt
  {
    var l := Latest(posts, keep, n);
    var r := Remap(Some(Join(l, cats)));
    LatestLeftOut(posts, keep, n);
    forall p | p in posts && keep(p) && (forall i :: 0 <= i < |r| ==> r[i].post != p)
      ensures forall i :: 0 <= i < |r| ==> p.createdAt <= r[i].post.createdAt
    {
      forall i | 0 <= i < |l| ensures l[i] != p {
        assert r[i].post == l[i];
      }
      forall i | 0 <= i < |r| ensures p.createdAt <= r[i].post.createdAt {
        assert r[i].post == l[i];
        assert l[i] in l;
      }
    }
  }

  /** No post is both featured and regular. */
  lemma FeaturedRegularDisjoint(posts: seq<Post>, cats: seq<Category>)
    ensures forall i, j :: 0 <= i < |Remap(FeaturedQuery(posts, cats))| && 0 <= j < |Remap(RegularQuery(posts, cats))| ==>
      Remap(FeaturedQuery(posts, cats))[i].post != Remap(RegularQuery(posts, cats))[j].post
  {
    FeaturedSpec(posts, cats);
    RegularSpec(posts, cats);
  }

  /** The featured section: hidden when there is no featured post, else
      the main card and the cards of `slice(1, 3)`. */
  datatype FeaturedLayout = Hidden | Shown(main: HomePost, secondary: seq<HomePost>)

  function Layout(featured: seq<HomePost>): (l: FeaturedLayout)
    ensures l.Hidden? <==> featured == []
    ensures l.Shown? ==> l.main == featured[0] && l.secondary == featured[1..if |featured| < 3 then |featured| else 3]
  {
    if featured == [] then Hidden
    else Shown(featured[0], featured[1..if |featured| < 3 then |featured| else 3])
  }

  /** With at most three featured posts, every one of them is shown once,
      in order: the main card, then the secondary ones. */
  lemma LayoutShowsAll(featured: seq<HomePost>)
    requires 0 < |featured| <= 3
    ensures [Layout(featured).main] + Layout(featured).secondary == featured
  {
  }

  /** The "most popular" box: five regular posts, or all when there are
      fewer, by
      non-increasing views, all from the list, and no listed-out post has
      more views than a shown one. */
  lemma MostPopularSpec(s: seq<HomePost>)
    ensures |Take(SortDesc(s, HomeViews), 5)| == if |s| < 5 then |s| else 5
    ensures forall q :: q in Take(SortDesc(s, HomeViews), 5) ==> q in s
    ensures SortedDesc(Take(SortDesc(s, HomeViews), 5), HomeViews)
    ensures forall p :: p in s && p !in Take(SortDesc(s, HomeViews), 5) ==>
      forall q :: q in Take(SortDesc(s, HomeViews), 5) ==> p.post.views <= q.post.views
  {
    TopN(s, HomeViews, 5);
    TopNMembers(s, HomeViews, 5);
    forall p | p in s && p !in Take(SortDesc(s, HomeViews), 5)
      ensures forall q :: q in Take(SortDesc(s, HomeViews), 5) ==> p.post.views <= q.post.views
    {
      TopNLeftOut(s, HomeViews, 5, p);
    }
  }

  class HomePage {
    var loading: bool
    var featuredPosts: seq<HomePost>
    /** The `posts` state array, which the grid and the "most popular"
        box both read. */
    var posts: array<HomePost>

    constructor ()
      ensures loading && featuredPosts == [] && posts.Length == 0
    {
      loading := true;
      featuredPosts := [];
      posts := new HomePost[0];
    }

    /** `fetchPosts` with the two responses. */
    method FetchPosts(featured: Option<seq<JoinedPost>>, regular: Option<seq<JoinedPost>>)
      modifies this
      ensures !loading && fresh(posts)
      ensures featuredPosts == Remap(featured) && posts[..] == Remap(regular)
    {
      featuredPosts := Remap(featured);
      var s := Remap(regular);
      posts := new HomePost[|s|](i requires 0 <= i < |s| => s[i]);
      assert posts[..] == s by {
        forall i | 0 <= i < |s| ensures posts[i] == s[i] { }
      }
      loading := false;
    }

    /** `posts.sort((a, b) => b.views - a.views).slice(0, 5)`: the sort
        reorders the state array itself. Within one render the grid has
        already read the array, so it is the next render of the grid that
        shows views order (see `Render`). */
    method MostPopular() returns (top: seq<HomePost>)
      modifies posts
      ensures posts[..] == SortDesc(old(posts[..]), HomeViews)
      ensures top == Take(posts[..], 5)
    {
      SortInPlace(posts, HomeViews);
      top := Take(posts[..], 5);
    }

    /** The latest-news grid: the cards of the state array, in its order. */
    function Grid(): (g: seq<HomePost>)
      reads this, posts
      ensures |g| == posts.Length && forall i :: 0 <= i < |g| ==> g[i] == posts[i]
    {
      posts[..]
    }

    /** One render of the page body: the grid reads the state array
        first, then the sidebar's box sorts it in place. The grid of this
        render is in the fetched order; the array, and so the grid of the
        next render, is in views order. */
    method Render() returns (grid: seq<HomePost>, top: seq<HomePost>)
      modifies posts
      ensures grid == old(posts[..])
      ensures posts[..] == SortDesc(old(posts[..]), HomeViews)
      ensures top == Take(SortDesc(old(posts[..]), HomeViews), 5)
    {
      grid := Grid();
      top := MostPopular();
    }
  }
}
