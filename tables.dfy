/** The three tables the components read and write (`posts`, `categories`,
    `advertisements`) as rows of plain values, and the embedded
    `categories(...)` join of a post query. Timestamps are the instants
    the backend compares when it orders by `created_at`, as naturals. */
module Tables {
  import opened Common

  type Id = string
  type Timestamp = nat

  datatype Post = Post(
    id: Id,
    title: string,
    slug: string,
    excerpt: string,
    content: string,
    featuredImage: Option<string>,
    published: bool,
    featured: bool,
    views: nat,
    createdAt: Timestamp,
    categoryId: Option<Id>)

  datatype Category = Category(
    id: Id,
    name: string,
    slug: string,
    description: Option<string>,
    color: string,
    createdAt: Timestamp)

  datatype Ad = Ad(
    id: Id,
    title: string,
    imageUrl: string,
    linkUrl: Option<string>,
    position: string,
    active: bool,
    clicks: nat,
    impressions: nat,
    createdAt: Timestamp)

  function Views(p: Post): nat { p.views }
  function PostCreatedAt(p: Post): nat { p.createdAt }
  function AdCreatedAt(a: Ad): nat { a.createdAt }
  predicate IsPublished(p: Post) { p.published }

  /** The category row a post's `category_id` refers to, as PostgREST's
      embedded `categories(...)` resolves it: null when there is none. */
  function CategoryOf(cats: seq<Category>, id: Option<Id>): (r: Option<Category>)
    ensures r.Some? ==> r.value in cats && id == Some(r.value.id)
    ensures r.None? ==> id.None? || forall c :: c in cats ==> c.id != id.value
  {
    if id.None? || cats == [] then None
    else if cats[0].id == id.value then Some(cats[0])
    else CategoryOf(cats[1..], id)
  }

  /** A post row with its embedded `categories` object. */
  datatype JoinedPost = JoinedPost(post: Post, categories: Option<Category>)

  /** `select("*, categories(...)")` over the rows a query returns. */
  function Join(posts: seq<Post>, cats: seq<Category>): (r: seq<JoinedPost>)
    ensures |r| == |posts|
    ensures forall i :: 0 <= i < |r| ==> r[i].post == posts[i] && r[i].categories == CategoryOf(cats, posts[i].categoryId)
  {
    seq(|posts|, i requires 0 <= i < |posts| => JoinedPost(posts[i], CategoryOf(cats, posts[i].categoryId)))
  }
}
