/** The post editor of the admin screen: the form state, the
    title-to-slug coupling, the mapping of a row into the form for an
    edit, and the payload a submit sends (an update of the edited row or
    an insert). The author id and the current time are parameters: the
    model does not read the session or the clock. */
module PostManager {
  import opened Common
  import opened Tables
  import opened Slug

  /** The form fields; a missing image or category is "". */
  datatype PostForm = PostForm(
    title: string,
    slug: string,
    excerpt: string,
    content: string,
    featuredImage: string,
    categoryId: string,
    published: bool,
    featured: bool)

  /** The form a new post starts from, and the one a submit resets to. */
  const BlankPostForm: PostForm := PostForm("", "", "", "", "", "", false, false)

  /** `{ ...formData, slug, author_id, published_at }`. */
  datatype PostPayload = PostPayload(fields: PostForm, authorId: Option<Id>, publishedAt: Option<Timestamp>)

  /** The request a submit sends to the `posts` table. */
  datatype PostWrite = UpdatePost(id: Id, payload: PostPayload) | InsertPost(payload: PostPayload)

  /** The payload of a submit: the form with only its slug replaced by the
      fallback, the author, and a publication time that is now exactly
      when the form says published. */
  function Payload(f: PostForm, authorId: Option<Id>, now: Timestamp): (p: PostPayload)
    ensures p.fields.(slug := f.slug) == f
    ensures p.fields.slug == SlugFallback(f.slug, f.title)
    ensures p.authorId == authorId
    ensures p.publishedAt.Some? <==> f.published
    ensures p.publishedAt.Some? ==> p.publishedAt.value == now
  {
    PostPayload(
      f.(slug := SlugFallback(f.slug, f.title)),
      authorId,
      if f.published then Some(now) else None)
  }

  /** `handleEdit`: the form takes the row's columns, a missing image or
      category as "". */
  function EditForm(p: Post): (f: PostForm)
    ensures f.title == p.title && f.slug == p.slug && f.excerpt == p.excerpt && f.content == p.content
    ensures f.published == p.published && f.featured == p.featured
    ensures p.featuredImage.None? ==> f.featuredImage == ""
    ensures p.featuredImage.Some? ==> f.featuredImage == p.featuredImage.value
    ensures p.categoryId.None? ==> f.categoryId == ""
    ensures p.categoryId.Some? ==> f.categoryId == p.categoryId.value
  {
    PostForm(p.title, p.slug, p.excerpt, p.content, OrEmpty(p.featuredImage), OrEmpty(p.categoryId), p.published, p.featured)
  }

  /** Typing a title: the slug field is overwritten by the generated slug
      of the new title, whatever was typed there; the other fields stay. */
  function OnTitleChange(f: PostForm, title: string): (r: PostForm)
    ensures r.title == title && r.slug == GenerateSlug(title) && IsSlug(r.slug)
    ensures r.(title := f.title, slug := f.slug) == f
  {
    f.(title := title, slug := GenerateSlug(title))
  }

  /** After a title edit the submitted slug is the generated one, even
      when the generated slug is empty and the fallback applies. */
  lemma TitleChangeSubmitsGeneratedSlug(f: PostForm, title: string, authorId: Option<Id>, now: Timestamp)
    ensures Payload(OnTitleChange(f, title), authorId, now).fields.slug == GenerateSlug(title)
  {
  }

  /** Editing a row and saving without changes submits the row's own
      columns (missing image or category as ""), its slug unless that is
      empty, and, for a published row, a new publication time. */
  lemma EditSaveRoundTrip(p: Post, authorId: Option<Id>, now: Timestamp)
    ensures var sent := Payload(EditForm(p), authorId, now).fields;
      sent.title == p.title && sent.excerpt == p.excerpt && sent.content == p.content &&
      sent.published == p.published && sent.featured == p.featured &&
      sent.featuredImage == OrEmpty(p.featuredImage) && sent.categoryId == OrEmpty(p.categoryId)
    ensures p.slug != "" ==> Payload(EditForm(p), authorId, now).fields == EditForm(p)
    ensures p.slug == "" ==> Payload(EditForm(p), authorId, now).fields.slug == GenerateSlug(p.title)
    ensures p.published ==> Payload(EditForm(p), authorId, now).publishedAt == Some(now)
  {
  }

  class PostEditor {
    var form: PostForm
    var editing: Option<Post>
    var dialogOpen: bool

    constructor ()
      ensures form == BlankPostForm && editing == None && !dialogOpen
    {
      form := BlankPostForm;
      editing := None;
      dialogOpen := false;
    }

    /** The "Novo Post" button: no row is edited and the form is blank. */
    method OpenNew()
      modifies this
      ensures form == BlankPostForm && editing == None && dialogOpen
    {
      editing := None;
      form := BlankPostForm;
      dialogOpen := true;
    }

    method HandleEdit(p: Post)
      modifies this
      ensures editing == Some(p) && form == EditForm(p) && dialogOpen
    {
      editing := Some(p);
      form := EditForm(p);
      dialogOpen := true;
    }

    /** The title input. */
    method ChangeTitle(title: string)
      modifies this`form
      ensures form == OnTitleChange(old(form), title)
    {
      form := OnTitleChange(form, title);
    }

    /** The slug input: a typed slug is kept as typed. */
    method ChangeSlug(slug: string)
      modifies this`form
      ensures form == old(form).(slug := slug)
    {
      form := form.(slug := slug);
    }

    /** `handleSubmit`: sends an update of the edited row, or an insert,
        with the payload of the current form. On success the dialog
        closes and the form is reset; on an error the state is kept. */
    method HandleSubmit(authorId: Option<Id>, now: Timestamp, failed: bool) returns (w: PostWrite)
      modifies this
      ensures old(editing).Some? ==> w == UpdatePost(old(editing).value.id, Payload(old(form), authorId, now))
      ensures old(editing).None? ==> w == InsertPost(Payload(old(form), authorId, now))
      ensures failed ==> form == old(form) && editing == old(editing) && dialogOpen == old(dialogOpen)
      ensures !failed ==> form == BlankPostForm && editing == None && !dialogOpen
    {
      var payload := Payload(form, authorId, now);
      if editing.Some? {
        w := UpdatePost(editing.value.id, payload);
      } else {
        w := InsertPost(payload);
      }
      if !failed {
        dialogOpen := false;
        editing := None;
        form := BlankPostForm;
      }
    }
  }
}
