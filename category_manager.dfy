/** The category editor of the admin screen: the list with each
    category's post count, the form with its name-to-slug coupling, the
    mapping of a row into the form for an edit, and the data a submit
    sends (an update of the edited row or an insert). */
module CategoryManager {
  import opened Common
  import opened Seqs
  import opened Tables
  import opened Slug
  import ReportsView

  /** One element of the embedded `posts(count)` aggregate. */
  datatype CountRow = CountRow(count: nat)

  /** A `categories(*, posts(count))` row. */
  datatype CategoryCountRow = CategoryCountRow(category: Category, posts: Option<seq<CountRow>>)

  /** What the backend answers: each category with a one-element list
      holding the number of posts that reference it. */
  function CountQuery(cats: seq<Category>, posts: seq<Post>): (r: seq<CategoryCountRow>)
    ensures |r| == |cats|
    ensures forall i :: 0 <= i < |r| ==>
      r[i] == CategoryCountRow(cats[i], Some([CountRow(Count(posts, ReportsView.InCategory(cats[i].id)))]))
  {
    seq(|cats|, i requires 0 <= i < |cats| =>
      CategoryCountRow(cats[i], Some([CountRow(Count(posts, ReportsView.InCategory(cats[i].id)))])))
  }

  /** `category.posts?.[0]?.count || 0`: the first count, or 0 when the
      aggregate is missing or empty. */
  function PostCount(posts: Option<seq<CountRow>>): (n: nat)
    ensures posts.None? || posts.value == [] ==> n == 0
    ensures posts.Some? && posts.value != [] ==> n == posts.value[0].count
  {
    match posts
    case None => 0
    case Some(rows) => if rows == [] then 0 else rows[0].count
  }

  /** The list entry of a category: the row and its post count. */
  datatype CategoryEntry = CategoryEntry(category: Category, postCount: nat)

  function Entries(rows: seq<CategoryCountRow>): (r: seq<CategoryEntry>)
    ensures |r| == |rows|
    ensures forall i :: 0 <= i < |r| ==> r[i] == CategoryEntry(rows[i].category, PostCount(rows[i].posts))
  {
    seq(|rows|, i requires 0 <= i < |rows| => CategoryEntry(rows[i].category, PostCount(rows[i].posts)))
  }

  /** Each listed count is the number of posts of that category, drafts
      included, and it is the same figure the reports screen shows for
      the category. */
  lemma EntryCounts(cats: seq<Category>, posts: seq<Post>)
    ensures |Entries(CountQuery(cats, posts))| == |cats|
    ensures forall i :: 0 <= i < |cats| ==>
      Entries(CountQuery(cats, posts))[i] == CategoryEntry(cats[i], Count(posts, ReportsView.InCategory(cats[i].id)))
    ensures forall i :: 0 <= i < |cats| ==>
      Entries(CountQuery(cats, posts))[i].postCount
        == ReportsView.CategoryStats(Some(ReportsView.CategoryRows(cats, posts)))[i].postCount
  {
  }

  /** The form fields; a missing description is "". */
  datatype CategoryForm = CategoryForm(name: string, slug: string, description: string, color: string)

  /** The form a new category starts from, and the one a submit resets to. */
  const DefaultColor: string := "#3B82F6"
  const BlankCategoryForm: CategoryForm := CategoryForm("", "", "", DefaultColor)

  /** The request a submit sends to the `categories` table. */
  datatype CategoryWrite = UpdateCategory(id: Id, data: CategoryForm) | InsertCategory(data: CategoryForm)

  /** `{ ...formData, slug }`: the form with only its slug replaced by the
      fallback; no field is added or dropped. */
  function CategoryData(f: CategoryForm): (d: CategoryForm)
    ensures d.(slug := f.slug) == f
    ensures d.slug == SlugFallback(f.slug, f.name)
  {
    f.(slug := SlugFallback(f.slug, f.name))
  }

  /** `handleEdit`: the form takes the row's name, slug and colour, a
      missing description as "". */
  function EditForm(c: Category): (f: CategoryForm)
    ensures f.name == c.name && f.slug == c.slug && f.color == c.color
    ensures c.description.None? ==> f.description == ""
    ensures c.description.Some? ==> f.description == c.description.value
  {
    CategoryForm(c.name, c.slug, OrEmpty(c.description), c.color)
  }

  /** Typing a name overwrites the slug field with the generated slug of
      the new name; the other fields stay. */
  function OnNameChange(f: CategoryForm, name: string): (r: CategoryForm)
    ensures r.name == name && r.slug == GenerateSlug(name) && IsSlug(r.slug)
    ensures r.(name := f.name, slug := f.slug) == f
  {
    f.(name := name, slug := GenerateSlug(name))
  }

  /** Saving an edit without changes sends the row's own fields, the
      description as "" when missing, and the generated slug only when
      the row's slug is empty. */
  lemma EditSaveRoundTrip(c: Category)
    ensures c.slug != "" ==> CategoryData(EditForm(c)) == CategoryForm(c.name, c.slug, OrEmpty(c.description), c.color)
    ensures c.slug == "" ==> CategoryData(EditForm(c)) == CategoryForm(c.name, GenerateSlug(c.name), OrEmpty(c.description), c.color)
  {
  }

  /** Submitting after a name edit sends a slug-shaped slug, which a
      second generation leaves unchanged. */
  lemma NameChangeSubmitsSlug(f: CategoryForm, name: string)
    ensures IsSlug(CategoryData(OnNameChange(f, name)).slug)
    ensures GenerateSlug(CategoryData(OnNameChange(f, name)).slug) == CategoryData(OnNameChange(f, name)).slug
  {
    SlugIdempotent(name);
  }

  class CategoryEditor {
    var form: CategoryForm
    var editing: Option<Category>
    var dialogOpen: bool

    constructor ()
      ensures form == BlankCategoryForm && editing == None && !dialogOpen
    {
      form := BlankCategoryForm;
      editing := None;
      dialogOpen := false;
    }

    /** The "Nova Categoria" button. */
    method OpenNew()
      modifies this
      ensures form == BlankCategoryForm && editing == None && dialogOpen
    {
      editing := None;
      form := BlankCategoryForm;
      dialogOpen := true;
    }

    method HandleEdit(c: Category)
      modifies this
      ensures editing == Some(c) && form == EditForm(c) && dialogOpen
    {
      editing := Some(c);
      form := EditForm(c);
      dialogOpen := true;
    }

    /** The name input. */
    method ChangeName(name: string)
      modifies this`form
      ensures form == OnNameChange(old(form), name)
    {
      form := OnNameChange(form, name);
    }

    /** The slug input: a typed slug is kept as typed. */
    method ChangeSlug(slug: string)
      modifies this`form
      ensures form == old(form).(slug := slug)
    {
      form := form.(slug := slug);
    }

    /** `handleSubmit`: an update of the edited row, or an insert, with the
        category data of the current form. On success the dialog closes
        and the form is reset; on an error the state is kept. */
    method HandleSubmit(failed: bool) returns (w: CategoryWrite)
      modifies this`form, this`editing, this`dialogOpen
      ensures old(editing).Some? ==> w == UpdateCategory(old(editing).value.id, CategoryData(old(form)))
      ensures old(editing).None? ==> w == InsertCategory(CategoryData(old(form)))
      ensures failed ==> form == old(form) && editing == old(editing) && dialogOpen == old(dialogOpen)
      ensures !failed ==> form == BlankCategoryForm && editing == None && !dialogOpen
    {
      w := if editing.Some? then UpdateCategory(editing.value.id, CategoryData(form)) else InsertCategory(CategoryData(form));
      if !failed {
        dialogOpen := false;
        editing := None;
        form := BlankCategoryForm;
      }
    }
  }
}
