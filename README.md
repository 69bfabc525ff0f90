# News portal core, modelled in Dafny

This project models the logic of a React front end for a news portal backed by Supabase. It covers:

- the advertisement banner, which picks the newest active ad of a slot, counts impressions and clicks, and opens the advertiser's link;
- the admin screens for reports, the dashboard, ads, posts and categories, which compute totals, averages, counts per position and per category, and rankings;
- the slug generator used by the post and category editors;
- the home page's featured and regular post queries, its featured section and its "most popular" box;
- the category badge colour of a news card.

How backend calls are modelled:

- Each query is a pure function over the rows of a table held as a sequence. It applies the query's `eq` filters, its `order` and its `limit`.
- A null response is `None`.
- A component turns responses into its state with functions of those responses; lemmas connect those functions back to the tables.

What becomes a class and what stays a function:

- Code that changes state in place becomes a class with `modifies` clauses:
  - the advertisement table's counter writes (`Advertisements.AdTable`);
  - the banner's `ad` state (`AdBanner.Banner`);
  - the reports screen's category array, which the render sorts in place (`ReportsView.ReportsPanel`);
  - the home page's `posts` array, which the "most popular" box sorts in place (`IndexPage.HomePage`);
  - the editors' form state.
- Everything else is a function.

Sorting:

- `Array.prototype.sort` with a `b.key - a.key` comparator is a stable sort into non-increasing order.
- Its specification is `Sorting.SortDesc`, a functional insertion sort.
- `Sorting.SortInPlace` is an in-place insertion sort on an `array`, proved to produce exactly `SortDesc` of the old contents.
- The backend's `order(..., { ascending: false })` is modelled with the same function. Ties are unordered in the database, so every property about queries is stated so that it holds whatever order ties come in: sorted, drawn from the table, and no row left out that outranks a kept one.

Values:

- Integers are unbounded naturals. Every count, sum and counter in the source is a non-negative JavaScript number far below 2^53, so no wrap-around is modelled.
- `Math.round(t / p)` is `Common.MathRound`, the exact value `(2t + p) div (2p)`. No floating point is involved.

The slug generator (`Slug.GenerateSlug`) is the same pipeline in the post and category editors:

1. `toLowerCase`;
2. `normalize("NFD")`;
3. removal of U+0300..U+036F;
4. removal of everything but `\w`, `\s` and `-`;
5. `[-\s]+` becomes `-`;
6. `trim`.

How the slug stages are modelled:

- Stages 3 to 6 are exact: JavaScript's `\w` without the `u` flag, and the full ECMAScript whitespace set for `\s` and `trim`.
- Stages 1 and 2 are exact on ASCII and on the Latin-1 letters U+00C0..U+00FF, which the Portuguese texts of the portal use. Every other character passes through them unchanged in the model.

## Model

| member | source | states |
|---|---|---|
| Advertisements.Candidates | src/components/AdBanner.tsx:25-29 | the rows `eq("position")`, `eq("active", true)` keeps: every result is a table row with that position and active set |
| Advertisements.NewestSpec | src/components/AdBanner.tsx:25-32 | the banner query returns nothing exactly when no active row has the position; a returned row is from the table, has the position, is active, and is at least as recent as every other active row of the position |
| Advertisements.WithImpressions | src/components/AdBanner.tsx:37-40 | the impression write: rows with the id get exactly the new impression count and keep every other field (clicks included); all other rows are unchanged; the length and every id are kept |
| Advertisements.WithClicks | src/components/AdBanner.tsx:51-54 | the click write: rows with the id get exactly the new click count and keep every other field (impressions included); all other rows are unchanged |
| Advertisements.AdTable.UpdateImpressions | src/components/AdBanner.tsx:37-40 | the table after `update({ impressions }).eq("id")` is `WithImpressions` of the old table |
| Advertisements.AdTable.UpdateClicks | src/components/AdBanner.tsx:51-54 | the table after `update({ clicks }).eq("id")` is `WithClicks` of the old table |
| AdBanner.Shown | src/components/AdBanner.tsx:34-35 | `if (data) setAd(data)`: a returned row becomes the ad; without one the ad state is kept |
| AdBanner.ImpressionWrite | src/components/AdBanner.tsx:34-40 | no write without a row; with one, exactly one write of the fetched impressions + 1 to that row's id |
| AdBanner.Banner.FetchAd | src/components/AdBanner.tsx:23-45 | one fetch: the ad becomes the newest active ad of the position when there is one, and the table receives its single impression write; with no candidate neither the ad nor the table changes |
| AdBanner.Banner.ChangePosition | src/components/AdBanner.tsx:23-45 | the `[position]` dependency: a new position runs one more fetch for that position |
| AdBanner.Banner.View | src/components/AdBanner.tsx:47-75 | nothing is rendered exactly when there is no ad; otherwise the ad's image with its title as alt text |
| AdBanner.Banner.HandleClick | src/components/AdBanner.tsx:49-59 | a click writes the fetched click count + 1 to the ad's row whatever the link; a tab opens exactly when the link is present and non-empty |
| AdBanner.WithClicksTwice | src/components/AdBanner.tsx:51-54 | writing the same click value twice leaves the table as one write does |
| AdBanner.Banner.ClickRepeatedly | src/components/AdBanner.tsx:35-54 | k >= 1 clicks in one mount leave the row at the fetched count + 1, not + k, because `ad` is never re-read |
| AdBanner.AsWrittenLosesClicks | src/components/AdBanner.tsx:49-54 | for k >= 2 clicks the as-written table has k - 1 fewer clicks on the row than k increments, so the two tables differ |
| AdBanner.WithClickIncrement | src/components/AdBanner.tsx:51-54 | an increment of the stored count: rows with the id gain one click; nothing else changes |
| AdBanner.IncrementedAddsK | src/components/AdBanner.tsx:51-54 | k increments add exactly k clicks to every row with the id and change no other row |
| AdBanner.Banner.ClickRepeatedlyCounted | src/components/AdBanner.tsx:49-54 | k counted clicks add exactly k to the ad's row and change no other row |
| AdManager.FetchAds | src/components/admin/AdManager.tsx:53-60 | the list is a permutation of the table in non-increasing creation time |
| AdManager.Stats | src/components/admin/AdManager.tsx:288-303 | the total is the number of ads and the active count is at most the total |
| AdManager.PositionSumIsListed | src/components/admin/AdManager.tsx:319-320 | the four per-position counts add up to the number of ads whose position is one of the four listed |
| AdManager.PositionCountsSum | src/components/admin/AdManager.tsx:42-47 | the sum of the position counts is the number of ads in a listed position, at most the total, and exactly the total when every ad uses a listed position |
| AdManager.StatsOfFetched | src/components/admin/AdManager.tsx:53-60 | every summary figure over the fetched, reordered list equals the same figure over the table |
| AdManager.FindPosition | src/components/admin/AdManager.tsx:157 | `find`: a result is a listed option with that value; no result means no option has it |
| AdManager.PositionLabel | src/components/admin/AdManager.tsx:156-158 | a listed position gives its label, any other position gives the position itself |
| AdManager.Ctr | src/components/admin/AdManager.tsx:389-392 | the "0%" cell exactly when impressions are 0; otherwise the ratio clicks / impressions, with a non-zero divisor |
| AdManager.EditForm | src/components/admin/AdManager.tsx:119-128 | title, image, position and active are copied; a missing link becomes "" and a present one is copied |
| AdManager.EditSaveRoundTrip | src/components/admin/AdManager.tsx:73-77 | saving an unchanged edit form restores the row, except that a missing link is stored as "" |
| Advertisements.WithForm | src/components/admin/AdManager.tsx:73-77 | `update(formData).eq("id")` writes the five form columns to rows with the id and keeps their counters and creation time; other rows are unchanged |
| Advertisements.NewAd | src/components/admin/AdManager.tsx:85-88 | an inserted ad carries the form's fields and starts with zero clicks and impressions |
| Advertisements.Without | src/components/admin/AdManager.tsx:135-138 | `delete().eq("id")` leaves only rows of the table with another id |
| Advertisements.WithoutKeepsOthers | src/components/admin/AdManager.tsx:135-138 | every row with another id survives the delete |
| AdManager.AdManagerPanel.OpenNew | src/components/admin/AdManager.tsx:176-185 | the "Novo Anúncio" button clears the edited ad, blanks the form and opens the dialog |
| AdManager.AdManagerPanel.HandleEdit | src/components/admin/AdManager.tsx:119-129 | the edited ad is recorded, the form is its edit form and the dialog opens |
| AdManager.AdManagerPanel.HandleSubmit | src/components/admin/AdManager.tsx:68-117 | an update of the edited row or an insert of a new one; on success the dialog closes, the form resets and the list is refetched; on an error nothing changes |
| AdManager.AdManagerPanel.HandleDelete | src/components/admin/AdManager.tsx:131-154 | nothing happens unless the delete is confirmed and succeeds; then the row is removed and the list is refetched |
| ReportsView.TotalViews | src/components/admin/ReportsView.tsx:72 | the views summed over the returned rows, 0 for a null response |
| ReportsView.AvgViews | src/components/admin/ReportsView.tsx:73 | 0 for a null or zero published count; otherwise the natural that brackets total / published, rounded half up, with no division by zero |
| ReportsView.StatOf | src/components/admin/ReportsView.tsx:98-102 | a category's statistic keeps its name and colour and has its posts' number and views, 0 and 0 when the embedded list is null |
| ReportsView.Build | src/components/admin/ReportsView.tsx:112-120 | null counts become 0, and the average is computed from the published count exactly as `AvgViews` says |
| ReportsView.BuildOfNulls | src/components/admin/ReportsView.tsx:38-46 | with every response null the report equals the initial all-zero, all-empty state |
| ReportsView.ReportTotals | src/components/admin/ReportsView.tsx:57-73 | over the tables: the number of posts, of published posts, the views of the published posts, and their rounded mean, 0 when nothing is published |
| ReportsView.MostViewedSpec | src/components/admin/ReportsView.tsx:76-87 | exactly min(n, number of published posts) posts, all published posts of the table, by non-increasing views; no published post left out has more views than a listed one |
| ReportsView.TopPostsAreMostViewed | src/components/admin/ReportsView.tsx:76-87 | the report's top posts are the ten most viewed published posts, each joined with its category |
| ReportsView.TopPostsSpec | src/components/admin/ReportsView.tsx:76-87 | exactly min(10, number of published posts) published posts by non-increasing views, each carrying the category its `category_id` refers to; a published post left out has no more views than any listed one |
| ReportsView.ReportsPanel.ShownTopPosts | src/components/admin/ReportsView.tsx:242 | the table shows the first min(5, number of top posts) top posts |
| ReportsView.NewestSpec | src/components/admin/ReportsView.tsx:106-110 | exactly min(n, number of posts) posts of any status, newest first; a post left out is no newer than any listed one |
| ReportsView.RecentActivityIsNewest | src/components/admin/ReportsView.tsx:106-110 | the report's recent activity is the ten newest posts |
| ReportsView.CategoryStatsSpec | src/components/admin/ReportsView.tsx:90-103 | one statistic per category, in category order, with the number of posts referencing it and the sum of their views |
| ReportsView.DraftsCounted | src/components/admin/ReportsView.tsx:95-101 | an unpublished post still counts towards its category |
| ReportsView.ReportsPanel.FetchReportData | src/components/admin/ReportsView.tsx:54-120 | the report becomes the one built from the current tables, and the category array holds its statistics |
| ReportsView.ReportsPanel.SetTimeRange | src/components/admin/ReportsView.tsx:48-52 | choosing a range refetches, and the report is the same for every range |
| ReportsView.ReportsPanel.RenderCategoryTable | src/components/admin/ReportsView.tsx:291-292 | the render sorts the state array itself; the rows shown, and the report's statistics from then on, are the stable descending sort of the previous statistics by total views |
| ReportsView.CategoryTableSpec | src/components/admin/ReportsView.tsx:291-292 | the category table is sorted by total views, is a permutation of the statistics, keeps ties in fetched order, and a second render shows the same table |
| ReportsView.ActiveCategoriesCountsAll | src/components/admin/ReportsView.tsx:171-174 | the "Categorias Ativas" figure counts every category; a category without a published post still counts, so the figure exceeds the captioned one |
| ReportsView.ActiveCategories | src/components/admin/ReportsView.tsx:171-174 | the captioned count of categories with a published post never exceeds the number of categories |
| ReportsView.ActiveCategoriesSpec | src/components/admin/ReportsView.tsx:171-174 | the captioned figure equals the number of categories exactly when every category has a published post |
| Sorting.SortDesc | src/components/admin/ReportsView.tsx:292 | the sort's result is a permutation of its input with the same length |
| Sorting.SortDescSorted | src/components/admin/ReportsView.tsx:292 | the sort's output is in non-increasing key order |
| Sorting.SortDescStable | src/components/admin/ReportsView.tsx:292 | for every key value, the elements with that key keep their input order |
| Sorting.SortDescIdempotent | src/components/admin/ReportsView.tsx:292 | sorting twice is sorting once |
| Sorting.SortDescOfSorted | src/components/admin/ReportsView.tsx:292 | a sequence already in order is left unchanged |
| Sorting.InsertSorted | src/components/admin/ReportsView.tsx:292 | inserting into a sorted sequence keeps it sorted |
| Sorting.InsertKeyClass | src/components/admin/ReportsView.tsx:292 | insertion puts the new element after all equal-key elements |
| Sorting.TopN | src/pages/Index.tsx:150-153 | the first n of the sorted sequence are sorted, a sub-multiset of the input, and outrank or tie every element left out |
| Sorting.TopNMembers | src/pages/Index.tsx:150-153 | every kept element is an element of the input |
| Sorting.TopNLeftOut | src/pages/Index.tsx:150-153 | an input element not kept ranks no higher than any kept one |
| Sorting.InsertLast | src/pages/Index.tsx:151 | one in-place insertion step: the prefix a[..i+1] becomes the old prefix with a[i] inserted, and the rest of the array is untouched |
| Sorting.SortInPlace | src/pages/Index.tsx:151 | the array's new contents are exactly the stable descending sort of its old contents |
| AdminDashboard.FetchStats | src/components/admin/AdminDashboard.tsx:41-53 | each null count is read as 0 and a present count is shown as it is; the views figure is the sum of the returned rows' views, 0 for null views data |
| AdminDashboard.FetchStatsOfNulls | src/components/admin/AdminDashboard.tsx:14-19 | with every response null the figures equal the initial state |
| AdminDashboard.DashboardTotals | src/components/admin/AdminDashboard.tsx:26-46 | over the tables: all posts, the published ones, the views of the published ones, and every advertisement row |
| AdminDashboard.Engagement | src/components/admin/AdminDashboard.tsx:107 | 0 when nothing is published; otherwise the natural that brackets views / published, rounded half up, with no division by zero |
| AdminDashboard.EngagementMatchesAverage | src/components/admin/AdminDashboard.tsx:107 | given the same published count and views rows, the engagement card equals the reports screen's average, a null count included |
| AdminDashboard.EngagementIsReportAverage | src/components/admin/AdminDashboard.tsx:107 | on the same tables the engagement card and the reports average are equal |
| AdminDashboard.AdsCardCountsInactive | src/components/admin/AdminDashboard.tsx:44-46 | one inactive ad puts the card captioned "Anúncios ativos" above the number of active ads |
| AdminDashboard.ActiveAdsCard | src/components/admin/AdminDashboard.tsx:98-104 | with an `active` filter the card shows the ad screen's active count, which equals the number of rows exactly when every ad is active |
| Slug.LowerChar | src/components/admin/PostManager.tsx:100 | a lowered character is never a capital, and a non-capital is unchanged |
| Slug.Lower | src/components/admin/PostManager.tsx:100 | `toLowerCase` keeps the length, lowers each character and leaves no capital |
| Slug.Nfd1 | src/components/admin/PostManager.tsx:101 | characters outside U+00C0..U+00FF decompose to themselves; decomposition adds no capital |
| Slug.Nfd | src/components/admin/PostManager.tsx:101 | decomposition of a string with no capital has no capital |
| Slug.CollapseFrom | src/components/admin/PostManager.tsx:104 | removing '-' and whitespace from the input and from the output gives the same string, so every other character survives in order; the only dash-or-space character written is '-', never two in a row; the output is empty exactly when the input is, or is one run continuing the current one |
| Slug.CollapseChars | src/components/admin/PostManager.tsx:104 | the collapse writes only '-' and characters of its input other than '-' and whitespace |
| Slug.TrimStart | src/components/admin/PostManager.tsx:105 | the result is a suffix of the input, everything removed is whitespace, and the result does not start with whitespace |
| Slug.TrimEnd | src/components/admin/PostManager.tsx:105 | the result is a prefix of the input, everything removed is whitespace, and the result does not end with whitespace |
| Slug.GenerateSlug | src/components/admin/PostManager.tsx:98-106 | every generated slug holds only a-z, 0-9, '_' and '-', so no whitespace, and never two '-' in a row |
| Slug.CollapsedSlugChars | src/components/admin/PostManager.tsx:100-104 | after the collapse only slug characters remain, for any input |
| Slug.TrimNoSpace | src/components/admin/PostManager.tsx:105 | the trim removes nothing from a string of slug characters |
| Slug.SlugFixpoint | src/components/admin/PostManager.tsx:98-106 | a slug-shaped string is its own slug |
| Slug.SlugIdempotent | src/components/admin/PostManager.tsx:98-106 | generating a slug from a generated slug changes nothing |
| Slug.LeadingSpaceGivesDash | src/components/admin/PostManager.tsx:104-105 | leading whitespace becomes a leading '-' that the trim does not remove |
| Slug.TrailingSpaceGivesDash | src/components/admin/PostManager.tsx:104-105 | trailing whitespace becomes a trailing '-' that the trim does not remove |
| Slug.SlugFallback | src/components/admin/PostManager.tsx:113 | a typed slug is submitted unchanged; an empty one is replaced by the generated slug of the title, which has the slug shape |
| PostManager.Payload | src/components/admin/PostManager.tsx:116-121 | the form with only its slug replaced by the fallback, the author, and a publication time that is present exactly when published and is then `now` |
| PostManager.EditForm | src/components/admin/PostManager.tsx:172-184 | title, slug, excerpt, content, published and featured are copied; a missing image or category becomes "" |
| PostManager.OnTitleChange | src/components/admin/PostManager.tsx:265-269 | typing a title overwrites the slug field with the generated slug of the new title and keeps every other field |
| PostManager.TitleChangeSubmitsGeneratedSlug | src/components/admin/PostManager.tsx:113-118 | after a title edit the submitted slug is the generated one |
| PostManager.EditSaveRoundTrip | src/components/admin/PostManager.tsx:116-121 | saving an unchanged edit sends the row's own fields (a missing image or category as ""), its slug unless it is empty, and for a published post a new publication time |
| PostManager.PostEditor.HandleEdit | src/components/admin/PostManager.tsx:172-185 | the edited post is recorded, the form is its edit form and the dialog opens |
| PostManager.PostEditor.OpenNew | src/components/admin/PostManager.tsx:228-240 | the "Novo Post" button clears the edited post and blanks the form |
| PostManager.PostEditor.ChangeTitle | src/components/admin/PostManager.tsx:265-269 | the form becomes `OnTitleChange` of the old form |
| PostManager.PostEditor.ChangeSlug | src/components/admin/PostManager.tsx:278 | a typed slug replaces only the slug field |
| PostManager.PostEditor.HandleSubmit | src/components/admin/PostManager.tsx:108-170 | sends an update of the edited post or an insert, carrying the payload of the form; on success the form is reset and the dialog closes; on an error the state is kept |
| CategoryManager.CountQuery | src/components/admin/CategoryManager.tsx:44-50 | each category comes with a one-element `posts(count)` list holding the number of its posts |
| CategoryManager.PostCount | src/components/admin/CategoryManager.tsx:55 | the first count, or 0 when the aggregate is missing or empty |
| CategoryManager.Entries | src/components/admin/CategoryManager.tsx:53-56 | one entry per row, with that row's post count |
| CategoryManager.EntryCounts | src/components/admin/CategoryManager.tsx:44-56 | each listed count is the number of posts of that category, drafts included, and equals the count the reports screen shows for it |
| CategoryManager.CategoryData | src/components/admin/CategoryManager.tsx:81-86 | the form with only its slug replaced by the fallback from the name; no field is added or dropped |
| CategoryManager.EditForm | src/components/admin/CategoryManager.tsx:133-141 | name, slug and colour are copied; a missing description becomes "" |
| CategoryManager.OnNameChange | src/components/admin/CategoryManager.tsx:228-232 | typing a name overwrites the slug field with the generated slug of the new name and keeps every other field |
| CategoryManager.EditSaveRoundTrip | src/components/admin/CategoryManager.tsx:81-86 | saving an unchanged edit sends the row's own fields, a missing description as "", and a generated slug only when the row's is empty |
| CategoryManager.NameChangeSubmitsSlug | src/components/admin/CategoryManager.tsx:81-86 | after a name edit the submitted slug has the slug shape and is left unchanged by a second generation |
| CategoryManager.CategoryEditor.HandleEdit | src/components/admin/CategoryManager.tsx:133-142 | the edited category is recorded, the form is its edit form and the dialog opens |
| CategoryManager.CategoryEditor.OpenNew | src/components/admin/CategoryManager.tsx:196-204 | the "Nova Categoria" button clears the edited category and resets the form |
| CategoryManager.CategoryEditor.ChangeName | src/components/admin/CategoryManager.tsx:228-232 | the form becomes `OnNameChange` of the old form |
| CategoryManager.CategoryEditor.ChangeSlug | src/components/admin/CategoryManager.tsx:242 | a typed slug replaces only the slug field |
| CategoryManager.CategoryEditor.HandleSubmit | src/components/admin/CategoryManager.tsx:76-131 | sends an update of the edited category or an insert with the category data; on success the form is reset and the dialog closes; on an error the state is kept |
| Tables.CategoryOf | src/pages/Index.tsx:41 | the embedded category is a category whose id the post references, and is null when the post has none or no category has that id |
| Tables.Join | src/pages/Index.tsx:39-42 | each returned post comes with the category it references, in the same order |
| IndexPage.LatestSpec | src/pages/Index.tsx:37-58 | a filtered, newest-first, limited query returns exactly min(n, number of passing rows) rows, only rows of the table that pass the filter, newest first, and no passing row left out is newer than a returned one |
| IndexPage.Remap | src/pages/Index.tsx:60-67 | each post keeps its row and join, and its `category` equals its `categories` join; a null response gives [] |
| IndexPage.FeaturedSpec | src/pages/Index.tsx:37-46 | the three newest published, featured posts, or all when there are fewer: exactly min(3, their number), newest first, each with its category, and none left out is newer than a shown one |
| IndexPage.RegularSpec | src/pages/Index.tsx:49-58 | the twelve newest published, non-featured posts, or all when there are fewer: exactly min(12, their number), newest first, each with its category, and none left out is newer than a shown one |
| IndexPage.FeaturedRegularDisjoint | src/pages/Index.tsx:37-58 | no post is both in the featured list and in the regular list |
| IndexPage.Layout | src/pages/Index.tsx:107-119 | the featured section is hidden exactly when there is no featured post; otherwise the main card is the first post and the secondary cards are `slice(1, 3)` |
| IndexPage.LayoutShowsAll | src/pages/Index.tsx:107-119 | with one to three featured posts, each is shown exactly once and in order |
| IndexPage.MostPopularSpec | src/pages/Index.tsx:150-153 | exactly min(5, number of posts) posts of the list, in non-increasing views; no post left out has more views than a shown one |
| IndexPage.HomePage.FetchPosts | src/pages/Index.tsx:34-73 | the featured state and the `posts` array hold the remapped responses |
| IndexPage.HomePage.MostPopular | src/pages/Index.tsx:150-153 | the `posts` array is sorted in place into the stable descending sort by views, and the box shows its first five |
| IndexPage.HomePage.Grid | src/pages/Index.tsx:136 | the grid shows the `posts` array in its current order |
| IndexPage.HomePage.Render | src/pages/Index.tsx:136-153 | one render: the grid reads the array in its fetched order before the box sorts it in place, so only the next render's grid is in views order; the box shows the first five by views |
| NewsCard.GetCategoryColor | src/components/NewsCard.tsx:29-39 | a known slug gets its table class; an undefined or unknown slug gets "bg-primary"; the result is always one of the seven classes |
| NewsCard.KnownSlugColors | src/components/NewsCard.tsx:30-37 | each known slug s gets "bg-category-" + s |
| NewsCard.KnownSlugs | src/components/NewsCard.tsx:30-37 | the table knows exactly the six slugs politica, economia, esportes, tecnologia, saude and mundo |
| Common.OrZero | src/components/admin/AdminDashboard.tsx:49-52 | `count || 0`: a null count is 0 and a present count is kept |
| Common.OrEmpty | src/components/admin/PostManager.tsx:179-180 | `value || ""`: a missing string is "" and a present one is kept |
| Common.MathRound | src/components/admin/ReportsView.tsx:73 | `Math.round(t / p)`: the natural r with 2pr <= 2t + p < 2pr + 2p |
| Common.MathRoundUnique | src/components/admin/ReportsView.tsx:73 | that bracket determines the rounding uniquely |

## Left out

- Network, authentication and sessions are not modelled. Every Supabase call is modelled only by its filter, order and limit over a sequence of rows. The signed-in user's id and the current time are parameters of the post submit.
- A backend error is a boolean parameter of each handler. Toasts, `confirm()`, `window.open`, loading flags, skeletons and JSX markup are out of the model; opening a tab is a boolean result.
- Concurrency is not modelled. The read-then-write counter updates can race between clients, and the fetch effects are asynchronous; the model is the sequential effect of each call.
- Formatting is left out: `toLocaleString`, `toLocaleDateString`, `formatDistanceToNow`, and the CTR's `toFixed(2)` on a floating-point percentage. Only the CTR's zero guard and its operands are modelled.
- Unicode case mapping and normalisation are modelled only on ASCII and on Latin-1. Any other character passes `toLowerCase` and `normalize("NFD")` unchanged. Full Unicode tables would be needed; the properties proved hold for the characters modelled.
- Stage 4 of the slug filter drops a non-ASCII letter in any case, so the slug shape and idempotence do not depend on that restriction.
- There is no concrete " Olá Mundo " example. The general `Slug.LeadingSpaceGivesDash` and `Slug.TrailingSpaceGivesDash` state the leading and trailing dash for every such input.
- Rows tied on the ordering column are kept in table order. The backend's tie order is unspecified, so the query properties are stated so that they do not depend on it.
- The `name` order of the category lists is not modelled; it depends on the database's string collation.
- The undefined `views` of a category's embedded post (`post.views || 0`) cannot occur. In the model every row's views is a natural.
- Column defaults are assumed: a new ad's clicks and impressions start at 0, and ids and creation times come from the database.
- PostManager's `posts` list query, and the post and category deletes, are not modelled. They are a plain select and a delete by id, with the same shape as the ad screen's, which `AdManager.AdManagerPanel.HandleDelete` models.
- The post and category submits produce the write request. How the database stores the payload's columns (for example an empty category id) is outside the source shown.
- CollapseFrom: the contract fixes which characters survive, in order, and that dashes never double, but not where each '-' stands between the kept characters.
- When the banner's position changes and the new position has no ad, the previous ad stays on screen. `AdBanner.Banner.ChangePosition` states this as written.
- Properties that hold for any JavaScript object lookup are not modelled for slugs such as "toString", which hit `Object.prototype` in `getCategoryColor`.
- Header.tsx, Footer.tsx and pages/Admin.tsx hold markup, navigation and authentication plumbing only. They are not part of this model.
- The rotation among creatives of a slot, time-window filtering of reports and atomic counter updates do not occur in the code.
  - The banner always shows the single newest active ad.
  - The time range only triggers a refetch.
  - Counters use read-then-write.

## Findings

| source | as written | input that shows it | evidently intended | confidence | as-written member | corrected member |
|---|---|---|---|---|---|---|
| src/components/AdBanner.tsx:35,49-54 | every click writes `ad.clicks + 1`, where `ad` is the row as fetched at mount and is never re-read | one mounted banner, an ad fetched with 7 clicks, clicked twice: the row ends at 8, not 9 | each click adds one to the stored count | medium, not executed | AdBanner.AsWrittenLosesClicks | AdBanner.Banner.ClickRepeatedlyCounted |
| src/components/admin/AdminDashboard.tsx:44-46,101 | the card captioned "Anúncios ativos" (active ads) shows the count of every advertisement row | two ads, one inactive: the card shows 2 while one ad is active | the count with `.eq("active", true)`, the active figure of the ad screen | medium, not executed | AdminDashboard.AdsCardCountsInactive | AdminDashboard.ActiveAdsCard |
| src/components/admin/ReportsView.tsx:171-174 | the card "Categorias Ativas", captioned "Com posts publicados", shows the number of all categories | two categories, one whose only post is a draft: the card shows 2 while one category has a published post | the number of categories with at least one published post | medium, not executed | ReportsView.ActiveCategoriesCountsAll | ReportsView.ActiveCategoriesSpec |
