/** The advertisement admin screen: the list of all ads newest first, the
    summary figures shown beside it, the position labels, the per-row
    click-through cell and the create / edit / delete handlers. */
module AdManager {
  import opened Common
  import opened Seqs
  import opened Sorting
  import opened Tables
  import opened Advertisements

  datatype PositionOption = PositionOption(value: string, caption: string)

  /** The four slots the form offers, with their labels. */
  const Positions: seq<PositionOption> := [
    PositionOption("header", "Cabe\U{00E7}alho"),
    PositionOption("sidebar", "Barra Lateral"),
    PositionOption("content", "Conte\U{00FA}do"),
    PositionOption("footer", "Rodap\U{00E9}")
  ]

  predicate IsActive(a: Ad) { a.active }
  function Impressions(a: Ad): nat { a.impressions }
  function Clicks(a: Ad): nat { a.clicks }

  function AtPosition(position: string): Ad -> bool
  {
    (a: Ad) => a.position == position
  }

  predicate IsListed(position: string)
  {
    exists i :: 0 <= i < |Positions| && Positions[i].value == position
  }

  /** `fetchAds`: every row, `order("created_at", { ascending: false })`. */
  function FetchAds(rows: seq<Ad>): (r: seq<Ad>)
    ensures multiset(r) == multiset(rows)
    ensures SortedDesc(r, AdCreatedAt)
  {
    SortDescSorted(rows, AdCreatedAt);
    SortDesc(rows, AdCreatedAt)
  }

  /** The figures of the summary cards. */
  datatype AdStats = AdStats(
    total: nat, active: nat, impressions: nat, clicks: nat,
    header: nat, sidebar: nat, content: nat, footer: nat)

  function Stats(ads: seq<Ad>): (s: AdStats)
    ensures s.total == |ads| && s.active <= s.total
  {
    AdStats(|ads|, Count(ads, IsActive), Sum(ads, Impressions), Sum(ads, Clicks),
            Count(ads, AtPosition("header")), Count(ads, AtPosition("sidebar")),
            Count(ads, AtPosition("content")), Count(ads, AtPosition("footer")))
  }

  function Listed(): Ad -> bool
  {
    (a: Ad) => IsListed(a.position)
  }

  lemma ListedCases(a: Ad)
    ensures Listed()(a) <==>
      a.position == "header" || a.position == "sidebar" || a.position == "content" || a.position == "footer"
  {
    if Listed()(a) {
      var i :| 0 <= i < |Positions| && Positions[i].value == a.position;
    } else {
      assert Positions[0].value == "header" && Positions[1].value == "sidebar";
      assert Positions[2].value == "content" && Positions[3].value == "footer";
    }
  }

  /** The four position counts add up to the number of ads in a listed
      position. */
  lemma {:induction false} PositionSumIsListed(ads: seq<Ad>)
    ensures Count(ads, AtPosition("header")) + Count(ads, AtPosition("sidebar"))
          + Count(ads, AtPosition("content")) + Count(ads, AtPosition("footer")) == Count(ads, Listed())
  {
    if ads != [] {
      PositionSumIsListed(ads[1..]);
      ListedCases(ads[0]);
      CountCons(ads, AtPosition("header"));
      CountCons(ads, AtPosition("sidebar"));
      CountCons(ads, AtPosition("content"));
      CountCons(ads, AtPosition("footer"));
      CountCons(ads, Listed());
    }
  }

  /** The position figures: their sum is the number of ads in a listed
      position, at most the total, and exactly the total when no ad uses
      another position. */
  lemma PositionCountsSum(ads: seq<Ad>)
    ensures Stats(ads).header + Stats(ads).sidebar + Stats(ads).content + Stats(ads).footer == Count(ads, Listed())
    ensures Stats(ads).header + Stats(ads).sidebar + Stats(ads).content + Stats(ads).footer <= Stats(ads).total
    ensures (forall a :: a in ads ==> IsListed(a.position)) ==>
      Stats(ads).header + Stats(ads).sidebar + Stats(ads).content + Stats(ads).footer == Stats(ads).total
  {
    PositionSumIsListed(ads);
    if forall a :: a in ads ==> IsListed(a.position) {
      CountAll(ads, Listed());
    }
  }

  /** The figures are the same over the fetched list as over the table:
      the ordering only permutes the rows. */
  lemma StatsOfFetched(rows: seq<Ad>)
    ensures Stats(FetchAds(rows)) == Stats(rows)
  {
    var f := FetchAds(rows);
    CountPermutation(f, rows, IsActive);
    SumPermutation(f, rows, Impressions);
    SumPermutation(f, rows, Clicks);
    CountPermutation(f, rows, AtPosition("header"));
    CountPermutation(f, rows, AtPosition("sidebar"));
    CountPermutation(f, rows, AtPosition("content"));
    CountPermutation(f, rows, AtPosition("footer"));
  }

  /** `positions.find(p => p.value === position)`. */
  function FindPosition(opts: seq<PositionOption>, position: string): (r: Option<PositionOption>)
    ensures r.Some? ==> r.value in opts && r.value.value == position
    ensures r.None? ==> forall o :: o in opts ==> o.value != position
  {
    if opts == [] then None
    else if opts[0].value == position then Some(opts[0])
    else FindPosition(opts[1..], position)
  }

  /** `getPositionLabel`: the label of a listed position, the position
      itself otherwise. */
  function PositionLabel(position: string): (l: string)
    ensures forall i :: 0 <= i < |Positions| && Positions[i].value == position ==> l == Positions[i].caption
    ensures !IsListed(position) ==> l == position
  {
    match FindPosition(Positions, position)
    case Some(o) => if o.caption != "" then o.caption else position
    case None => position
  }

  /** The click-through cell: "0%" when there are no impressions, else the
      ratio clicks / impressions (shown as a percentage). */
  datatype CtrCell = ZeroPercent | Ratio(clicks: nat, impressions: nat)

  function Ctr(a: Ad): (c: CtrCell)
    ensures c.ZeroPercent? <==> a.impressions == 0
    ensures c.Ratio? ==> c == Ratio(a.clicks, a.impressions) && c.impressions > 0
  {
    if a.impressions > 0 then Ratio(a.clicks, a.impressions) else ZeroPercent
  }

  /** The empty form the dialog opens with. */
  const BlankForm: AdForm := AdForm("", "", "", "sidebar", true)

  /** `handleEdit`: the form takes the row's values, a missing link as "". */
  function EditForm(a: Ad): (f: AdForm)
    ensures f.title == a.title && f.imageUrl == a.imageUrl
    ensures f.position == a.position && f.active == a.active
    ensures a.linkUrl.None? ==> f.linkUrl == ""
    ensures a.linkUrl.Some? ==> f.linkUrl == a.linkUrl.value
  {
    AdForm(a.title, a.imageUrl, OrEmpty(a.linkUrl), a.position, a.active)
  }

  /** Saving an edit form unchanged keeps the row, except that a missing
      link is stored as "". */
  lemma EditSaveRoundTrip(rows: seq<Ad>, i: nat)
    requires i < |rows|
    ensures WithForm(rows, rows[i].id, EditForm(rows[i]))[i]
         == rows[i].(linkUrl := Some(OrEmpty(rows[i].linkUrl)))
  {
  }

  class AdManagerPanel {
    const table: AdTable
    var ads: seq<Ad>
    var editing: Option<Ad>
    var form: AdForm
    var dialogOpen: bool

    constructor (table: AdTable)
      ensures this.table == table && ads == FetchAds(table.rows)
      ensures editing == None && form == BlankForm && !dialogOpen
    {
      this.table := table;
      ads := FetchAds(table.rows);
      editing := None;
      form := BlankForm;
      dialogOpen := false;
    }

    /** The "Novo Anúncio" button: no row is edited, the form is blank and
        the dialog opens. */
    method OpenNew()
      modifies this`editing, this`form, this`dialogOpen
      ensures editing == None && form == BlankForm && dialogOpen
    {
      editing := None;
      form := BlankForm;
      dialogOpen := true;
    }

    method HandleEdit(a: Ad)
      modifies this`editing, this`form, this`dialogOpen
      ensures editing == Some(a) && form == EditForm(a) && dialogOpen
    {
      editing := Some(a);
      form := EditForm(a);
      dialogOpen := true;
    }

    /** `handleSubmit`: an update of the edited row or an insert of a new
        one. On success the dialog closes, the form is reset and the list
        is fetched again; on an error nothing changes. `newId` and `now`
        are what the backend assigns to an inserted row. */
    method HandleSubmit(newId: Id, now: Timestamp, failed: bool)
      modifies this`ads, this`editing, this`form, this`dialogOpen, table
      ensures failed ==> (table.rows == old(table.rows) && ads == old(ads) &&
                          editing == old(editing) && form == old(form) && dialogOpen == old(dialogOpen))
      ensures !failed && old(editing).Some? ==> table.rows == WithForm(old(table.rows), old(editing).value.id, old(form))
      ensures !failed && old(editing).None? ==> table.rows == old(table.rows) + [NewAd(old(form), newId, now)]
      ensures !failed ==> editing == None && form == BlankForm && !dialogOpen && ads == FetchAds(table.rows)
    {
      if failed {
        return;
      }
      if editing.Some? {
        table.UpdateFromForm(editing.value.id, form);
      } else {
        table.Insert(NewAd(form, newId, now));
      }
      dialogOpen := false;
      editing := None;
      form := BlankForm;
      ads := FetchAds(table.rows);
    }

    /** `handleDelete`: nothing happens unless the user confirms. */
    method HandleDelete(id: Id, confirmed: bool, failed: bool)
      modifies this`ads, table
      ensures !confirmed || failed ==> table.rows == old(table.rows) && ads == old(ads)
      ensures confirmed && !failed ==> table.rows == Without(old(table.rows), id) && ads == FetchAds(table.rows)
    {
      if !confirmed || failed {
        return;
      }
      table.Delete(id);
      ads := FetchAds(table.rows);
    }
  }
}
