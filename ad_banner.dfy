/** The banner slot component. On mount, and again whenever its position
    changes, it fetches the newest active advertisement of the position,
    keeps it as its `ad` state and writes the fetched impression count + 1
    back to the row. A click writes the render-time click count + 1 back
    and opens the link in a new tab when there is one. */
module AdBanner {
  import opened Common
  import opened Tables
  import opened Advertisements

  /** `if (ad.link_url)`: a present, non-empty link. */
  predicate HasLink(a: Ad) { a.linkUrl.Some? && a.linkUrl.value != "" }

  /** What the component renders: the image and its alt text. */
  datatype BannerView = BannerView(imageUrl: string, alt: string)

  /** Writing the same click value twice is writing it once. */
  lemma WithClicksTwice(rows: seq<Ad>, id: Id, v: nat)
    ensures WithClicks(WithClicks(rows, id, v), id, v) == WithClicks(rows, id, v)
  {
    var once := WithClicks(rows, id, v);
    var twice := WithClicks(once, id, v);
    forall i | 0 <= i < |rows| ensures twice[i] == once[i] {
      if rows[i].id == id {
        assert twice[i] == once[i].(clicks := v);
      }
    }
  }

  /** `update({ clicks: clicks + 1 })` done by the backend on the stored
      value, for every row with the id. */
  function WithClickIncrement(rows: seq<Ad>, id: Id): (r: seq<Ad>)
    ensures |r| == |rows|
    ensures forall i :: 0 <= i < |r| && rows[i].id == id ==> r[i] == rows[i].(clicks := rows[i].clicks + 1)
    ensures forall i :: 0 <= i < |r| && rows[i].id != id ==> r[i] == rows[i]
  {
    seq(|rows|, i requires 0 <= i < |rows| => if rows[i].id == id then rows[i].(clicks := rows[i].clicks + 1) else rows[i])
  }

  /** The table after k increments of the rows with the id. */
  function Incremented(rows: seq<Ad>, id: Id, k: nat): (r: seq<Ad>)
    ensures |r| == |rows|
  {
    if k == 0 then rows else WithClickIncrement(Incremented(rows, id, k - 1), id)
  }

  /** k increments add exactly k to the clicks of every row with the id and
      change nothing else. */
  lemma {:induction false} IncrementedAddsK(rows: seq<Ad>, id: Id, k: nat)
    ensures forall i :: 0 <= i < |rows| && rows[i].id == id ==>
      Incremented(rows, id, k)[i] == rows[i].(clicks := rows[i].clicks + k)
    ensures forall i :: 0 <= i < |rows| && rows[i].id != id ==> Incremented(rows, id, k)[i] == rows[i]
  {
    if k > 0 {
      IncrementedAddsK(rows, id, k - 1);
    }
  }

  /** For k >= 2 clicks on a row fetched with count c, the single write
      of c + 1 leaves a table different from k increments. */
  lemma AsWrittenLosesClicks(rows: seq<Ad>, i: nat, k: nat)
    requires i < |rows| && k >= 2
    ensures WithClicks(rows, rows[i].id, rows[i].clicks + 1)[i].clicks
         == Incremented(rows, rows[i].id, k)[i].clicks - (k - 1)
    ensures WithClicks(rows, rows[i].id, rows[i].clicks + 1) != Incremented(rows, rows[i].id, k)
  {
    IncrementedAddsK(rows, rows[i].id, k);
  }

  /** `if (data) setAd(data)`: the ad state after a fetch. */
  function Shown(current: Option<Ad>, data: Option<Ad>): (r: Option<Ad>)
    ensures data.Some? ==> r == data
    ensures data.None? ==> r == current
  {
    if data.Some? then data else current
  }

  /** The impression write of a fetch: none without a row, else the
      fetched count + 1 on the row's id. */
  function ImpressionWrite(rows: seq<Ad>, data: Option<Ad>): (r: seq<Ad>)
    ensures data.None? ==> r == rows
    ensures data.Some? ==> r == WithImpressions(rows, data.value.id, data.value.impressions + 1)
  {
    match data
    case None => rows
    case Some(a) => WithImpressions(rows, a.id, a.impressions + 1)
  }

  class Banner {
    const table: AdTable
    var position: string
    var ad: Option<Ad>

    /** The first render, before the fetch has completed: no ad. */
    constructor (table: AdTable, position: string)
      ensures this.table == table && this.position == position && ad == None
    {
      this.table := table;
      this.position := position;
      ad := None;
    }

    /** `fetchAd`: when the query returns a row it becomes the ad and its
        fetched impression count + 1 is written back; when it returns
        nothing, neither the ad state nor the table changes. */
    method FetchAd()
      modifies this`ad, table
      ensures ad == Shown(old(ad), Newest(old(table.rows), position))
      ensures table.rows == ImpressionWrite(old(table.rows), Newest(old(table.rows), position))
    {
      var data := Newest(table.rows, position);
      if data.Some? {
        ad := data;
        table.UpdateImpressions(data.value.id, data.value.impressions + 1);
        assert table.rows == ImpressionWrite(old(table.rows), data);
      }
    }

    /** The effect on `[position]`: a new position triggers one more fetch. */
    method ChangePosition(p: string)
      modifies this`position, this`ad, table
      ensures position == p
      ensures ad == Shown(old(ad), Newest(old(table.rows), p))
      ensures table.rows == ImpressionWrite(old(table.rows), Newest(old(table.rows), p))
    {
      position := p;
      FetchAd();
    }

    /** `if (!ad) return null`, else the image of the ad. */
    function View(): (v: Option<BannerView>)
      reads this
      ensures v.None? <==> ad.None?
      ensures ad.Some? ==> v == Some(BannerView(ad.value.imageUrl, ad.value.title))
    {
      match ad
      case None => None
      case Some(a) => Some(BannerView(a.imageUrl, a.title))
    }

    /** `handleClick`: the click count of the ad as it was fetched, + 1, is
        written to its row whether or not a tab opens; a tab opens exactly
        when the ad has a non-empty link. */
    method HandleClick() returns (opensTab: bool)
      requires ad.Some?
      modifies table
      ensures table.rows == WithClicks(old(table.rows), ad.value.id, ad.value.clicks + 1)
      ensures opensTab == HasLink(ad.value)
    {
      var a := ad.value;
      table.UpdateClicks(a.id, a.clicks + 1);
      opensTab := a.linkUrl.Some? && a.linkUrl.value != "";
    }

    /** k >= 1 clicks within one mount: `ad` is never re-read, so every
        click writes the same value and the row ends at the fetched count
        + 1, whatever k is. */
    method ClickRepeatedly(k: nat)
      requires ad.Some? && k >= 1
      modifies table
      ensures table.rows == WithClicks(old(table.rows), ad.value.id, ad.value.clicks + 1)
    {
      var a := ad.value;
      var tab := HandleClick();
      var j := 1;
      while j < k
        invariant 1 <= j <= k
        invariant table.rows == WithClicks(old(table.rows), a.id, a.clicks + 1)
      {
        tab := HandleClick();
        WithClicksTwice(old(table.rows), a.id, a.clicks + 1);
        j := j + 1;
      }
    }

    /** A click that lets the backend add one to the stored count. */
    method HandleClickCounted() returns (opensTab: bool)
      requires ad.Some?
      modifies table
      ensures table.rows == WithClickIncrement(old(table.rows), ad.value.id)
      ensures opensTab == HasLink(ad.value)
    {
      table.rows := WithClickIncrement(table.rows, ad.value.id);
      opensTab := ad.value.linkUrl.Some? && ad.value.linkUrl.value != "";
    }

    /** k counted clicks add k to the stored count of the ad's row. */
    method ClickRepeatedlyCounted(k: nat)
      requires ad.Some?
      modifies table
      ensures |table.rows| == |old(table.rows)|
      ensures forall i :: 0 <= i < |old(table.rows)| && old(table.rows)[i].id == ad.value.id ==>
        table.rows[i] == old(table.rows)[i].(clicks := old(table.rows)[i].clicks + k)
      ensures forall i :: 0 <= i < |old(table.rows)| && old(table.rows)[i].id != ad.value.id ==>
        table.rows[i] == old(table.rows)[i]
    {
      var j := 0;
      while j < k
        invariant 0 <= j <= k
        invariant table.rows == Incremented(old(table.rows), ad.value.id, j)
      {
        var tab := HandleClickCounted();
        j := j + 1;
      }
      IncrementedAddsK(old(table.rows), ad.value.id, k);
    }
  }
}
