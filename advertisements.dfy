/** The `advertisements` table as the banner and the admin screen use it:
    the selection query of a banner slot and the row writes
    `update(...).eq("id", id)`, `insert([...])` and `delete().eq("id", id)`.
    The table is an object whose row sequence the writes replace. */
module Advertisements {
  import opened Common
  import opened Seqs
  import opened Sorting
  import opened Tables

  /** The row filter `eq("position", position).eq("active", true)`. */
  function IsCandidate(position: string): Ad -> bool
  {
    (a: Ad) => a.position == position && a.active
  }

  function NotId(id: Id): Ad -> bool
  {
    (a: Ad) => a.id != id
  }

  /** The rows of the slot that may be shown. */
  function Candidates(rows: seq<Ad>, position: string): (r: seq<Ad>)
    ensures forall i :: 0 <= i < |r| ==> r[i] in rows && r[i].position == position && r[i].active
  {
    FilterMembers(rows, IsCandidate(position));
    Filter(rows, IsCandidate(position))
  }

  /** The banner query: the candidates `order("created_at", { ascending:
      false }).limit(1).single()`; `single()` yields null on no row. */
  function Newest(rows: seq<Ad>, position: string): Option<Ad>
  {
    var c := SortDesc(Candidates(rows, position), AdCreatedAt);
    if c == [] then None else Some(c[0])
  }

  /** Nothing is selected exactly when no active row has the position; a
      selected row has the position, is active and is at least as recent
      as every other candidate. */
  lemma NewestSpec(rows: seq<Ad>, position: string)
    ensures Newest(rows, position).None? <==> forall a :: a in rows ==> !(a.position == position && a.active)
    ensures Newest(rows, position).Some? ==>
      var n := Newest(rows, position).value;
      n in rows && n.position == position && n.active &&
      forall a :: a in rows && a.position == position && a.active ==> a.createdAt <= n.createdAt
  {
    var cand := Candidates(rows, position);
    var c := SortDesc(cand, AdCreatedAt);
    SortDescSorted(cand, AdCreatedAt);
    forall a | a in rows && a.position == position && a.active
      ensures c != [] && a.createdAt <= c[0].createdAt
    {
      FilterKeeps(rows, IsCandidate(position), a);
      assert a in multiset(c);
      var i :| 0 <= i < |c| && c[i] == a;
    }
    if c != [] {
      assert c[0] in multiset(cand);
    }
  }

  /** Every row with the id gets `impressions := v`; nothing else changes. */
  function WithImpressions(rows: seq<Ad>, id: Id, v: nat): (r: seq<Ad>)
    ensures |r| == |rows|
    ensures forall i :: 0 <= i < |r| ==> r[i].id == rows[i].id
    ensures forall i :: 0 <= i < |r| && rows[i].id == id ==> r[i].impressions == v && r[i].(impressions := rows[i].impressions) == rows[i]
    ensures forall i :: 0 <= i < |r| && rows[i].id != id ==> r[i] == rows[i]
  {
    seq(|rows|, i requires 0 <= i < |rows| => if rows[i].id == id then rows[i].(impressions := v) else rows[i])
  }

  /** Every row with the id gets `clicks := v`; nothing else changes. */
  function WithClicks(rows: seq<Ad>, id: Id, v: nat): (r: seq<Ad>)
    ensures |r| == |rows|
    ensures forall i :: 0 <= i < |r| ==> r[i].id == rows[i].id
    ensures forall i :: 0 <= i < |r| && rows[i].id == id ==> r[i].clicks == v && r[i].(clicks := rows[i].clicks) == rows[i]
    ensures forall i :: 0 <= i < |r| && rows[i].id != id ==> r[i] == rows[i]
  {
    seq(|rows|, i requires 0 <= i < |rows| => if rows[i].id == id then rows[i].(clicks := v) else rows[i])
  }

  /** The editable columns of an advertisement, as the admin form holds them. */
  datatype AdForm = AdForm(title: string, imageUrl: string, linkUrl: string, position: string, active: bool)

  /** `update(formData).eq("id", id)`: the five form columns are written
      (the link as the form's string, possibly ""), counters and creation
      time are kept. */
  function WithForm(rows: seq<Ad>, id: Id, f: AdForm): (r: seq<Ad>)
    ensures |r| == |rows|
    ensures forall i :: 0 <= i < |r| && rows[i].id == id ==>
      r[i] == Ad(id, f.title, f.imageUrl, Some(f.linkUrl), f.position, f.active,
                 rows[i].clicks, rows[i].impressions, rows[i].createdAt)
    ensures forall i :: 0 <= i < |r| && rows[i].id != id ==> r[i] == rows[i]
  {
    seq(|rows|, i requires 0 <= i < |rows| =>
      if rows[i].id == id
      then rows[i].(title := f.title, imageUrl := f.imageUrl, linkUrl := Some(f.linkUrl),
                    position := f.position, active := f.active)
      else rows[i])
  }

  /** `insert([formData])`: the id and creation time come from the
      backend, the counters from the column defaults (0). */
  function NewAd(f: AdForm, id: Id, now: Timestamp): (a: Ad)
    ensures a.clicks == 0 && a.impressions == 0 && a.linkUrl == Some(f.linkUrl)
    ensures AdForm(a.title, a.imageUrl, f.linkUrl, a.position, a.active) == f
  {
    Ad(id, f.title, f.imageUrl, Some(f.linkUrl), f.position, f.active, 0, 0, now)
  }

  /** `delete().eq("id", id)`: removes every row with the id, keeps the
      others in order. */
  function Without(rows: seq<Ad>, id: Id): (r: seq<Ad>)
    ensures forall i :: 0 <= i < |r| ==> r[i] in rows && r[i].id != id
  {
    FilterMembers(rows, NotId(id));
    Filter(rows, NotId(id))
  }

  lemma WithoutKeepsOthers(rows: seq<Ad>, id: Id, a: Ad)
    requires a in rows && a.id != id
    ensures a in Without(rows, id)
  {
    FilterKeeps(rows, NotId(id), a);
  }

  class AdTable {
    var rows: seq<Ad>

    constructor (initial: seq<Ad>)
      ensures rows == initial
    {
      rows := initial;
    }

    method UpdateImpressions(id: Id, v: nat)
      modifies this
      ensures rows == WithImpressions(old(rows), id, v)
    {
      rows := WithImpressions(rows, id, v);
    }

    method UpdateClicks(id: Id, v: nat)
      modifies this
      ensures rows == WithClicks(old(rows), id, v)
    {
      rows := WithClicks(rows, id, v);
    }

    method UpdateFromForm(id: Id, f: AdForm)
      modifies this
      ensures rows == WithForm(old(rows), id, f)
    {
      rows := WithForm(rows, id, f);
    }

    method Insert(a: Ad)
      modifies this
      ensures rows == old(rows) + [a]
    {
      rows := rows + [a];
    }

    method Delete(id: Id)
      modifies this
      ensures rows == Without(old(rows), id)
    {
      rows := Without(rows, id);
    }
  }
}
