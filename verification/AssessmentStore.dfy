/**
The assessments table: one row per id, whose organisation and creation columns repeat what the
payload says. Listing orders rows by the text of the columns; lookup reads the payload.
*/
module AssessmentStore {
  import opened Prelude
  import opened IsoTimestamp
  import opened Assessments

  datatype Row = Row(organization: Id, payload: Record, created: string, updated: string)

  type Table = map<Id, Row>

  // ----- operations on the table

  /** The upsert: an existing row keeps its organisation and creation columns. */
  function Saved(rows: Table, a: Record): Table {
    if a.id in rows
    then rows[a.id := rows[a.id].(payload := a, updated := Iso(a.updatedAt))]
    else rows[a.id := RowOf(a)]
  }

  /** The row of a new assessment, all columns from the payload. */
  function RowOf(a: Record): Row {
    Row(a.organization, a, Iso(a.createdAt), Iso(a.updatedAt))
  }

  function Got(rows: Table, id: Id, organization: Option<Id>): Option<Record> {
    if id !in rows then None
    else if organization.Some? && rows[id].payload.organization != organization.value then None
    else Some(rows[id].payload)
  }

  function Selected(rows: Table, organization: Option<Id>): set<Id> {
    set id | id in rows && (organization.Some? ==> rows[id].organization == organization.value)
  }

  /** `ORDER BY created_at DESC, id DESC`. */
  predicate Precedes(rows: Table, a: Id, b: Id)
    requires a in rows && b in rows
  {
    TextLess(rows[b].created, rows[a].created) || (rows[a].created == rows[b].created && TextLess(b.text, a.text))
  }

  lemma PrecedesIsStrict(rows: Table, a: Id, b: Id)
    requires a in rows && b in rows
    ensures !(Precedes(rows, a, b) && Precedes(rows, b, a))
    ensures a == b || Precedes(rows, a, b) || Precedes(rows, b, a)
  {
    TextLessIsStrict(rows[a].created, rows[b].created);
    TextLessIsStrict(a.text, b.text);
  }

  lemma PrecedesIsTransitive(rows: Table, a: Id, b: Id, c: Id)
    requires a in rows && b in rows && c in rows
    requires Precedes(rows, a, b) && Precedes(rows, b, c)
    ensures Precedes(rows, a, c)
  {
    if TextLess(rows[c].created, rows[b].created) && TextLess(rows[b].created, rows[a].created) {
      TextLessIsTransitive(rows[c].created, rows[b].created, rows[a].created);
    } else if rows[a].created == rows[b].created == rows[c].created {
      TextLessIsTransitive(c.text, b.text, a.text);
    }
  }

  predicate IsFirst(rows: Table, ids: set<Id>, first: Id)
    requires ids <= rows.Keys
  {
    first in ids && forall id :: id in ids && id != first ==> Precedes(rows, first, id)
  }

  lemma {:induction false} FirstExists(rows: Table, ids: set<Id>)
    requires ids <= rows.Keys && ids != {}
    ensures exists id :: IsFirst(rows, ids, id)
  {
    var some :| some in ids;
    if ids == {some} {
      assert IsFirst(rows, ids, some);
    } else {
      FirstExists(rows, ids - {some});
      var first :| IsFirst(rows, ids - {some}, first);
      PrecedesIsStrict(rows, some, first);
      if Precedes(rows, some, first) {
        forall id | id in ids && id != some
          ensures Precedes(rows, some, id)
        {
          if id != first {
            PrecedesIsTransitive(rows, some, first, id);
          }
        }
        assert IsFirst(rows, ids, some);
      } else {
        assert IsFirst(rows, ids, first);
      }
    }
  }

  lemma FirstIsUnique(rows: Table, ids: set<Id>, a: Id, b: Id)
    requires ids <= rows.Keys && IsFirst(rows, ids, a) && IsFirst(rows, ids, b)
    ensures a == b
  {
    PrecedesIsStrict(rows, a, b);
  }

  function First(rows: Table, ids: set<Id>): (first: Id)
    requires ids <= rows.Keys && ids != {}
    ensures IsFirst(rows, ids, first)
  {
    FirstExists(rows, ids);
    assert forall a, b :: IsFirst(rows, ids, a) && IsFirst(rows, ids, b) ==> a == b by {
      forall a, b | IsFirst(rows, ids, a) && IsFirst(rows, ids, b)
        ensures a == b
      {
        FirstIsUnique(rows, ids, a, b);
      }
    }
    var first :| first in ids && IsFirst(rows, ids, first);
    first
  }

  /** The ids in listing order. */
  function Ordered(rows: Table, ids: set<Id>): (order: seq<Id>)
    requires ids <= rows.Keys
    ensures |order| == |ids|
    decreases |ids|
  {
    if ids == {} then [] else
      var first := First(rows, ids);
      [first] + Ordered(rows, ids - {first})
  }

  /** LIMIT and OFFSET; without a limit the offset is not applied. */
  function Page(order: seq<Id>, limit: Option<nat>, offset: nat): seq<Id> {
    if limit.None? then order
    else if |order| <= offset then []
    else if |order| - offset <= limit.value then order[offset..]
    else order[offset..offset + limit.value]
  }

  /** A page is what the listing has from the offset on, at most the limit; without a limit, all of it. */
  lemma PageMeans(order: seq<Id>, limit: nat, offset: nat)
    ensures var page := Page(order, Some(limit), offset);
            && |page| == (if |order| <= offset then 0
                          else if |order| <= offset + limit then |order| - offset else limit)
            && forall i :: 0 <= i < |page| ==> page[i] == order[offset + i]
    ensures Page(order, None, offset) == order
  {
  }

  function Payloads(rows: Table, ids: seq<Id>): (r: seq<Record>)
    requires forall id :: id in ids ==> id in rows
    ensures |r| == |ids| && forall i :: 0 <= i < |ids| ==> r[i] == rows[ids[i]].payload
  {
    seq(|ids|, i requires 0 <= i < |ids| => rows[ids[i]].payload)
  }

  // ----- the listing

  ghost predicate InListingOrder(rows: Table, order: seq<Id>)
    requires forall id :: id in order ==> id in rows
  {
    forall i, j :: 0 <= i < j < |order| ==> Precedes(rows, order[i], order[j])
  }

  /** The listing has every selected row once, in listing order. */
  lemma {:induction false} OrderedIsListing(rows: Table, ids: set<Id>)
    requires ids <= rows.Keys
    ensures Elems(Ordered(rows, ids)) == ids
    ensures InListingOrder(rows, Ordered(rows, ids))
    ensures Distinct(Ordered(rows, ids))
    decreases |ids|
  {
    if ids != {} {
      var first := First(rows, ids);
      var rest := Ordered(rows, ids - {first});
      var order := Ordered(rows, ids);
      OrderedIsListing(rows, ids - {first});
      assert order == [first] + rest;
      ListingGrows(rows, ids, first, rest);
    }
  }

  lemma ListingGrows(rows: Table, ids: set<Id>, first: Id, rest: seq<Id>)
    requires ids <= rows.Keys && IsFirst(rows, ids, first)
    requires Elems(rest) == ids - {first}
    requires (forall id :: id in rest ==> id in rows) && InListingOrder(rows, rest) && Distinct(rest)
    ensures Elems([first] + rest) == ids
    ensures (forall id :: id in [first] + rest ==> id in rows) && InListingOrder(rows, [first] + rest)
    ensures Distinct([first] + rest)
  {
    var order := [first] + rest;
    assert forall id :: id in order <==> id == first || id in Elems(rest);
    forall i, j | 0 <= i < j < |order|
      ensures Precedes(rows, order[i], order[j]) && order[i] != order[j]
    {
      assert order[j] == rest[j - 1] && rest[j - 1] in Elems(rest);
    }
  }

  lemma OrderedAreSelected(rows: Table, organization: Option<Id>)
    ensures forall id :: id in Ordered(rows, Selected(rows, organization)) <==> id in Selected(rows, organization)
  {
    var ids := Selected(rows, organization);
    OrderedIsListing(rows, ids);
    assert forall id :: id in Ordered(rows, ids) <==> id in Elems(Ordered(rows, ids));
  }

  /** The list operation of the repository. */
  function Listed(rows: Table, organization: Option<Id>, limit: Option<nat>, offset: nat): seq<Record> {
    OrderedAreSelected(rows, organization);
    Payloads(rows, Page(Ordered(rows, Selected(rows, organization)), limit, offset))
  }

  /** The pages at offsets 0, limit, 2 * limit and so on, `k` of them, in a row. */
  ghost function Pages(order: seq<Id>, limit: nat, k: nat): seq<Id> {
    if k == 0 then [] else Pages(order, limit, k - 1) + Page(order, Some(limit), (k - 1) * limit)
  }

  lemma {:induction false} PagesArePrefix(order: seq<Id>, limit: nat, k: nat)
    ensures Pages(order, limit, k) == if k * limit <= |order| then order[..k * limit] else order
  {
    if k > 0 {
      PagesArePrefix(order, limit, k - 1);
      assert k * limit == (k - 1) * limit + limit;
    }
  }

  lemma AtLeast(k: nat, limit: nat)
    requires limit >= 1
    ensures k * limit >= k
  {
  }

  /** For every page size the pages concatenate to the full listing, and its length is the count. */
  lemma PagesAreTheListing(rows: Table, organization: Option<Id>, limit: nat, k: nat)
    requires limit >= 1 && k >= |Selected(rows, organization)|
    ensures Pages(Ordered(rows, Selected(rows, organization)), limit, k) == Ordered(rows, Selected(rows, organization))
    ensures |Listed(rows, organization, None, 0)| == |Selected(rows, organization)|
  {
    var order := Ordered(rows, Selected(rows, organization));
    PagesArePrefix(order, limit, k);
    AtLeast(k, limit);
    assert |order| <= k * limit;
  }

  // ----- columns and payloads

  predicate RowAgrees(id: Id, row: Row) {
    row.payload.id == id && row == RowOf(row.payload)
  }

  predicate ColumnsAgree(rows: Table) {
    forall id :: id in rows ==> RowAgrees(id, rows[id])
  }

  /** Saving keeps the columns in agreement exactly when it does not move a stored assessment to
      another organisation or another creation time. */
  lemma SaveKeepsColumnsIff(rows: Table, a: Record)
    requires ColumnsAgree(rows)
    ensures ColumnsAgree(Saved(rows, a)) <==>
            (a.id in rows ==> a.organization == rows[a.id].payload.organization
                              && a.createdAt == rows[a.id].payload.createdAt)
  {
    if a.id in rows {
      assert RowAgrees(a.id, rows[a.id]);
      OneRowDecides(rows, a.id, rows[a.id].(payload := a, updated := Iso(a.updatedAt)));
      UpdatedRowAgreesIff(rows[a.id], a);
    } else {
      OneRowDecides(rows, a.id, RowOf(a));
    }
  }

  /** After a save the record is found by its id, for its own organisation and no other; every other
      lookup answers as before, and a row that was there keeps its organisation and creation columns. */
  lemma SavedIsFound(rows: Table, a: Record, id: Id, organization: Option<Id>)
    ensures Got(Saved(rows, a), id, organization)
         == if id != a.id then Got(rows, id, organization)
            else if organization.None? || organization == Some(a.organization) then Some(a) else None
    ensures a.id in rows ==> Saved(rows, a)[a.id].organization == rows[a.id].organization
                             && Saved(rows, a)[a.id].created == rows[a.id].created
    ensures a.id !in rows ==> RowAgrees(a.id, Saved(rows, a)[a.id])
  {
  }

  lemma OneRowDecides(rows: Table, id: Id, row: Row)
    requires ColumnsAgree(rows)
    ensures ColumnsAgree(rows[id := row]) <==> RowAgrees(id, row)
  {
    var after := rows[id := row];
    assert after[id] == row;
    assert forall other :: other in rows && other != id ==> after[other] == rows[other];
  }

  lemma UpdatedRowAgreesIff(row: Row, a: Record)
    requires row == RowOf(row.payload)
    ensures row.(payload := a, updated := Iso(a.updatedAt)) == RowOf(a) <==>
            a.organization == row.payload.organization && a.createdAt == row.payload.createdAt
  {
    if Iso(a.createdAt) == Iso(row.payload.createdAt) {
      IsoIsInjective(a.createdAt, row.payload.createdAt);
    }
  }

  /** While columns agree, an assessment is listed for an organisation exactly when it can be
      looked up for it, and the listing is newest first. */
  lemma ListedIffGettable(rows: Table, organization: Option<Id>, id: Id)
    requires ColumnsAgree(rows)
    ensures var list := Listed(rows, organization, None, 0);
            && (Got(rows, id, organization).Some? <==> exists i :: 0 <= i < |list| && list[i].id == id)
            && (forall i :: 0 <= i < |list| && list[i].id == id ==> Got(rows, id, organization) == Some(list[i]))
  {
    var list := Listed(rows, organization, None, 0);
    forall i: nat | i < |list|
      ensures list[i].id == id ==> Got(rows, id, organization) == Some(list[i])
    {
      ListedIsGettable(rows, organization, i);
    }
    if Got(rows, id, organization).Some? {
      var i := GettableIsListed(rows, organization, id);
    }
  }

  lemma ListedIsGettable(rows: Table, organization: Option<Id>, i: nat)
    requires ColumnsAgree(rows) && i < |Listed(rows, organization, None, 0)|
    ensures var r := Listed(rows, organization, None, 0)[i]; Got(rows, r.id, organization) == Some(r)
  {
    ListedRow(rows, organization, i);
  }

  lemma GettableIsListed(rows: Table, organization: Option<Id>, id: Id) returns (i: nat)
    requires ColumnsAgree(rows) && Got(rows, id, organization).Some?
    ensures i < |Listed(rows, organization, None, 0)| && Listed(rows, organization, None, 0)[i].id == id
  {
    SelectedIsGettable(rows, organization, id);
    OrderedAreSelected(rows, organization);
    i :| 0 <= i < |Ordered(rows, Selected(rows, organization))| && Ordered(rows, Selected(rows, organization))[i] == id;
    ListedRow(rows, organization, i);
  }

  lemma ListedRow(rows: Table, organization: Option<Id>, i: nat)
    requires ColumnsAgree(rows) && i < |Ordered(rows, Selected(rows, organization))|
    ensures var list, id := Listed(rows, organization, None, 0), Ordered(rows, Selected(rows, organization))[i];
            |list| > i && list[i].id == id && Got(rows, id, organization) == Some(list[i])
  {
    var order := Ordered(rows, Selected(rows, organization));
    OrderedAreSelected(rows, organization);
    assert order[i] in order;
    SelectedIsGettable(rows, organization, order[i]);
  }

  lemma SelectedIsGettable(rows: Table, organization: Option<Id>, id: Id)
    requires ColumnsAgree(rows)
    ensures id in Selected(rows, organization) <==> Got(rows, id, organization).Some?
    ensures id in rows ==> rows[id].payload.id == id
  {
    if id in rows {
      assert RowAgrees(id, rows[id]);
    }
  }

  lemma ListingIsNewestFirst(rows: Table, organization: Option<Id>, i: nat, j: nat)
    requires ColumnsAgree(rows)
    requires i < j < |Listed(rows, organization, None, 0)|
    ensures var list := Listed(rows, organization, None, 0);
            || Earlier(list[j].createdAt, list[i].createdAt)
            || (list[j].createdAt == list[i].createdAt && TextLess(list[j].id.text, list[i].id.text))
  {
    var order := Ordered(rows, Selected(rows, organization));
    OrderedIsListing(rows, Selected(rows, organization));
    OrderedAreSelected(rows, organization);
    assert order[i] in order && order[j] in order;
    PrecedesIsNewer(rows, order[i], order[j]);
  }

  lemma PrecedesIsNewer(rows: Table, a: Id, b: Id)
    requires ColumnsAgree(rows) && a in rows && b in rows && Precedes(rows, a, b)
    ensures var x, y := rows[a].payload, rows[b].payload;
            && x.id == a && y.id == b
            && (Earlier(y.createdAt, x.createdAt) || (y.createdAt == x.createdAt && TextLess(b.text, a.text)))
  {
    assert RowAgrees(a, rows[a]) && RowAgrees(b, rows[b]);
    IsoOrder(rows[b].payload.createdAt, rows[a].payload.createdAt);
    if rows[a].created == rows[b].created {
      IsoIsInjective(rows[a].payload.createdAt, rows[b].payload.createdAt);
    }
  }

  // ----- the repository

  class AssessmentRepository {
    var rows: Table

    constructor ()
      ensures rows == map[]
    {
      rows := map[];
    }

    method Save(a: Assessment)
      modifies this
      ensures rows == Saved(old(rows), a.ToRecord())
    {
      var payload := a.ToRecord();
      if a.id in rows {
        var row := rows[a.id];
        rows := rows[a.id := Row(row.organization, payload, row.created, Iso(a.updatedAt))];
      } else {
        rows := rows[a.id := Row(a.organization, payload, Iso(a.createdAt), Iso(a.updatedAt))];
      }
    }

    /** A missing id and an id of another organisation raise the same `KeyError`. */
    method Get(id: Id, organization: Option<Id>) returns (r: Result<Assessment, Id>)
      ensures r.Ok? <==> Got(rows, id, organization).Some?
      ensures r.Ok? ==> fresh(r.value) && Got(rows, id, organization) == Some(r.value.ToRecord())
      ensures r.Err? ==> r.error == id
    {
      if id !in rows {
        return Err(id);
      }
      var a := new Assessment.FromRecord(rows[id].payload);
      if organization.Some? && a.organization != organization.value {
        return Err(id);
      }
      return Ok(a);
    }

    method Delete(id: Id, organization: Option<Id>) returns (r: Result<Assessment, Id>)
      modifies this
      ensures r.Ok? <==> Got(old(rows), id, organization).Some?
      ensures r.Ok? ==> fresh(r.value) && Got(old(rows), id, organization) == Some(r.value.ToRecord())
      ensures rows == if r.Ok? then old(rows) - {id} else old(rows)
    {
      r := Get(id, organization);
      if r.Ok? {
        rows := rows - {id};
      }
    }

    method Count(organization: Option<Id>) returns (total: nat)
      ensures total == |Listed(rows, organization, None, 0)|
    {
      total := |Selected(rows, organization)|;
    }
  }
}
