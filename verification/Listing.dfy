/** Pages of the notification list, and walks along the next cursors over a table that stays or changes. */
module Listing {
  import opened Basics
  import opened Uuids
  import opened Domain
  import opened Rfc3339
  import Cursor
  import opened Ordering
  import opened Pagination

  // ----- One page -----

  predicate Beyond(after: Option<Key>, k: Key)
  {
    after.Some? ==> Above(after.value, k)
  }

  /** The keys of the matching rows below the cursor. */
  function Selected(table: Table, p: Params, after: Option<Key>): set<Key>
  {
    set id | id in table && Matches(p, table[id]) && Beyond(after, KeyOf(table[id])) :: KeyOf(table[id])
  }

  /** None for a cursor that does not decode; no key for no cursor. */
  function Position(cursor: string): Option<Option<Key>>
  {
    if cursor == "" then Some(None)
    else
      match Cursor.Decode(cursor)
      case None => None
      case Some((t, id)) => Some(Some(Key(Instant(t), id)))
  }

  predicate Finds(table: Table, ks: seq<Key>)
  {
    forall i | 0 <= i < |ks| :: ks[i].id in table && KeyOf(table[ks[i].id]) == ks[i]
  }

  function RowsAt(table: Table, ks: seq<Key>): (rows: seq<Row>)
    requires Finds(table, ks)
    ensures |rows| == |ks| && forall i | 0 <= i < |ks| :: rows[i] == table[ks[i].id]
  {
    seq(|ks|, i requires 0 <= i < |ks| => table[ks[i].id])
  }

  lemma SelectedIsFound(table: Table, p: Params, after: Option<Key>)
    requires TableOk(table)
    ensures Finds(table, Sorted(Selected(table, p, after)))
  {
    hide Matches, Beyond, Instant;
    var ks := Sorted(Selected(table, p, after));
    forall i | 0 <= i < |ks| ensures ks[i].id in table && KeyOf(table[ks[i].id]) == ks[i] {
      assert ks[i] in Elements(ks);
    }
  }

  function Least(a: int, b: int): int
  {
    if a <= b then a else b
  }

  datatype Page = Page(rows: seq<Row>, next: string)

  /** The rows of one page and the cursor of the next, if there is one. */
  function PageAt(table: Table, p: Params, after: Option<Key>): Page
    requires TableOk(table) && p.limit >= 1
  {
    SelectedIsFound(table, p, after);
    var rows := RowsAt(table, Sorted(Selected(table, p, after)));
    if |rows| <= p.limit then Page(rows, "")
    else Page(rows[..p.limit], Cursor.Encode(rows[p.limit - 1].createdAt, rows[p.limit - 1].content.id))
  }

  function PageOf(table: Table, p: Params): Option<Page>
    requires TableOk(table) && p.limit >= 1
  {
    match Position(p.cursor)
    case None => None
    case Some(after) => Some(PageAt(table, p, after))
  }

  // ----- The repository's method and the service's clamp -----

  /** The database: the rows for which every condition holds, newest first, at most so many. */
  function RunQuery(table: Table, conds: seq<Cond>, args: seq<Value>, n: nat): seq<Row>
    requires TableOk(table)
  {
    SatisfyingIsFound(table, conds, args);
    var rows := RowsAt(table, Sorted(Satisfying(table, conds, args)));
    rows[..Least(n, |rows|)]
  }

  function Satisfying(table: Table, conds: seq<Cond>, args: seq<Value>): set<Key>
  {
    set id | id in table && All(conds, args, table[id]) :: KeyOf(table[id])
  }

  lemma SatisfyingIsFound(table: Table, conds: seq<Cond>, args: seq<Value>)
    requires TableOk(table)
    ensures Finds(table, Sorted(Satisfying(table, conds, args)))
  {
    hide All, Instant;
    var ks := Sorted(Satisfying(table, conds, args));
    forall i | 0 <= i < |ks| ensures ks[i].id in table && KeyOf(table[ks[i].id]) == ks[i] {
      assert ks[i] in Elements(ks);
    }
  }

  lemma SatisfyingIsSelected(table: Table, conds: seq<Cond>, args: seq<Value>, p: Params, after: Option<Key>)
    requires forall row ::
      All(conds, args, row) <==> Matches(p, row) && (after.Some? ==> Above(after.value, KeyOf(row)))
    ensures Satisfying(table, conds, args) == Selected(table, p, after)
  {
    hide All, Matches, KeyOf, Above;
  }

  /** The rows of the page and the one after them. */
  function Probed(table: Table, p: Params, after: Option<Key>): seq<Row>
    requires TableOk(table) && p.limit >= -1
  {
    SelectedIsFound(table, p, after);
    var rows := RowsAt(table, Sorted(Selected(table, p, after)));
    rows[..Least(p.limit + 1, |rows|)]
  }

  lemma QueryIsProbe(table: Table, p: Params, conds: seq<Cond>, args: seq<Value>, after: Option<Key>)
    requires TableOk(table) && p.limit >= -1 && Satisfying(table, conds, args) == Selected(table, p, after)
    ensures RunQuery(table, conds, args, p.limit + 1) == Probed(table, p, after)
  {
    hide Satisfying, Selected, Sorted, KeyOf, TableOk, Finds;
  }

  lemma ProbeGivesPage(table: Table, p: Params, after: Option<Key>)
    requires TableOk(table) && p.limit >= 1
    ensures var out := Probed(table, p, after);
      PageAt(table, p, after) ==
        if |out| <= p.limit then Page(out, "")
        else Page(out[..p.limit], Cursor.Encode(out[p.limit - 1].createdAt, out[p.limit - 1].content.id))
  {
    hide Selected, Sorted, KeyOf, TableOk, Finds, Cursor.Encode;
  }

  predicate Readable(rows: seq<Row>, unreadable: set<Uuid>)
  {
    forall i | 0 <= i < |rows| :: rows[i].content.id !in unreadable
  }

  datatype Listed = Returned(result: Result<Page>) | Panicked

  /** The repository's answer for any limit. One unreadable row fails the page, even the row after it. A limit below
      minus one is no LIMIT; minus one, and nought if there is a row, index before the first row. */
  function Answer(table: Table, p: Params, queryFails: bool, unreadable: set<Uuid>): Listed
    requires TableOk(table)
  {
    match Position(p.cursor)
    case None => Returned(Err(Infrastructure))
    case Some(after) =>
      if queryFails || p.limit < -1 || !Readable(Probed(table, p, after), unreadable) then Returned(Err(Infrastructure))
      else if p.limit >= 1 then Returned(Ok(PageAt(table, p, after)))
      else if Probed(table, p, after) == [] && p.limit == 0 then Returned(Ok(Page([], "")))
      else Panicked
  }

  /** An error comes of a cursor that does not decode, a failing query, a limit below minus one, or an unreadable row
      among those of the page and the one after it; a panic of a limit of minus one, or of nought if there is a row. */
  lemma AnswersExactly(table: Table, p: Params, queryFails: bool, unreadable: set<Uuid>)
    requires TableOk(table)
    ensures var undecodable := p.cursor != "" && Cursor.Decode(p.cursor).None?;
      var after := if p.cursor == "" || undecodable then None
                   else Some(Key(Instant(Cursor.Decode(p.cursor).value.0), Cursor.Decode(p.cursor).value.1));
      var ks := Sorted(Selected(table, p, after));
      var errs := undecodable || queryFails || p.limit < -1
                  || exists i :: 0 <= i < |ks| && i <= p.limit && ks[i].id in unreadable;
      && (Answer(table, p, queryFails, unreadable) == Returned(Err(Infrastructure)) <==> errs)
      && (Answer(table, p, queryFails, unreadable).Panicked? <==>
            !errs && (p.limit == -1 || (p.limit == 0 && ks != [])))
      && (!errs && p.limit >= 1 ==>
            Answer(table, p, queryFails, unreadable) == Returned(Ok(PageAt(table, p, after))))
  {
    hide Cursor.Decode, Instant, PageAt, Selected, Sorted, TableOk;
    if p.limit >= -1 && Position(p.cursor).Some? {
      ProbeReads(table, p, Position(p.cursor).value, unreadable);
    }
    hide Probed, Readable;
  }

  lemma ProbeReads(table: Table, p: Params, after: Option<Key>, unreadable: set<Uuid>)
    requires TableOk(table) && p.limit >= -1
    ensures var ks := Sorted(Selected(table, p, after));
      && (Readable(Probed(table, p, after), unreadable) <==>
            !exists i :: 0 <= i < |ks| && i <= p.limit && ks[i].id in unreadable)
      && (p.limit >= 0 ==> (Probed(table, p, after) == [] <==> ks == []))
  {
    SelectedIsFound(table, p, after);
    hide Selected, Sorted, Instant;
    var ks, out := Sorted(Selected(table, p, after)), Probed(table, p, after);
    assert forall i | 0 <= i < |out| :: out[i] == table[ks[i].id] && out[i].content.id == ks[i].id;
    if !Readable(out, unreadable) {
      var i :| 0 <= i < |out| && out[i].content.id in unreadable;
      assert ks[i].id in unreadable;
    }
    if i :| 0 <= i < |ks| && i <= p.limit && ks[i].id in unreadable {
      assert out[i].content.id in unreadable;
    }
  }

  // ----- What a page shows -----

  /** The filters and the cursor written out: created strictly before the cursor's row, or with it and of a smaller
      identifier. */
  predicate Wanted(p: Params, after: Option<(Timestamp, Uuid)>, row: Row)
  {
    && row.content.recipient.userId == Some(p.userId)
    && (p.channel.None? || row.content.channel == p.channel.value)
    && (p.status.None? || StatusName(row.status) == p.status.value)
    && (p.since.None? || Instant(p.since.value) <= Instant(row.createdAt))
    && (p.until.None? || Instant(row.createdAt) <= Instant(p.until.value))
    && (after.None? || ListedAfter(row.createdAt, row.content.id, after.value.0, after.value.1))
  }

  /** Does the row come after the other one in the list? */
  predicate ListedAfter(t: Timestamp, id: Uuid, u: Timestamp, id': Uuid)
  {
    Instant(t) < Instant(u) || (Instant(t) == Instant(u) && id < id')
  }

  predicate InOrder(rows: seq<Row>)
  {
    forall i, j | 0 <= i < j < |rows| ::
      && ListedAfter(rows[j].createdAt, rows[j].content.id, rows[i].createdAt, rows[i].content.id)
      && (rows[i].createdAt.offset == rows[j].createdAt.offset ==>
            || Earlier(rows[j].createdAt, rows[i].createdAt)
            || (rows[j].createdAt == rows[i].createdAt && rows[j].content.id < rows[i].content.id))
  }

  predicate AllBefore(rows: seq<Row>, row: Row)
  {
    forall i | 0 <= i < |rows| ::
      ListedAfter(row.createdAt, row.content.id, rows[i].createdAt, rows[i].content.id)
  }

  predicate OnPage(table: Table, p: Params, after: Option<(Timestamp, Uuid)>, row: Row)
  {
    row.content.id in table && table[row.content.id] == row && Wanted(p, after, row)
  }

  /** A wanted row that is left out comes after the rows of the page, and the page is full and has a next one. */
  predicate Misses(table: Table, p: Params, page: Page, id: Uuid)
    requires id in table
  {
    table[id] !in page.rows ==> |page.rows| == p.limit && page.next != "" && AllBefore(page.rows, table[id])
  }

  ghost predicate More(table: Table, p: Params, after: Option<(Timestamp, Uuid)>, page: Page)
  {
    exists id :: id in table && Wanted(p, after, table[id]) && table[id] !in page.rows
  }

  /** The page holds rows of the table that are wanted, newest first and in one zone by the fields; what it leaves out
      comes after its rows, and there is a next page exactly if something is left out, and then the page is full. */
  ghost predicate Shows(table: Table, p: Params, after: Option<(Timestamp, Uuid)>, page: Page)
  {
    && |page.rows| <= p.limit && InOrder(page.rows)
    && (forall i | 0 <= i < |page.rows| :: OnPage(table, p, after, page.rows[i]))
    && (forall id | id in table && Wanted(p, after, table[id]) :: Misses(table, p, page, id))
    && (page.next != "" ==> More(table, p, after, page))
  }

  function Start(after: Option<(Timestamp, Uuid)>): Option<Key>
  {
    if after.None? then None else Some(Key(Instant(after.value.0), after.value.1))
  }

  lemma StartIs(after: Option<(Timestamp, Uuid)>)
    ensures Start(after) == if after.None? then None else Some(Key(Instant(after.value.0), after.value.1))
  {}

  lemma SelectedAreWanted(table: Table, p: Params, after: Option<(Timestamp, Uuid)>, id: Uuid)
    requires TableOk(table) && id in table
    ensures KeyOf(table[id]) in Selected(table, p, Start(after)) <==> Wanted(p, after, table[id])
  {
    hide Instant, StatusName;
    if KeyOf(table[id]) in Selected(table, p, Start(after)) {
      var j :|
        && j in table && Matches(p, table[j]) && Beyond(Start(after), KeyOf(table[j]))
        && KeyOf(table[j]) == KeyOf(table[id]);
      assert j == id;
    }
  }

  lemma PageRows(table: Table, p: Params, from: Option<Key>)
    requires TableOk(table) && p.limit >= 1
    ensures var ks, page := Sorted(Selected(table, p, from)), PageAt(table, p, from);
      && |page.rows| <= |ks| && |page.rows| <= p.limit && (|page.rows| < |ks| ==> |page.rows| == p.limit)
      && (page.next != "" <==> |page.rows| < |ks|)
      && Finds(table, ks) && Descending(ks)
      && forall i | 0 <= i < |page.rows| :: page.rows[i] == table[ks[i].id]
  {
    hide Selected, Sorted, Instant, Cursor.Encode;
    SelectedIsFound(table, p, from);
    SortedDescends(Selected(table, p, from));
    var ks := Sorted(Selected(table, p, from));
    if |ks| > p.limit {
      var last := table[ks[p.limit - 1].id];
      Cursor.NotEmpty(last.createdAt, last.content.id);
    }
  }

  lemma DescendingInOrder(table: Table, ks: seq<Key>, rows: seq<Row>)
    requires TableOk(table) && Finds(table, ks) && Descending(ks) && |rows| <= |ks|
    requires forall i | 0 <= i < |rows| :: rows[i] == table[ks[i].id]
    ensures InOrder(rows)
    ensures forall k | |rows| <= k < |ks| :: AllBefore(rows, table[ks[k].id])
  {
    hide Instant, Valid, Earlier;
    forall i, j | 0 <= i < j < |rows|
      ensures ListedAfter(rows[j].createdAt, rows[j].content.id, rows[i].createdAt, rows[i].content.id)
      ensures rows[i].createdAt.offset == rows[j].createdAt.offset ==>
        || Earlier(rows[j].createdAt, rows[i].createdAt)
        || (rows[j].createdAt == rows[i].createdAt && rows[j].content.id < rows[i].content.id)
    {
      assert Above(ks[i], ks[j]) && KeyOf(rows[i]) == ks[i] && KeyOf(rows[j]) == ks[j];
      if rows[i].createdAt.offset == rows[j].createdAt.offset {
        InstantOrder(rows[j].createdAt, rows[i].createdAt);
      }
    }
    forall i, k | 0 <= i < |rows| <= k < |ks|
      ensures ListedAfter(table[ks[k].id].createdAt, table[ks[k].id].content.id, rows[i].createdAt, rows[i].content.id)
    {
      assert Above(ks[i], ks[k]) && KeyOf(rows[i]) == ks[i] && KeyOf(table[ks[k].id]) == ks[k];
    }
  }

  /** The keys of a selection, in order, belong to wanted rows. */
  lemma KeysAreWanted(table: Table, p: Params, after: Option<(Timestamp, Uuid)>)
    requires TableOk(table)
    ensures var ks := Sorted(Selected(table, p, Start(after)));
      forall i | 0 <= i < |ks| :: ks[i].id in table && Wanted(p, after, table[ks[i].id])
  {
    var s := Selected(table, p, Start(after));
    SelectedIsFound(table, p, Start(after));
    hide Sorted, Selected, Wanted, Start, Instant;
    forall i | 0 <= i < |Sorted(s)| ensures Sorted(s)[i].id in table && Wanted(p, after, table[Sorted(s)[i].id]) {
      assert Sorted(s)[i] in Elements(Sorted(s));
      SelectedAreWanted(table, p, after, Sorted(s)[i].id);
    }
  }

  lemma LeftOut(table: Table, p: Params, after: Option<(Timestamp, Uuid)>, id: Uuid)
    requires TableOk(table) && p.limit >= 1 && id in table && Wanted(p, after, table[id])
    ensures Misses(table, p, PageAt(table, p, Start(after)), id)
  {
    var s, page := Selected(table, p, Start(after)), PageAt(table, p, Start(after));
    PageRows(table, p, Start(after));
    DescendingInOrder(table, Sorted(s), page.rows);
    SelectedAreWanted(table, p, after, id);
    assert table[id].content.id == id;
    hide Selected, Sorted, Descending, PageAt, Wanted, InOrder, TableOk, Start, AllBefore, Finds, KeyOf, Instant,
         Valid;
    var k := IndexOf(table, s, id);
    if table[id] !in page.rows {
      assert k >= |page.rows|;
      assert Sorted(s)[k].id == id;
    }
  }

  /** The row after the page's last. */
  lemma NextIsLeftOut(table: Table, p: Params, after: Option<(Timestamp, Uuid)>)
    requires TableOk(table) && p.limit >= 1 && PageAt(table, p, Start(after)).next != ""
    ensures More(table, p, after, PageAt(table, p, Start(after)))
  {
    var ks, page := Sorted(Selected(table, p, Start(after))), PageAt(table, p, Start(after));
    PageRows(table, p, Start(after));
    KeysAreWanted(table, p, after);
    hide Selected, Sorted, PageAt, Wanted, TableOk, Start;
    var id := ks[p.limit].id;
    forall i | 0 <= i < |page.rows| ensures page.rows[i] != table[id] {
      DistinctKeys(ks, i, p.limit);
      assert KeyOf(page.rows[i]) == ks[i] && KeyOf(table[id]) == ks[p.limit];
    }
  }

  lemma RowsAreWanted(table: Table, p: Params, after: Option<(Timestamp, Uuid)>)
    requires TableOk(table) && p.limit >= 1
    ensures var rows := PageAt(table, p, Start(after)).rows;
      && |rows| <= p.limit && InOrder(rows)
      && forall i | 0 <= i < |rows| :: OnPage(table, p, after, rows[i])
  {
    var ks, rows := Sorted(Selected(table, p, Start(after))), PageAt(table, p, Start(after)).rows;
    PageRows(table, p, Start(after));
    DescendingInOrder(table, ks, rows);
    KeysAreWanted(table, p, after);
    hide Selected, Sorted, Descending, PageAt, Wanted, InOrder, Start, AllBefore, KeyOf, Valid;
    forall i | 0 <= i < |rows| ensures OnPage(table, p, after, rows[i]) {
      assert rows[i] == table[ks[i].id] && table[ks[i].id].content.id == ks[i].id;
    }
  }

  lemma PageShows(table: Table, p: Params, after: Option<(Timestamp, Uuid)>)
    requires TableOk(table) && p.limit >= 1
    ensures Shows(table, p, after, PageAt(table, p, Start(after)))
  {
    var page := PageAt(table, p, Start(after));
    RowsAreWanted(table, p, after);
    hide PageAt, Wanted, InOrder, TableOk, Start, Misses, OnPage, More;
    forall id | id in table && Wanted(p, after, table[id]) ensures Misses(table, p, page, id) {
      LeftOut(table, p, after, id);
    }
    if page.next != "" {
      NextIsLeftOut(table, p, after);
    }
  }

  lemma DistinctKeys(ks: seq<Key>, i: nat, j: nat)
    requires Descending(ks) && i < j < |ks|
    ensures ks[i] != ks[j]
  {
    assert Above(ks[i], ks[j]);
  }

  lemma IndexOf(table: Table, s: set<Key>, id: Uuid) returns (k: nat)
    requires id in table && KeyOf(table[id]) in s && table[id].content.id == id
    ensures k < |Sorted(s)| && Sorted(s)[k].id == id
  {
    assert KeyOf(table[id]) in Elements(Sorted(s));
    k :| k < |Sorted(s)| && Sorted(s)[k] == KeyOf(table[id]);
  }

  method List(table: Table, p: Params, queryFails: bool, unreadable: set<Uuid>) returns (r: Listed)
    requires TableOk(table)
    ensures r == Answer(table, p, queryFails, unreadable)
    ensures r.Returned? && r.result.Ok? && p.limit >= 1 ==>
      Shows(table, p, if p.cursor == "" then None else Cursor.Decode(p.cursor), r.result.value)
  {
    hide Shows, Start, Matches, All, AllNumbers, OneTo, TableOk, Instant, PageAt, Probed, RunQuery, Cursor.Decode,
         Cursor.Encode, Readable;
    var after: Option<(Timestamp, Uuid)> := None;
    if p.cursor != "" {
      after := Cursor.Decode(p.cursor);
      if after.None? {
        return Returned(Err(Infrastructure));
      }
    }
    var conds, args := BuildConditions(p, after);
    if queryFails || p.limit < -1 {
      return Returned(Err(Infrastructure));
    }
    ghost var position := Start(after);
    StartIs(after);
    SatisfyingIsSelected(table, conds, args, p, position);
    QueryIsProbe(table, p, conds, args, position);
    ProbeSize(table, p, position);
    var scanned := Scan(RunQuery(table, conds, args, p.limit + 1), unreadable);
    if scanned.Err? {
      return Returned(Err(scanned.error));
    }
    var out := scanned.value;
    var next := "";
    if |out| > p.limit {
      if p.limit < 1 {
        return Panicked;
      }
      var last := out[p.limit - 1];
      next := Cursor.Encode(last.createdAt, last.content.id);
      out := out[..p.limit];
    }
    if p.limit >= 1 {
      ProbeGivesPage(table, p, position);
      PageShows(table, p, after);
    }
    return Returned(Ok(Page(out, next)));
  }

  lemma ProbeSize(table: Table, p: Params, after: Option<Key>)
    requires TableOk(table) && p.limit >= -1
    ensures |Probed(table, p, after)| <= p.limit + 1
  {
    hide Selected, Sorted, KeyOf, TableOk, Finds;
  }

  /** Reads the rows one by one and stops at the first that cannot be read. */
  method Scan(rows: seq<Row>, unreadable: set<Uuid>) returns (r: Result<seq<Row>>)
    ensures r == if Readable(rows, unreadable) then Ok(rows) else Err(Infrastructure)
  {
    var out := [];
    for i := 0 to |rows|
      invariant out == rows[..i] && Readable(rows[..i], unreadable)
    {
      if rows[i].content.id in unreadable {
        return Err(Infrastructure);
      }
      out := out + [rows[i]];
    }
    assert rows[..|rows|] == rows;
    return Ok(out);
  }

  /** The service accepts any limit and asks the repository for a page of one to a hundred rows, which never panics. */
  method Execute(table: Table, p: Params, queryFails: bool, unreadable: set<Uuid>) returns (r: Listed)
    requires TableOk(table)
    ensures var q := p.(limit := if p.limit <= 0 then 20 else if p.limit > 100 then 100 else p.limit);
      && r == Answer(table, q, queryFails, unreadable) && r.Returned?
      && (r.result.Ok? ==>
            && |r.result.value.rows| <= 100 && Some(r.result.value) == PageOf(table, q)
            && Shows(table, q, if p.cursor == "" then None else Cursor.Decode(p.cursor), r.result.value))
  {
    hide Sorted, Selected, Position, TableOk, Shows;
    var limit := p.limit;
    if limit <= 0 {
      limit := 20;
    }
    if limit > 100 {
      limit := 100;
    }
    r := List(table, p.(limit := limit), queryFails, unreadable);
  }

  // ----- Walks -----

  /** Every timestamp survives its cursor. */
  predicate PrintableTable(table: Table)
  {
    TableOk(table) && forall id | id in table :: Cursor.Printable(table[id].createdAt)
  }

  function KeysOf(rows: seq<Row>): (ks: seq<Key>)
    ensures |ks| == |rows| && forall i | 0 <= i < |rows| :: ks[i] == KeyOf(rows[i])
  {
    seq(|rows|, i requires 0 <= i < |rows| => KeyOf(rows[i]))
  }

  /** A page holds the first keys of what is selected; there is a next page exactly if there are more, and
      its cursor is the position of the last row. */
  lemma PageKeys(table: Table, p: Params, after: Option<Key>)
    requires PrintableTable(table) && p.limit >= 1
    ensures var ks, page := Sorted(Selected(table, p, after)), PageAt(table, p, after);
      && KeysOf(page.rows) == ks[..Least(p.limit, |ks|)]
      && (page.next == "" <==> |ks| <= p.limit)
      && (page.next != "" ==> Position(page.next) == Some(Some(ks[p.limit - 1])))
  {
    hide Matches, Instant, Cursor.Encode, Cursor.Decode, Selected, Sorted, Valid, Cursor.Printable;
    var ks, page := Sorted(Selected(table, p, after)), PageAt(table, p, after);
    SelectedIsFound(table, p, after);
    if |ks| > p.limit {
      var last := page.rows[p.limit - 1];
      assert last == table[ks[p.limit - 1].id];
      Cursor.RoundTrip(last.createdAt, last.content.id);
    }
  }

  /** What is selected beyond a key that is itself beyond the cursor. */
  lemma SelectedBelow(table: Table, p: Params, after: Option<Key>, k: Key)
    requires Beyond(after, k)
    ensures Selected(table, p, Some(k)) == Below(Selected(table, p, after), k)
  {
    hide Matches, Instant;
  }

  lemma NextSelected(table: Table, p: Params, after: Option<Key>)
    requires |Selected(table, p, after)| > p.limit >= 1
    ensures var ks := Sorted(Selected(table, p, after));
      Sorted(Selected(table, p, Some(ks[p.limit - 1]))) == ks[p.limit..]
  {
    hide Matches, KeyOf;
    var s := Selected(table, p, after);
    assert Sorted(s)[p.limit - 1] in Elements(Sorted(s));
    assert Beyond(after, Sorted(s)[p.limit - 1]);
    SelectedBelow(table, p, after, Sorted(s)[p.limit - 1]);
    hide Sorted, Selected;
    RestIsBelow(s, p.limit);
  }

  /** The keys that come out of following the cursors to the end over a table that does not change. */
  function Walk(table: Table, p: Params, after: Option<Key>): (pages: seq<Page>)
    requires PrintableTable(table) && p.limit >= 1
    decreases |Selected(table, p, after)|
  {
    PageKeys(table, p, after);
    var page := PageAt(table, p, after);
    if page.next == "" then [page]
    else
      NextSelected(table, p, after);
      [page] + Walk(table, p, Position(page.next).value)
  }

  function Together(pages: seq<Page>): seq<Key>
  {
    if pages == [] then [] else KeysOf(pages[0].rows) + Together(pages[1..])
  }

  lemma TogetherAdds(page: Page, rest: seq<Page>)
    ensures Together([page] + rest) == KeysOf(page.rows) + Together(rest)
  {
    assert ([page] + rest)[1..] == rest;
  }

  /** Pages needed for n rows: at least one. */
  function PageCount(n: nat, limit: int): nat
    requires limit >= 1
  {
    if n <= limit then 1 else 1 + PageCount(n - limit, limit)
  }

  /** The least number of pages, at least one, that n rows fit on. */
  lemma {:induction false} PageCountIsLeast(n: nat, limit: int)
    requires limit >= 1
    ensures var c := PageCount(n, limit); c >= 1 && n <= c * limit && (c > 1 ==> (c - 1) * limit < n)
    decreases n
  {
    if n > limit {
      PageCountIsLeast(n - limit, limit);
      var c := PageCount(n - limit, limit);
      assert (c + 1) * limit == c * limit + limit;
      assert c * limit == (c - 1) * limit + limit;
    }
  }

  /** One page, and the walk from where it ends. */
  lemma WalkSplits(table: Table, p: Params, after: Option<Key>)
    requires PrintableTable(table) && p.limit >= 1
    ensures var ks, page := Sorted(Selected(table, p, after)), PageAt(table, p, after);
      && KeysOf(page.rows) == ks[..Least(p.limit, |ks|)]
      && if |ks| <= p.limit then Walk(table, p, after) == [page]
         else
           var last := Some(ks[p.limit - 1]);
           Walk(table, p, after) == [page] + Walk(table, p, last) && Sorted(Selected(table, p, last)) == ks[p.limit..]
  {
    PageKeys(table, p, after);
    if |Selected(table, p, after)| > p.limit {
      NextSelected(table, p, after);
    }
    hide Selected, Sorted, TableOk, Cursor.Printable, PageAt, Position;
  }

  lemma {:induction false} WalkFrom(table: Table, p: Params, after: Option<Key>)
    requires PrintableTable(table) && p.limit >= 1
    ensures Together(Walk(table, p, after)) == Sorted(Selected(table, p, after))
    ensures |Walk(table, p, after)| == PageCount(|Selected(table, p, after)|, p.limit)
    decreases |Selected(table, p, after)|
  {
    hide Selected, Sorted, TableOk, Cursor.Printable, PageAt, Walk, Together;
    WalkSplits(table, p, after);
    var ks, page := Sorted(Selected(table, p, after)), PageAt(table, p, after);
    if |ks| <= p.limit {
      TogetherAdds(page, []);
      assert Together([]) == [] by { TogetherNone(); }
      assert [page] + [] == [page];
    } else {
      var last := Some(ks[p.limit - 1]);
      assert |Selected(table, p, last)| == |ks| - p.limit;
      WalkFrom(table, p, last);
      TogetherAdds(page, Walk(table, p, last));
      assert ks == ks[..p.limit] + ks[p.limit..];
    }
  }

  lemma TogetherNone()
    ensures Together([]) == []
  {}

  /** Following the cursors over a fixed table gives exactly the filtered list, newest first, on the least
      number of pages, at least one, that it fits on. */
  lemma WalkIsTheList(table: Table, p: Params)
    requires PrintableTable(table) && p.limit >= 1
    ensures var n, c := |Selected(table, p, None)|, |Walk(table, p, None)|;
      && Together(Walk(table, p, None)) == Sorted(Selected(table, p, None))
      && c >= 1 && n <= c * p.limit && (c > 1 ==> (c - 1) * p.limit < n)
  {
    hide Selected, Sorted, Walk, PrintableTable;
    WalkFrom(table, p, None);
    PageCountIsLeast(|Selected(table, p, None)|, p.limit);
  }

  // ----- Walks over a changing table -----

  /** Rows come and statuses change; what a row is and when it was created stays. */
  predicate Evolves(before: Table, after: Table)
  {
    forall id | id in before ::
      id in after && after[id].content == before[id].content && after[id].createdAt == before[id].createdAt
  }

  /** The table as each page finds it. */
  predicate History(tables: seq<Table>)
  {
    && (forall i | 0 <= i < |tables| :: PrintableTable(tables[i]))
    && (forall i, j | 0 <= i < j < |tables| :: Evolves(tables[i], tables[j]))
  }

  lemma HistoryTail(tables: seq<Table>)
    requires History(tables) && tables != []
    ensures PrintableTable(tables[0]) && History(tables[1..])
    ensures forall i | 0 <= i < |tables| - 1 :: tables[1..][i] == tables[i + 1] && Evolves(tables[0], tables[i + 1])
  {
    hide PrintableTable, Evolves;
  }

  function ChangingWalk(tables: seq<Table>, p: Params, after: Option<Key>): seq<Page>
    requires History(tables) && p.limit >= 1
    decreases |tables|
  {
    if tables == [] then []
    else
      HistoryTail(tables);
      var page := PageAt(tables[0], p, after);
      PageKeys(tables[0], p, after);
      [page] + if page.next == "" then [] else ChangingWalk(tables[1..], p, Position(page.next).value)
  }

  /** Did the walk come to a page without a next one? */
  predicate Complete(tables: seq<Table>, p: Params, after: Option<Key>)
    requires History(tables) && p.limit >= 1
    decreases |tables|
  {
    && tables != []
    && (HistoryTail(tables);
        var page := PageAt(tables[0], p, after);
        PageKeys(tables[0], p, after);
        page.next == "" || Complete(tables[1..], p, Position(page.next).value))
  }

  /** Where a key of the walk was read. */
  predicate ReadFrom(tables: seq<Table>, k: Key)
  {
    exists i :: 0 <= i < |tables| && k.id in tables[i] && KeyOf(tables[i][k.id]) == k
  }

  lemma SortedIsSelected(table: Table, p: Params, after: Option<Key>, i: nat)
    requires TableOk(table) && i < |Selected(table, p, after)|
    ensures var k := Sorted(Selected(table, p, after))[i];
      Beyond(after, k) && k.id in table && KeyOf(table[k.id]) == k
  {
    hide Matches, Instant, Above, Valid;
    var ks := Sorted(Selected(table, p, after));
    assert ks[i] in Elements(ks);
    hide Sorted;
  }

  lemma PrefixDescends(ks: seq<Key>, n: nat)
    requires Descending(ks) && n <= |ks|
    ensures Descending(ks[..n])
  {
    hide Above;
  }

  /** The keys of one page lie beyond the cursor, and beyond them the next page begins. */
  lemma OnePage(table: Table, p: Params, after: Option<Key>)
    requires PrintableTable(table) && p.limit >= 1
    ensures var ks := KeysOf(PageAt(table, p, after).rows);
      && Descending(ks)
      && (forall k | k in ks :: Beyond(after, k) && k.id in table && KeyOf(table[k.id]) == k)
      && (PageAt(table, p, after).next != "" ==>
            ks != [] && Position(PageAt(table, p, after).next) == Some(Some(ks[|ks| - 1])))
  {
    hide PageAt, KeyOf, Position, Cursor.Printable, TableOk, Selected, Beyond, Sorted, Descending;
    PageKeys(table, p, after);
    SortedDescends(Selected(table, p, after));
    var all, ks := Sorted(Selected(table, p, after)), KeysOf(PageAt(table, p, after).rows);
    PrefixDescends(all, |ks|);
    forall k | k in ks ensures Beyond(after, k) && k.id in table && KeyOf(table[k.id]) == k {
      var i :| 0 <= i < |ks| && ks[i] == k;
      assert all[i] == k;
      SortedIsSelected(table, p, after, i);
    }
  }

  lemma DescendingJoin(ks: seq<Key>, ls: seq<Key>)
    requires Descending(ks) && Descending(ls) && ks != []
    requires forall l | l in ls :: Above(ks[|ks| - 1], l)
    ensures Descending(ks + ls)
  {
    var all := ks + ls;
    forall i, j | 0 <= i < j < |all| ensures Above(all[i], all[j]) {
      if i < |ks| <= j {
        assert ls[j - |ks|] in ls;
        assert i == |ks| - 1 || Above(ks[i], ks[|ks| - 1]);
      }
    }
  }

  /** One page and what follows it in order. */
  lemma JoinedDescends(page: Page, after: Option<Key>, rest: seq<Page>)
    requires var ks := KeysOf(page.rows);
      ks != [] && Descending(ks) && Descending(Together(rest))
      && (forall k | k in ks :: Beyond(after, k)) && forall l | l in Together(rest) :: Beyond(Some(ks[|ks| - 1]), l)
    ensures Descending(Together([page] + rest)) && forall k | k in Together([page] + rest) :: Beyond(after, k)
  {
    hide Descending, KeysOf, Together;
    var ks := KeysOf(page.rows);
    TogetherAdds(page, rest);
    DescendingJoin(ks, Together(rest));
    assert ks[|ks| - 1] in ks;
  }

  lemma {:induction false} ChangingDescends(tables: seq<Table>, p: Params, after: Option<Key>)
    requires History(tables) && p.limit >= 1
    ensures var ks := Together(ChangingWalk(tables, p, after));
      && Descending(ks)
      && forall k | k in ks :: Beyond(after, k) && ReadFrom(tables, k)
    decreases |tables|
  {
    hide PageAt, Position, TableOk, Cursor.Printable, KeyOf, Evolves, Together, Descending;
    if tables == [] {
      TogetherNone();
      assert Descending([]) by { DescendingNone(); }
    } else {
      HistoryTail(tables);
      OnePage(tables[0], p, after);
      var page := PageAt(tables[0], p, after);
      var ks := KeysOf(page.rows);
      assert forall k | k in ks :: ReadFrom(tables, k);
      if page.next == "" {
        TogetherAdds(page, []);
        TogetherNone();
        assert [page] + [] == [page] && ks + [] == ks;
      } else {
        var last := ks[|ks| - 1];
        ChangingDescends(tables[1..], p, Some(last));
        var rest := ChangingWalk(tables[1..], p, Some(last));
        JoinedDescends(page, after, rest);
        TogetherAdds(page, rest);
        ReadLater(tables, Together(rest));
      }
    }
  }

  lemma DescendingNone()
    ensures Descending([])
  {}

  lemma ReadLater(tables: seq<Table>, ks: seq<Key>)
    requires tables != [] && forall k | k in ks :: ReadFrom(tables[1..], k)
    ensures forall k | k in ks :: ReadFrom(tables, k)
  {
    hide KeyOf;
    forall k | k in ks ensures ReadFrom(tables, k) {
      var i :| 0 <= i < |tables[1..]| && k.id in tables[1..][i] && KeyOf(tables[1..][i][k.id]) == k;
      assert tables[i + 1] == tables[1..][i];
    }
  }

  /** Does the row match at every page of the walk? */
  predicate MatchesThroughout(tables: seq<Table>, p: Params, id: Uuid)
  {
    tables != [] && id in tables[0] && forall i | 0 <= i < |tables| :: id in tables[i] && Matches(p, tables[i][id])
  }

  lemma SameKey(a: Table, b: Table, id: Uuid)
    requires Evolves(a, b) && id in a
    ensures KeyOf(b[id]) == KeyOf(a[id])
  {
    hide Instant;
  }

  /** A selected row is on the page, or lies beyond its last row. */
  lemma OnPageOrBeyond(table: Table, p: Params, after: Option<Key>, k: Key)
    requires PrintableTable(table) && p.limit >= 1 && k in Selected(table, p, after)
    ensures var ks, page := KeysOf(PageAt(table, p, after).rows), PageAt(table, p, after);
      k in ks || (page.next != "" && Position(page.next).Some? && Beyond(Position(page.next).value, k))
  {
    hide Selected, PrintableTable, PageAt, Position;
    var all := Sorted(Selected(table, p, after));
    PageKeys(table, p, after);
    SortedDescends(Selected(table, p, after));
    assert k in Elements(all);
    var i :| 0 <= i < |all| && all[i] == k;
    if i < p.limit {
      assert all[..Least(p.limit, |all|)][i] == k;
    } else {
      assert Above(all[p.limit - 1], k);
    }
  }

  lemma WalkUnfolds(tables: seq<Table>, p: Params, after: Option<Key>)
    requires History(tables) && p.limit >= 1 && tables != [] && Complete(tables, p, after)
    ensures PrintableTable(tables[0]) && History(tables[1..])
    ensures var page := PageAt(tables[0], p, after);
      if page.next == "" then ChangingWalk(tables, p, after) == [page]
      else
        && Position(page.next).Some? && tables[1..] != []
        && Complete(tables[1..], p, Position(page.next).value)
        && ChangingWalk(tables, p, after) == [page] + ChangingWalk(tables[1..], p, Position(page.next).value)
  {
    HistoryTail(tables);
    PageKeys(tables[0], p, after);
    hide PageAt, PrintableTable, History, Position, Selected, Sorted;
  }

  lemma ThroughoutTail(tables: seq<Table>, p: Params, id: Uuid)
    requires History(tables) && |tables| > 1 && MatchesThroughout(tables, p, id)
    ensures MatchesThroughout(tables[1..], p, id) && KeyOf(tables[1..][0][id]) == KeyOf(tables[0][id])
  {
    hide Matches, KeyOf, PrintableTable;
    assert forall i | 0 <= i < |tables| - 1 :: tables[1..][i] == tables[i + 1];
    SameKey(tables[0], tables[1], id);
  }

  lemma IsSelected(tables: seq<Table>, p: Params, after: Option<Key>, id: Uuid)
    requires MatchesThroughout(tables, p, id) && Beyond(after, KeyOf(tables[0][id]))
    ensures KeyOf(tables[0][id]) in Selected(tables[0], p, after)
  {
    hide Matches, KeyOf;
  }

  lemma {:induction false} ChangingFinds(tables: seq<Table>, p: Params, after: Option<Key>, id: Uuid)
    requires History(tables) && p.limit >= 1 && Complete(tables, p, after)
    requires MatchesThroughout(tables, p, id) && Beyond(after, KeyOf(tables[0][id]))
    ensures KeyOf(tables[0][id]) in Together(ChangingWalk(tables, p, after))
    decreases |tables|
  {
    WalkUnfolds(tables, p, after);
    IsSelected(tables, p, after, id);
    OnPageOrBeyond(tables[0], p, after, KeyOf(tables[0][id]));
    hide PageAt, KeyOf, TableOk, Cursor.Printable, Beyond, Selected, Matches, Evolves, Position, Complete, ChangingWalk;
    var page, k := PageAt(tables[0], p, after), KeyOf(tables[0][id]);
    var walk := ChangingWalk(tables, p, after);
    assert walk[0] == page && Together(walk) == KeysOf(page.rows) + Together(walk[1..]);
    if k !in KeysOf(page.rows) {
      ThroughoutTail(tables, p, id);
      assert walk[1..] == ChangingWalk(tables[1..], p, Position(page.next).value);
      ChangingFinds(tables[1..], p, Position(page.next).value, id);
    }
  }

  /** However rows are inserted and statuses change between the pages, no row is returned twice, and once the
      walk is over every row that matched throughout has been returned exactly once. */
  lemma ChangingWalkIsExact(tables: seq<Table>, p: Params)
    requires History(tables) && p.limit >= 1
    ensures var ks := Together(ChangingWalk(tables, p, None));
      && (forall i, j | 0 <= i < j < |ks| :: ks[i].id != ks[j].id)
      && (Complete(tables, p, None) ==>
            forall id | MatchesThroughout(tables, p, id) :: exists i :: 0 <= i < |ks| && ks[i].id == id)
  {
    var ks := Together(ChangingWalk(tables, p, None));
    ChangingDescends(tables, p, None);
    hide ChangingWalk, Together, Complete, KeyOf, Matches, PrintableTable, Evolves;
    forall i, j | 0 <= i < j < |ks| ensures ks[i].id != ks[j].id {
      assert ks[i] in ks && ks[j] in ks;
      assert Above(ks[i], ks[j]);
      if ks[i].id == ks[j].id {
        OneKeyPerRow(tables, ks[i], ks[j]);
      }
    }
    if Complete(tables, p, None) {
      forall id | MatchesThroughout(tables, p, id) ensures exists i :: 0 <= i < |ks| && ks[i].id == id {
        ChangingFinds(tables, p, None, id);
        var k := KeyOf(tables[0][id]);
        KeyId(tables, id);
        var i :| 0 <= i < |ks| && ks[i] == k;
        assert ks[i].id == id;
      }
    }
  }

  lemma KeyId(tables: seq<Table>, id: Uuid)
    requires History(tables) && tables != [] && id in tables[0]
    ensures KeyOf(tables[0][id]).id == id
  {
    hide Instant, Evolves, Valid, Cursor.Printable;
    assert PrintableTable(tables[0]);
  }

  lemma OneKeyPerRow(tables: seq<Table>, k: Key, l: Key)
    requires History(tables) && ReadFrom(tables, k) && ReadFrom(tables, l) && k.id == l.id
    ensures k == l
  {
    hide KeyOf, PrintableTable, Evolves;
    var i :| 0 <= i < |tables| && k.id in tables[i] && KeyOf(tables[i][k.id]) == k;
    var j :| 0 <= j < |tables| && l.id in tables[j] && KeyOf(tables[j][l.id]) == l;
    if i < j {
      SameKey(tables[i], tables[j], k.id);
    } else if j < i {
      SameKey(tables[j], tables[i], k.id);
    }
  }
}
