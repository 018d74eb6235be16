/** The parts of the fetched HTML that the scrapers look at, as values.
    Fetching and parsing are not modelled: a listing response or a detail
    response is given as one of these values, or as an error for a
    transport failure or a non-2xx status. */
module Markup {
  import opened Outcomes

  /** One `<td>`: its text, and the `href` of its first `<a>` (None when the
      cell has no `<a>` or the `<a>` has no `href`). */
  datatype Cell = Cell(text: string, href: Option<string>)

  /** One `<tr>` of the listing body. */
  datatype Row = Row(cells: seq<Cell>)

  /** The first `<table class="table">`: the rows of its `<tbody>`, if it has one. */
  datatype Table = Table(body: Option<seq<Row>>)

  /** A listing page: its table, if it has one. */
  datatype ListingPage = ListingPage(table: Option<Table>)

  /** `<div class="content">` inside the post: the text of its first `<p>`. */
  datatype ContentDiv = ContentDiv(firstParagraph: Option<string>)

  /** `<div class="post-content">`: its `<div class="content">`, if any. */
  datatype PostContentDiv = PostContentDiv(content: Option<ContentDiv>)

  /** A post's detail page: its `<div class="post-content">`, if any. */
  datatype DetailPage = DetailPage(postContent: Option<PostContentDiv>)

  /** What a GET of a post's link yields: a parsed page, or a failure. */
  datatype DetailOutcome = FetchFailed(reason: string) | Fetched(page: DetailPage)

  const TableNotFound: string := "Table not found in HTML"
  const NoTableBody: string := "'NoneType' object has no attribute 'find_all'"
  const NoLink: string := "'NoneType' object is not subscriptable"

  /** The first paragraph's text, found through the three nested lookups;
      None as soon as one of them finds nothing. */
  function FirstParagraph(page: DetailPage): (p: Option<string>)
    ensures p.Some? <==>
      (page.postContent.Some? && page.postContent.value.content.Some?
       && page.postContent.value.content.value.firstParagraph.Some?)
  {
    match page.postContent
    case None => None
    case Some(div) =>
      match div.content
      case None => None
      case Some(inner) => inner.firstParagraph
  }

  /** The rows the scrapers iterate over; a missing table or table body
      aborts the whole scrape. */
  function ListingRows(page: ListingPage): (r: Result<seq<Row>>)
    ensures page.table.None? ==> r == Err(TableNotFound)
    ensures r.Ok? <==> page.table.Some? && page.table.value.body.Some?
  {
    match page.table
    case None => Err(TableNotFound)
    case Some(t) =>
      match t.body
      case None => Err(NoTableBody)
      case Some(rows) => Ok(rows)
  }

  /** A row becomes a post only when it has exactly three cells. */
  predicate Kept(row: Row) {
    |row.cells| == 3
  }

  /** The first cell carries a link. */
  predicate HasLink(row: Row) {
    |row.cells| > 0 && row.cells[0].href.Some?
  }

  predicate AllLinked(rows: seq<Row>) {
    forall k :: 0 <= k < |rows| ==> HasLink(rows[k])
  }

  /** The rows with exactly three cells, in table order. */
  function KeptRows(rows: seq<Row>): (kept: seq<Row>)
    ensures |kept| <= |rows|
    ensures forall k :: 0 <= k < |kept| ==> Kept(kept[k])
  {
    if rows == [] then []
    else KeptRows(rows[..|rows| - 1]) + (if Kept(rows[|rows| - 1]) then [rows[|rows| - 1]] else [])
  }

  /** Rows of other widths are skipped without a trace: a table whose rows
      all have three cells keeps all of them, in order, and one whose rows
      all have some other width keeps none. */
  lemma {:induction false} KeptRowsExtremes(rows: seq<Row>)
    ensures (forall k :: 0 <= k < |rows| ==> Kept(rows[k])) ==> KeptRows(rows) == rows
    ensures (forall k :: 0 <= k < |rows| ==> !Kept(rows[k])) ==> KeptRows(rows) == []
  {
    if rows != [] {
      KeptRowsExtremes(rows[..|rows| - 1]);
      assert rows[..|rows| - 1] + [rows[|rows| - 1]] == rows;
    }
  }

  /** Keeping rows distributes over concatenation: the rows kept from a
      table are those kept from its first part followed by those kept from
      the rest, so every three-cell row is kept once, in table order. */
  lemma {:induction false} KeptRowsAppend(a: seq<Row>, b: seq<Row>)
    ensures KeptRows(a + b) == KeptRows(a) + KeptRows(b)
    decreases |b|
  {
    if b == [] {
      assert a + b == a;
    } else {
      var init := b[..|b| - 1];
      KeptRowsAppend(a, init);
      assert (a + b)[..|a + b| - 1] == a + init;
      assert (a + b)[|a + b| - 1] == b[|b| - 1];
    }
  }

  /** A single row is kept exactly when it has three cells. */
  lemma KeptRowsOne(row: Row)
    ensures KeptRows([row]) == if Kept(row) then [row] else []
  {
    assert [row][..0] == [];
  }

  /** The scrapers' row loop: `build(i, row)` makes post number `i` from a
      three-cell row; rows of any other width are skipped, and the first
      row whose post cannot be made aborts the loop with its error. */
  function Collect<P>(rows: seq<Row>, build: (nat, Row) --> Result<P>): Result<seq<P>>
    requires forall i: nat, row :: Kept(row) ==> build.requires(i, row)
  {
    if rows == [] then Ok([])
    else
      match Collect(rows[..|rows| - 1], build)
      case Err(e) => Err(e)
      case Ok(posts) =>
        var row := rows[|rows| - 1];
        if !Kept(row) then Ok(posts)
        else
          match build(|posts|, row)
          case Err(e) => Err(e)
          case Ok(p) => Ok(posts + [p])
  }

  /** How one more row changes the loop's outcome, in terms of the kept rows. */
  lemma CollectStep<P>(rows: seq<Row>, build: (nat, Row) --> Result<P>)
    requires forall i: nat, row :: Kept(row) ==> build.requires(i, row)
    requires rows != []
    ensures var init, last := rows[..|rows| - 1], rows[|rows| - 1];
      && (!Kept(last) ==> KeptRows(rows) == KeptRows(init) && Collect(rows, build) == Collect(init, build))
      && (Kept(last) ==> KeptRows(rows) == KeptRows(init) + [last])
      && (Kept(last) && Collect(init, build).Ok? ==>
            Collect(rows, build) ==
              match build(|Collect(init, build).value|, last)
              case Err(e) => Err(e)
              case Ok(p) => Ok(Collect(init, build).value + [p]))
      && (Collect(init, build).Err? ==> Collect(rows, build) == Collect(init, build))
  {
  }

  /** The loop succeeds exactly when every kept row's post can be made, and
      then post k is the one made from the k-th kept row, in table order. */
  lemma {:induction false} CollectSpec<P>(rows: seq<Row>, build: (nat, Row) --> Result<P>)
    requires forall i: nat, row :: Kept(row) ==> build.requires(i, row)
    ensures var kept, r := KeptRows(rows), Collect(rows, build);
      && (r.Ok? <==> forall k :: 0 <= k < |kept| ==> build(k, kept[k]).Ok?)
      && (r.Ok? ==> |r.value| == |kept| && forall k :: 0 <= k < |kept| ==> build(k, kept[k]) == Ok(r.value[k]))
  {
    if rows != [] {
      var init, last := rows[..|rows| - 1], rows[|rows| - 1];
      CollectSpec(init, build);
      CollectStep(rows, build);
      var kept0, kept := KeptRows(init), KeptRows(rows);
      if Kept(last) {
        assert forall k :: 0 <= k < |kept0| ==> kept[k] == kept0[k];
        assert kept[|kept0|] == last;
        if Collect(init, build).Err? {
          var k :| 0 <= k < |kept0| && !build(k, kept0[k]).Ok?;
          assert !build(k, kept[k]).Ok?;
        }
      }
    }
  }

  /** The loop's error is that of the first kept row whose post cannot be made. */
  lemma {:induction false} CollectError<P>(rows: seq<Row>, build: (nat, Row) --> Result<P>)
    requires forall i: nat, row :: Kept(row) ==> build.requires(i, row)
    requires Collect(rows, build).Err?
    ensures var kept := KeptRows(rows);
      exists k :: 0 <= k < |kept| && build(k, kept[k]) == Err(Collect(rows, build).error)
        && forall j :: 0 <= j < k ==> build(j, kept[j]).Ok?
  {
    var init, last := rows[..|rows| - 1], rows[|rows| - 1];
    CollectStep(rows, build);
    var kept0, kept := KeptRows(init), KeptRows(rows);
    if Collect(init, build).Err? {
      CollectError(init, build);
      var k :| 0 <= k < |kept0| && build(k, kept0[k]) == Err(Collect(init, build).error)
        && forall j :: 0 <= j < k ==> build(j, kept0[j]).Ok?;
      assert Kept(last) ==> kept == kept0 + [last];
      assert forall j :: 0 <= j < |kept0| ==> kept[j] == kept0[j];
      assert build(k, kept[k]) == Err(Collect(rows, build).error);
    } else {
      CollectSpec(init, build);
      assert kept == kept0 + [last];
      assert forall j :: 0 <= j < |kept0| ==> kept[j] == kept0[j];
      assert build(|kept0|, kept[|kept0|]) == Err(Collect(rows, build).error);
    }
  }

  /** Once a prefix of the rows fails, the whole loop fails with the same error. */
  lemma {:induction false} CollectErrorSticks<P>(rows: seq<Row>, n: nat, build: (nat, Row) --> Result<P>)
    requires forall i: nat, row :: Kept(row) ==> build.requires(i, row)
    requires n <= |rows| && Collect(rows[..n], build).Err?
    ensures Collect(rows, build) == Collect(rows[..n], build)
    decreases |rows| - n
  {
    if n < |rows| {
      assert rows[..n + 1][..n] == rows[..n];
      CollectErrorSticks(rows, n + 1, build);
    } else {
      assert rows[..n] == rows;
    }
  }
}
