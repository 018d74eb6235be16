/** `scrape_posts()` of app/scraper/scraper.py, the scraper the scans router
    runs: it reads one fixed listing URL, keeps the three-cell rows, and
    returns the envelope of `{"posts": [...]}` with four keys per post. It
    fetches no post bodies. */
module LegacyScraper {
  import opened Outcomes
  import opened Text
  import opened Envelope
  import opened Markup

  /** The fixed origin that relative links are resolved against. */
  const Origin: string := "http://p5uxnaqbs77uklgg2r6rmwteo3snvaojh57buniphkpckmxwgcx5i2qd.onion"

  datatype Post = Post(title: string, category: string, date: string, link: string)

  /** A link starting with `/` is prefixed with the fixed origin; any other
      link is kept as it is. */
  function ResolveLink(link: string): (r: string)
    ensures StartsWith(link, "/") ==> r == Origin + link
    ensures !StartsWith(link, "/") ==> r == link
  {
    if StartsWith(link, "/") then Origin + link else link
  }

  /** The post a three-cell row gives; a title cell without a link aborts
      the whole scrape. */
  function PostOf(row: Row): (r: Result<Post>)
    requires Kept(row)
    ensures r.Ok? <==> HasLink(row)
  {
    match row.cells[0].href
    case None => Err(NoLink)
    case Some(link) =>
      Ok(Post(Strip(row.cells[0].text), Strip(row.cells[1].text), Strip(row.cells[2].text), ResolveLink(link)))
  }

  /** A post's title, category and date are the stripped texts of cells 0,
      1 and 2, and its link is the resolved `href` of the title cell. */
  lemma PostOfFields(row: Row)
    requires Kept(row) && HasLink(row)
    ensures PostOf(row).Ok?
    ensures var p := PostOf(row).value;
      && p.title == Strip(row.cells[0].text)
      && p.category == Strip(row.cells[1].text)
      && p.date == Strip(row.cells[2].text)
      && p.link == ResolveLink(row.cells[0].href.value)
  {
  }

  /** The post-making step of the row loop, for `Collect`; this scraper
      fetches nothing, so the post number plays no part. */
  function Builder(): (b: (nat, Row) --> Result<Post>)
    ensures forall i: nat, row :: Kept(row) ==> b.requires(i, row) && b(i, row) == PostOf(row)
  {
    (i: nat, row: Row) requires Kept(row) => PostOf(row)
  }

  /** The posts of the listing rows, in row order, or the first row error. */
  function ExtractPosts(rows: seq<Row>): Result<seq<Post>> {
    Collect(rows, Builder())
  }

  /** A post as a JSON object: exactly the keys title, category, date and link. */
  function PostJson(p: Post): (j: Json)
    ensures j.JObj? && j.fields.Keys == {"title", "category", "date", "link"}
    ensures j.fields["title"] == JStr(p.title) && j.fields["category"] == JStr(p.category)
    ensures j.fields["date"] == JStr(p.date) && j.fields["link"] == JStr(p.link)
  {
    JObj(map["title" := JStr(p.title), "category" := JStr(p.category),
             "date" := JStr(p.date), "link" := JStr(p.link)])
  }

  /** `{"posts": [...]}`, the object that is encoded. */
  function Payload(posts: seq<Post>): Json {
    PostsObject(posts, PostJson)
  }

  /** What `scrape_posts()` returns for a given response to the listing GET:
      the envelope of the payload, or the error it raises. */
  function Scraped(c: Codecs, response: Result<ListingPage>): (r: Result<string>)
    ensures response.Err? ==> r == Err(response.error)
    ensures r.Ok? <==>
      (response.Ok? && ListingRows(response.value).Ok? &&
       AllLinked(KeptRows(ListingRows(response.value).value)))
    ensures response.Ok? && ListingRows(response.value).Ok? && r.Err? ==> r.error == NoLink
  {
    match response
    case Err(e) => Err(e)
    case Ok(page) =>
      match ListingRows(page)
      case Err(e) => Err(e)
      case Ok(rows) =>
        ExtractPostsSpec(rows);
        match ExtractPosts(rows)
        case Err(e) => Err(e)
        case Ok(posts) => Ok(Encode(c, Payload(posts)))
  }

  /** One post per three-cell row, in row order: the scrape succeeds
      exactly when every kept row's title cell has a link, and then post k
      is made from the k-th kept row. A failing scrape reports the first
      kept row without a link. */
  lemma ExtractPostsSpec(rows: seq<Row>)
    ensures var kept, r := KeptRows(rows), ExtractPosts(rows);
      && (r.Ok? <==> AllLinked(kept))
      && (r.Ok? ==> |r.value| == |kept| && forall k :: 0 <= k < |kept| ==> PostOf(kept[k]) == Ok(r.value[k]))
      && (r.Err? ==> r.error == NoLink)
  {
    CollectSpec(rows, Builder());
    if ExtractPosts(rows).Err? {
      CollectError(rows, Builder());
    }
  }

  /** The scraper's loop: one pass over the rows, skipping the rows whose
      width is not three. */
  method ScrapePosts(c: Codecs, response: Result<ListingPage>) returns (r: Result<string>)
    ensures r == Scraped(c, response)
  {
    if response.Err? {
      return Err(response.error);
    }
    var page := response.value;
    if page.table.None? {
      return Err(TableNotFound);
    }
    if page.table.value.body.None? {
      return Err(NoTableBody);
    }
    var rows := page.table.value.body.value;
    ghost var b := Builder();
    var posts: seq<Post> := [];
    var i := 0;
    while i < |rows|
      invariant 0 <= i <= |rows|
      invariant Collect(rows[..i], b) == Ok(posts)
    {
      assert rows[..i + 1][..i] == rows[..i];
      CollectStep(rows[..i + 1], b);
      var cells := rows[i].cells;
      if |cells| != 3 {
        i := i + 1;
        continue;
      }
      var title := Strip(cells[0].text);
      if cells[0].href.None? {
        CollectErrorSticks(rows, i + 1, b);
        assert ExtractPosts(rows) == Err(NoLink);
        return Err(NoLink);
      }
      var link := cells[0].href.value;
      if StartsWith(link, "/") {
        link := Origin + link;
      }
      assert link == ResolveLink(cells[0].href.value);
      var category := Strip(cells[1].text);
      var date := Strip(cells[2].text);
      assert b(|posts|, rows[i]) == Ok(Post(title, category, date, link));
      posts := posts + [Post(title, category, date, link)];
      i := i + 1;
    }
    assert rows[..i] == rows;
    assert ExtractPosts(rows) == Ok(posts);
    r := Ok(Encode(c, Payload(posts)));
  }
}
