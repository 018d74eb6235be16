/** `scrape_posts(onion_url, proxies, ...)` of app/services/scraper.py: like
    the legacy scraper it keeps the three-cell rows of the listing, but it
    resolves relative links against the listing URL's own base, and it
    fetches every post's page for its body. A failed body fetch gives that
    one post a placeholder body and the scrape goes on. */
module Scraper {
  import opened Outcomes
  import opened Text
  import opened Envelope
  import opened Markup

  /** The body recorded for a post whose page could not be fetched. */
  const Placeholder: string := "{\"message\": \"Error fetching content\"}"

  const Marketplace: string := "/marketplace"

  /** The detail GETs of one scrape: `fetch(i, link)` is the outcome of
      fetching post number `i` from `link`. */
  type Fetch = (nat, string) -> DetailOutcome

  /** `content` is base64 of the post's body text. */
  datatype Post = Post(title: string, category: string, date: string, link: string, content: string)

  /** `onion_url.split('/marketplace')[0]`: the listing URL up to its first
      `/marketplace`, or all of it when there is none. */
  function BaseUrl(onionUrl: string): (b: string)
    ensures StartsWith(onionUrl, b) && !Contains(b, Marketplace)
    ensures b == onionUrl || OccursAt(onionUrl, Marketplace, |b|)
  {
    SplitFirst(onionUrl, Marketplace);
    var b := Split(onionUrl, Marketplace)[0];
    assert !Contains(b, Marketplace) by {
      forall j: nat | OccursAt(b, Marketplace, j) ensures false {
        assert onionUrl[j..j + |Marketplace|] == b[j..j + |Marketplace|];
        assert OccursAt(onionUrl, Marketplace, j);
      }
    }
    b
  }

  /** A link starting with `/` is appended to the base without its trailing
      slashes; any other link is kept as it is. */
  function ResolveLink(base: string, link: string): (r: string)
    ensures StartsWith(link, "/") ==> r == RStripSlash(base) + link
    ensures !StartsWith(link, "/") ==> r == link
  {
    if StartsWith(link, "/") then RStripSlash(base) + link else link
  }

  /** The `content` field a detail fetch yields: base64 of the stripped
      first paragraph, `''` when the page lacks one of the three nested
      elements, and base64 of the placeholder when the fetch failed. */
  function ContentB64(c: Codecs, outcome: DetailOutcome): (b64: string)
    ensures outcome.Fetched? && FirstParagraph(outcome.page).None? ==> b64 == ""
    ensures outcome.FetchFailed? || FirstParagraph(outcome.page).Some? ==> b64 == c.b64encode(BodyText(outcome))
  {
    match outcome
    case FetchFailed(_) => c.b64encode(Placeholder)
    case Fetched(page) =>
      match FirstParagraph(page)
      case None => ""
      case Some(text) => c.b64encode(Strip(text))
  }

  /** The post a three-cell row gives when it is post number `i`; only a
      title cell without a link aborts the scrape, never its detail fetch. */
  function PostOf(c: Codecs, base: string, fetch: Fetch, i: nat, row: Row): (r: Result<Post>)
    requires Kept(row)
    ensures r.Ok? <==> HasLink(row)
  {
    match row.cells[0].href
    case None => Err(NoLink)
    case Some(href) =>
      var link := ResolveLink(base, href);
      Ok(Post(Strip(row.cells[0].text), Strip(row.cells[1].text), Strip(row.cells[2].text),
              link, ContentB64(c, fetch(i, link))))
  }

  /** A post's title, category and date are the stripped texts of cells 0,
      1 and 2; its link is the resolved `href`; its body comes from fetching
      that link. */
  lemma PostOfFields(c: Codecs, base: string, fetch: Fetch, i: nat, row: Row)
    requires Kept(row) && HasLink(row)
    ensures PostOf(c, base, fetch, i, row).Ok?
    ensures var p := PostOf(c, base, fetch, i, row).value;
      && p.title == Strip(row.cells[0].text)
      && p.category == Strip(row.cells[1].text)
      && p.date == Strip(row.cells[2].text)
      && p.link == ResolveLink(base, row.cells[0].href.value)
      && p.content == ContentB64(c, fetch(i, p.link))
  {
  }

  /** The post-making step of the row loop, for `Collect`. */
  function Builder(c: Codecs, base: string, fetch: Fetch): (b: (nat, Row) --> Result<Post>)
    ensures forall i: nat, row :: Kept(row) ==> b.requires(i, row) && b(i, row) == PostOf(c, base, fetch, i, row)
  {
    (i: nat, row: Row) requires Kept(row) => PostOf(c, base, fetch, i, row)
  }

  /** The posts of the listing rows, in row order, or the first row error. */
  function ExtractPosts(c: Codecs, base: string, fetch: Fetch, rows: seq<Row>): Result<seq<Post>> {
    Collect(rows, Builder(c, base, fetch))
  }

  /** A post as a JSON object, with its five keys. */
  function PostJson(p: Post): (j: Json)
    ensures j.JObj? && j.fields.Keys == {"title", "category", "date", "link", "content"}
    ensures j.fields["title"] == JStr(p.title) && j.fields["category"] == JStr(p.category)
    ensures j.fields["date"] == JStr(p.date) && j.fields["link"] == JStr(p.link)
    ensures j.fields["content"] == JStr(p.content)
  {
    JObj(map["title" := JStr(p.title), "category" := JStr(p.category), "date" := JStr(p.date),
             "link" := JStr(p.link), "content" := JStr(p.content)])
  }

  /** `{"posts": [...]}`, the object that is encoded. */
  function Payload(posts: seq<Post>): Json {
    PostsObject(posts, PostJson)
  }

  /** What `scrape_posts` returns for a given response to the listing GET
      and given detail fetches: the envelope of the payload, or the error
      it raises. */
  function Scraped(c: Codecs, onionUrl: string, response: Result<ListingPage>, fetch: Fetch): (r: Result<string>)
    ensures response.Err? ==> r == Err(response.error)
    ensures r.Ok? <==>
      (response.Ok? && ListingRows(response.value).Ok? &&
       AllLinked(KeptRows(ListingRows(response.value).value)))
    ensures response.Ok? && ListingRows(response.value).Ok? && r.Err? ==> r.error == NoLink
  {
    match response
    case Err(e) => Err(e)
    case Ok(page) =>
      match ListingRows(page)
      case Err(e) => Err(e)
      case Ok(rows) =>
        ExtractPostsSpec(c, BaseUrl(onionUrl), fetch, rows);
        match ExtractPosts(c, BaseUrl(onionUrl), fetch, rows)
        case Err(e) => Err(e)
        case Ok(posts) => Ok(Encode(c, Payload(posts)))
  }

  /** One post per three-cell row, in row order. Whether the scrape
      succeeds depends only on the rows' links, never on a detail fetch;
      post k is made from the k-th kept row and its body from the k-th
      fetch, of that post's own link. */
  lemma ExtractPostsSpec(c: Codecs, base: string, fetch: Fetch, rows: seq<Row>)
    ensures var kept, r := KeptRows(rows), ExtractPosts(c, base, fetch, rows);
      && (r.Ok? <==> AllLinked(kept))
      && (r.Ok? ==> |r.value| == |kept| && forall k :: 0 <= k < |kept| ==>
            && PostOf(c, base, fetch, k, kept[k]) == Ok(r.value[k])
            && r.value[k].link == ResolveLink(base, kept[k].cells[0].href.value)
            && r.value[k].content == ContentB64(c, fetch(k, r.value[k].link)))
      && (r.Err? ==> r.error == NoLink)
  {
    var b := Builder(c, base, fetch);
    CollectSpec(rows, b);
    if ExtractPosts(c, base, fetch, rows).Err? {
      CollectError(rows, b);
    }
  }

  /** The text a detail fetch yields as a post's body, before encoding. */
  function BodyText(outcome: DetailOutcome): (text: string)
    ensures outcome.FetchFailed? ==> text == Placeholder
    ensures outcome.Fetched? && FirstParagraph(outcome.page).Some? ==>
      text == Strip(FirstParagraph(outcome.page).value)
    ensures outcome.Fetched? && FirstParagraph(outcome.page).None? ==> text == ""
  {
    match outcome
    case FetchFailed(_) => Placeholder
    case Fetched(page) =>
      match FirstParagraph(page)
      case None => ""
      case Some(text) => Strip(text)
  }

  /** A post's `content` opens to its body: the placeholder for a failed
      fetch, the stripped first paragraph, or the empty text for a page
      without one. */
  lemma ContentOpens(c: Codecs, outcome: DetailOutcome)
    requires Lawful(c)
    ensures c.b64decode(ContentB64(c, outcome)) == Ok(BodyText(outcome))
  {
    assert c.b64decode(c.b64encode("")) == Ok("");
  }

  /** The body step of the loop: the detail page's first paragraph, looked
      up through its two enclosing regions, stripped and base64-encoded. */
  method ReadBody(c: Codecs, outcome: DetailOutcome) returns (contentB64: string)
    ensures contentB64 == ContentB64(c, outcome)
  {
    contentB64 := "";
    match outcome {
      case FetchFailed(_) =>
        contentB64 := c.b64encode(Placeholder);
      case Fetched(detail) =>
        if detail.postContent.Some? {
          var postContentDiv := detail.postContent.value;
          if postContentDiv.content.Some? {
            var contentDiv := postContentDiv.content.value;
            if contentDiv.firstParagraph.Some? {
              var content := Strip(contentDiv.firstParagraph.value);
              contentB64 := c.b64encode(content);
            }
          }
        }
    }
  }

  /** The scraper's loop: one pass over the rows, skipping the rows whose
      width is not three and fetching each kept row's page. */
  method ScrapePosts(c: Codecs, onionUrl: string, response: Result<ListingPage>, fetch: Fetch)
    returns (r: Result<string>)
    ensures r == Scraped(c, onionUrl, response, fetch)
  {
    if response.Err? {
      return Err(response.error);
    }
    var page := response.value;
    if page.table.None? {
      return Err(TableNotFound);
    }
    var base := BaseUrl(onionUrl);
    if page.table.value.body.None? {
      return Err(NoTableBody);
    }
    var rows := page.table.value.body.value;
    ghost var b := Builder(c, base, fetch);
    var posts: seq<Post> := [];
    var i := 0;
    while i < |rows|
      invariant 0 <= i <= |rows|
      invariant Collect(rows[..i], b) == Ok(posts)
    {
      assert rows[..i + 1][..i] == rows[..i];
      CollectStep(rows[..i + 1], b);
      var cells := rows[i].cells;
      if |cells| != 3 {
        i := i + 1;
        continue;
      }
      var title := Strip(cells[0].text);
      if cells[0].href.None? {
        CollectErrorSticks(rows, i + 1, b);
        return Err(NoLink);
      }
      var link := cells[0].href.value;
      if StartsWith(link, "/") {
        link := RStripSlash(base) + link;
      }
      assert link == ResolveLink(base, cells[0].href.value);
      var category := Strip(cells[1].text);
      var date := Strip(cells[2].text);
      var contentB64 := ReadBody(c, fetch(|posts|, link));
      assert b(|posts|, rows[i]) == Ok(Post(title, category, date, link, contentB64));
      posts := posts + [Post(title, category, date, link, contentB64)];
      i := i + 1;
    }
    assert rows[..i] == rows;
    r := Ok(Encode(c, Payload(posts)));
  }
}
