/** app/routers/claude_router.py: `classify_posts`, the background task
    `run_classification`, and the endpoints that start a classification and
    read a Report. The classifier service is a parameter: `service(i, content)`
    is the outcome of the i-th call, made for the i-th post, whose content
    is `content`; that call's prompt is `Classifier.Prompt(content)`. */
module ClaudeRouter {
  import opened Outcomes
  import opened Envelope
  import opened Store
  import opened ScanStore
  import Classifier
  import LegacyScraper
  import Scraper
  import Markup

  type Service = (nat, string) -> Result<string>

  const ScanNotFound: string := "Scan not found"
  const ReportNotFound: string := "Report not found"
  const FailurePrefix: string := "Classification failed: "

  /** Messages of the exceptions Python raises on values of the wrong kind. */
  const NoGet: string := "object has no attribute 'get'"
  const NotIterable: string := "object is not iterable"
  const NotText: string := "argument should be a bytes-like object or ASCII string"

  /** `posts_data.get('posts', [])`, then iterated: a list gives its items,
      an empty string or dictionary gives none, and anything else raises. */
  function PostsOf(decoded: Json): (r: Result<seq<Json>>)
    ensures !decoded.JObj? ==> r.Err?
    ensures decoded.JObj? && "posts" !in decoded.fields ==> r == Ok([])
    ensures decoded.JObj? && "posts" in decoded.fields && decoded.fields["posts"].JArr? ==>
      r == Ok(decoded.fields["posts"].items)
  {
    if !decoded.JObj? then Err(NoGet)
    else
      match Get(decoded.fields, "posts", JArr([]))
      case JArr(items) => Ok(items)
      case JStr(s) => if s == "" then Ok([]) else Err(NoGet)
      case JObj(m) => if m == map[] then Ok([]) else Err(NoGet)
      case _ => Err(NotIterable)
  }

  /** `post.get('content', '')`, base64-decoded. */
  function ItemContent(c: Codecs, post: Json): (r: Result<string>)
    ensures !post.JObj? ==> r.Err?
    ensures post.JObj? && "content" !in post.fields ==> r == c.b64decode("")
    ensures post.JObj? && "content" in post.fields && post.fields["content"].JStr? ==>
      r == c.b64decode(post.fields["content"].s)
  {
    if !post.JObj? then Err(NoGet)
    else
      match Get(post.fields, "content", JStr(""))
      case JStr(b64) => c.b64decode(b64)
      case _ => Err(NotText)
  }

  /** A verdict: the decoded content with the classifier's classification
      and scores. */
  function Verdict(content: string, classification: Json, scores: Json): (v: Json)
    ensures v.JObj? && v.fields.Keys == {"content", "classification", "scores"}
    ensures v.fields["content"] == JStr(content)
    ensures v.fields["classification"] == classification && v.fields["scores"] == scores
  {
    JObj(map["content" := JStr(content), "classification" := classification, "scores" := scores])
  }

  /** The verdict for one decoded content: the classifier's result must be
      a dictionary, whose `classification` and `scores` are copied, None
      when absent. */
  function ClassifyContent(c: Codecs, service: Service, i: nat, content: string): (r: Result<Json>)
    ensures r.Ok? <==> Classifier.ClassifyReply(c, service(i, content)).JObj?
    ensures r.Ok? ==> r.value.JObj? && "content" in r.value.fields && r.value.fields["content"] == JStr(content)
    ensures r.Ok? ==> var fields := Classifier.ClassifyReply(c, service(i, content)).fields;
      r.value == Verdict(content, Get(fields, "classification", JNull), Get(fields, "scores", JNull))
  {
    match Classifier.ClassifyReply(c, service(i, content))
    case JObj(fields) =>
      Ok(Verdict(content, Get(fields, "classification", JNull), Get(fields, "scores", JNull)))
    case _ => Err(NoGet)
  }

  /** A failed service call does not fail the item: its verdict carries
      the post's content with null classification and scores. */
  lemma ServiceErrorGivesNullVerdict(c: Codecs, service: Service, i: nat, content: string)
    requires service(i, content).Err?
    ensures ClassifyContent(c, service, i, content) == Ok(Verdict(content, JNull, JNull))
  {
    Classifier.ClassifyFailures(c, service(i, content));
  }

  /** The service seen by `classify_posts` when the model's i-th call is
      `ask(i, prompt)`: each post's call is made with its filled template. */
  function Replies(ask: (nat, string) -> Result<string>): (service: Service)
    ensures forall i, content :: service(i, content) == ask(i, Classifier.Prompt(content))
  {
    (i: nat, content: string) => ask(i, Classifier.Prompt(content))
  }

  /** An item is classified by `claude_classify` itself: with the model's
      calls given by prompt, the verdict carries what `ClaudeClassify`
      returns for the post's content, and an item fails exactly when that
      result is not a dictionary. */
  lemma ClassifiesWithClaudeClassify(c: Codecs, ask: (nat, string) -> Result<string>, i: nat, content: string)
    ensures var v := Classifier.ClaudeClassify(c, prompt => ask(i, prompt), content);
      && (ClassifyContent(c, Replies(ask), i, content).Ok? <==> v.JObj?)
      && (v.JObj? ==>
            ClassifyContent(c, Replies(ask), i, content) ==
              Ok(Verdict(content, Get(v.fields, "classification", JNull), Get(v.fields, "scores", JNull))))
  {
  }

  /** One iteration of the `for post in posts` loop. */
  function ClassifyItem(c: Codecs, service: Service, i: nat, post: Json): (r: Result<Json>)
    ensures ItemContent(c, post).Err? ==> r == Err(ItemContent(c, post).error)
    ensures r.Ok? ==>
      (ItemContent(c, post).Ok? && r.value.JObj? &&
       r.value.fields.Keys == {"content", "classification", "scores"} &&
       r.value.fields["content"] == JStr(ItemContent(c, post).value))
  {
    match ItemContent(c, post)
    case Err(e) => Err(e)
    case Ok(content) => ClassifyContent(c, service, i, content)
  }

  /** The `for post in posts` loop: `item(i, post)` handles post number
      `i`, and the first item that fails aborts the loop with its error. */
  function Sequenced(posts: seq<Json>, item: (nat, Json) -> Result<Json>): Result<seq<Json>> {
    if posts == [] then Ok([])
    else
      match Sequenced(posts[..|posts| - 1], item)
      case Err(e) => Err(e)
      case Ok(verdicts) =>
        match item(|posts| - 1, posts[|posts| - 1])
        case Err(e) => Err(e)
        case Ok(v) => Ok(verdicts + [v])
  }

  /** The loop succeeds exactly when every item does, and then result k is
      that of post k. */
  lemma {:induction false} SequencedSpec(posts: seq<Json>, item: (nat, Json) -> Result<Json>)
    ensures var r := Sequenced(posts, item);
      && (r.Ok? <==> forall k :: 0 <= k < |posts| ==> item(k, posts[k]).Ok?)
      && (r.Ok? ==> (|r.value| == |posts| &&
            forall k :: 0 <= k < |posts| ==> item(k, posts[k]) == Ok(r.value[k])))
  {
    if posts != [] {
      var init := posts[..|posts| - 1];
      SequencedSpec(init, item);
      assert forall k :: 0 <= k < |init| ==> init[k] == posts[k];
    }
  }

  /** The loop's error is that of the first post whose item fails. */
  lemma {:induction false} SequencedError(posts: seq<Json>, item: (nat, Json) -> Result<Json>)
    requires Sequenced(posts, item).Err?
    ensures exists k ::
      && 0 <= k < |posts|
      && item(k, posts[k]) == Err(Sequenced(posts, item).error)
      && forall j :: 0 <= j < k ==> item(j, posts[j]).Ok?
  {
    var init := posts[..|posts| - 1];
    assert forall j :: 0 <= j < |init| ==> init[j] == posts[j];
    if Sequenced(init, item).Err? {
      SequencedError(init, item);
    } else {
      SequencedSpec(init, item);
    }
  }

  /** Once a prefix of the posts fails, the whole loop fails with the same error. */
  lemma {:induction false} SequencedErrorSticks(posts: seq<Json>, n: nat, item: (nat, Json) -> Result<Json>)
    requires n <= |posts| && Sequenced(posts[..n], item).Err?
    ensures Sequenced(posts, item) == Sequenced(posts[..n], item)
    decreases |posts| - n
  {
    if n < |posts| {
      assert posts[..n + 1][..n] == posts[..n];
      SequencedErrorSticks(posts, n + 1, item);
    } else {
      assert posts[..n] == posts;
    }
  }

  /** The item step of `classify_posts` for given codecs and service. */
  function Item(c: Codecs, service: Service): (item: (nat, Json) -> Result<Json>)
    ensures forall i, post :: item(i, post) == ClassifyItem(c, service, i, post)
  {
    (i: nat, post: Json) => ClassifyItem(c, service, i, post)
  }

  /** The verdicts of the posts, in order, or the first item's error. */
  function ClassifyAll(c: Codecs, service: Service, posts: seq<Json>): Result<seq<Json>> {
    Sequenced(posts, Item(c, service))
  }

  /** One verdict per post, in order: the loop succeeds exactly when every
      item does, and then verdict k is that of post k; otherwise the error
      is that of the first failing post. */
  lemma ClassifyAllSpec(c: Codecs, service: Service, posts: seq<Json>)
    ensures var r := ClassifyAll(c, service, posts);
      && (r.Ok? <==> forall k :: 0 <= k < |posts| ==> ClassifyItem(c, service, k, posts[k]).Ok?)
      && (r.Ok? ==> (|r.value| == |posts| &&
            forall k :: 0 <= k < |posts| ==> ClassifyItem(c, service, k, posts[k]) == Ok(r.value[k])))
      && (r.Err? ==> exists k ::
            && 0 <= k < |posts|
            && ClassifyItem(c, service, k, posts[k]) == Err(r.error)
            && forall j :: 0 <= j < k ==> ClassifyItem(c, service, j, posts[j]).Ok?)
  {
    SequencedSpec(posts, Item(c, service));
    if ClassifyAll(c, service, posts).Err? {
      SequencedError(posts, Item(c, service));
    }
  }

  /** `{"error": message}` */
  function ErrorPayload(message: string): (j: Json)
    ensures j.JObj? && j.fields.Keys == {"error"} && j.fields["error"] == JStr(message)
  {
    JObj(map["error" := JStr(message)])
  }

  /** What `classify_posts(scan, ...)` returns for a Scan's result:
      `{"posts": verdicts}`, or the HTTPException it raises, whose detail
      is prefixed with "Classification failed: ". */
  function ClassifiedPayload(c: Codecs, service: Service, scanResult: string): (r: Result<Json>)
    ensures r.Err? ==> |r.error| >= |FailurePrefix| && r.error[..|FailurePrefix|] == FailurePrefix
    ensures Decode(c, scanResult).Err? ==> r.Err?
  {
    match Decode(c, scanResult)
    case Err(e) => Err(FailurePrefix + e)
    case Ok(data) =>
      match PostsOf(data)
      case Err(e) => Err(FailurePrefix + e)
      case Ok(posts) =>
        match ClassifyAll(c, service, posts)
        case Err(e) => Err(FailurePrefix + e)
        case Ok(verdicts) => Ok(JObj(map["posts" := JArr(verdicts)]))
  }

  /** A verdict whose `content` is `text`. */
  predicate HasContent(verdict: Json, text: string) {
    verdict.JObj? && "content" in verdict.fields && verdict.fields["content"] == JStr(text)
  }

  /** A Scan result that opens to a payload with a list of posts whose
      contents decode to `texts` classifies them one by one, in order. */
  lemma ClassifyOpenedPosts(c: Codecs, service: Service, items: seq<Json>, texts: seq<string>)
    requires Lawful(c)
    requires |texts| == |items|
    requires forall k :: 0 <= k < |items| ==> ItemContent(c, items[k]) == Ok(texts[k])
    ensures var r := ClassifiedPayload(c, service, Encode(c, JObj(map["posts" := JArr(items)])));
      && (r.Ok? <==> forall k :: 0 <= k < |texts| ==> ClassifyContent(c, service, k, texts[k]).Ok?)
      && (r.Ok? ==> (
            && r.value.JObj? && r.value.fields.Keys == {"posts"} && r.value.fields["posts"].JArr?
            && |r.value.fields["posts"].items| == |texts|
            && (forall k :: 0 <= k < |texts| ==>
                 ClassifyContent(c, service, k, texts[k]) == Ok(r.value.fields["posts"].items[k]))
            && forall k :: 0 <= k < |texts| ==> HasContent(r.value.fields["posts"].items[k], texts[k])))
  {
    DecodeEncode(c, JObj(map["posts" := JArr(items)]));
    ClassifyAllSpec(c, service, items);
    assert forall k :: 0 <= k < |items| ==>
      ClassifyItem(c, service, k, items[k]) == ClassifyContent(c, service, k, texts[k]);
  }

  /** The running application's scans come from the legacy scraper, whose
      posts carry no `content` key: every post is classified as the empty
      text. */
  lemma LegacyScanClassifiesEmptyText(c: Codecs, service: Service, posts: seq<LegacyScraper.Post>)
    requires Lawful(c)
    ensures var r := ClassifiedPayload(c, service, Encode(c, LegacyScraper.Payload(posts)));
      && (r.Ok? <==> forall k :: 0 <= k < |posts| ==> ClassifyContent(c, service, k, "").Ok?)
      && (r.Ok? ==> (
            && r.value.JObj? && "posts" in r.value.fields && r.value.fields["posts"].JArr?
            && |r.value.fields["posts"].items| == |posts|
            && forall k :: 0 <= k < |posts| ==> HasContent(r.value.fields["posts"].items[k], "")))
  {
    var items := LegacyScraper.Payload(posts).fields["posts"].items;
    LegacyItemsOpenEmpty(c, posts);
    ClassifyOpenedSame(c, service, items, "");
  }

  /** `ClassifyOpenedPosts` for posts that all open to the same text. */
  lemma ClassifyOpenedSame(c: Codecs, service: Service, items: seq<Json>, text: string)
    requires Lawful(c)
    requires forall k :: 0 <= k < |items| ==> ItemContent(c, items[k]) == Ok(text)
    ensures var r := ClassifiedPayload(c, service, Encode(c, JObj(map["posts" := JArr(items)])));
      && (r.Ok? <==> forall k :: 0 <= k < |items| ==> ClassifyContent(c, service, k, text).Ok?)
      && (r.Ok? ==> (
            && r.value.JObj? && "posts" in r.value.fields && r.value.fields["posts"].JArr?
            && |r.value.fields["posts"].items| == |items|
            && forall k :: 0 <= k < |items| ==> HasContent(r.value.fields["posts"].items[k], text)))
  {
    var texts := seq(|items|, k => text);
    ClassifyOpenedPosts(c, service, items, texts);
    forall k | 0 <= k < |items| ensures ClassifyContent(c, service, k, text) == ClassifyContent(c, service, k, texts[k]) {
      assert texts[k] == text;
    }
  }

  /** The legacy payload is a list of posts under `posts`, and each post
      opens to the empty content. */
  lemma LegacyItemsOpenEmpty(c: Codecs, posts: seq<LegacyScraper.Post>)
    requires Lawful(c)
    ensures var items := LegacyScraper.Payload(posts).fields["posts"].items;
      && LegacyScraper.Payload(posts) == JObj(map["posts" := JArr(items)])
      && |items| == |posts|
      && forall k :: 0 <= k < |items| ==> ItemContent(c, items[k]) == Ok("")
  {
    var payload := LegacyScraper.Payload(posts);
    var items := payload.fields["posts"].items;
    assert payload == JObj(map["posts" := JArr(items)]);
    assert c.b64decode(c.b64encode("")) == Ok("");
    forall k | 0 <= k < |items| ensures ItemContent(c, items[k]) == Ok("") {
      assert items[k] == LegacyScraper.PostJson(posts[k]);
    }
  }

  /** Scans from the service scraper are classified on their posts'
      decoded bodies, one verdict per post, in order. */
  lemma ServiceScanClassifiesBodies(c: Codecs, service: Service, posts: seq<Scraper.Post>, texts: seq<string>)
    requires Lawful(c)
    requires |texts| == |posts|
    requires forall k :: 0 <= k < |posts| ==> c.b64decode(posts[k].content) == Ok(texts[k])
    ensures var r := ClassifiedPayload(c, service, Encode(c, Scraper.Payload(posts)));
      && (r.Ok? <==> forall k :: 0 <= k < |posts| ==> ClassifyContent(c, service, k, texts[k]).Ok?)
      && (r.Ok? ==> (
            && r.value.JObj? && "posts" in r.value.fields && r.value.fields["posts"].JArr?
            && |r.value.fields["posts"].items| == |posts|
            && forall k :: 0 <= k < |posts| ==> HasContent(r.value.fields["posts"].items[k], texts[k])))
  {
    var payload := Scraper.Payload(posts);
    var items := payload.fields["posts"].items;
    assert payload == JObj(map["posts" := JArr(items)]);
    forall k | 0 <= k < |items| ensures ItemContent(c, items[k]) == Ok(texts[k]) {
      assert items[k] == Scraper.PostJson(posts[k]);
    }
    ClassifyOpenedPosts(c, service, items, texts);
    assert Encode(c, payload) == Encode(c, JObj(map["posts" := JArr(items)]));
  }

  /** End to end: a Scan settled with the service scraper's output is
      classified on the body texts of its posts' detail fetches, one
      verdict per post, in order. */
  lemma ServiceScrapeClassification(c: Codecs, service: Service, onionUrl: string,
                                    response: Result<Markup.ListingPage>, fetch: Scraper.Fetch)
    requires Lawful(c)
    requires Scraper.Scraped(c, onionUrl, response, fetch).Ok?
    ensures var rows := Markup.ListingRows(response.value).value;
      var posts := Scraper.ExtractPosts(c, Scraper.BaseUrl(onionUrl), fetch, rows).value;
      var r := ClassifiedPayload(c, service, Scraper.Scraped(c, onionUrl, response, fetch).value);
      && (r.Ok? <==> forall k :: 0 <= k < |posts| ==>
            ClassifyContent(c, service, k, Scraper.BodyText(fetch(k, posts[k].link))).Ok?)
      && (r.Ok? ==> (
            && r.value.JObj? && "posts" in r.value.fields && r.value.fields["posts"].JArr?
            && |r.value.fields["posts"].items| == |posts|
            && forall k :: 0 <= k < |posts| ==>
                 HasContent(r.value.fields["posts"].items[k], Scraper.BodyText(fetch(k, posts[k].link)))))
  {
    var rows := Markup.ListingRows(response.value).value;
    var posts := Scraper.ExtractPosts(c, Scraper.BaseUrl(onionUrl), fetch, rows).value;
    var texts := seq(|posts|, k requires 0 <= k < |posts| => Scraper.BodyText(fetch(k, posts[k].link)));
    ScrapedBodiesOpen(c, Scraper.BaseUrl(onionUrl), fetch, rows);
    ServiceScanClassifiesBodies(c, service, posts, texts);
  }

  /** Each post of a successful service scrape opens to the body text of
      its own detail fetch. */
  lemma ScrapedBodiesOpen(c: Codecs, base: string, fetch: Scraper.Fetch, rows: seq<Markup.Row>)
    requires Lawful(c)
    requires Scraper.ExtractPosts(c, base, fetch, rows).Ok?
    ensures var posts := Scraper.ExtractPosts(c, base, fetch, rows).value;
      forall k :: 0 <= k < |posts| ==>
        c.b64decode(posts[k].content) == Ok(Scraper.BodyText(fetch(k, posts[k].link)))
  {
    var posts := Scraper.ExtractPosts(c, base, fetch, rows).value;
    Scraper.ExtractPostsSpec(c, base, fetch, rows);
    forall k | 0 <= k < |posts|
      ensures c.b64decode(posts[k].content) == Ok(Scraper.BodyText(fetch(k, posts[k].link)))
    {
      Scraper.ContentOpens(c, fetch(k, posts[k].link));
    }
  }

  /** `classify_posts(scan, ...)`: the loop over the decoded posts. */
  method ClassifyPosts(c: Codecs, service: Service, scan: Scan) returns (r: Result<Json>)
    ensures r == ClassifiedPayload(c, service, scan.result)
  {
    var decoded := c.b64decode(scan.result);
    if decoded.Err? {
      return Err(FailurePrefix + decoded.error);
    }
    var postsData := c.loads(decoded.value);
    if postsData.Err? {
      return Err(FailurePrefix + postsData.error);
    }
    var found := PostsOf(postsData.value);
    if found.Err? {
      return Err(FailurePrefix + found.error);
    }
    var posts := found.value;
    ghost var item := Item(c, service);
    var classifiedPosts: seq<Json> := [];
    var i := 0;
    while i < |posts|
      invariant 0 <= i <= |posts|
      invariant Sequenced(posts[..i], item) == Ok(classifiedPosts)
    {
      assert posts[..i + 1][..i] == posts[..i];
      var content := ItemContent(c, posts[i]);
      if content.Err? {
        SequencedErrorSticks(posts, i + 1, item);
        return Err(FailurePrefix + content.error);
      }
      var classificationResult := Classifier.ClassifyReply(c, service(i, content.value));
      if !classificationResult.JObj? {
        SequencedErrorSticks(posts, i + 1, item);
        return Err(FailurePrefix + NoGet);
      }
      classifiedPosts := classifiedPosts + [Verdict(content.value,
        Get(classificationResult.fields, "classification", JNull),
        Get(classificationResult.fields, "scores", JNull))];
      i := i + 1;
    }
    assert posts[..i] == posts;
    r := Ok(JObj(map["posts" := JArr(classifiedPosts)]));
  }

  /** The one update `run_classification` makes to a Report: failed with
      "Scan not found" when the Scan is gone, completed with the verdicts,
      or failed with the error. Its Scan, name and time are kept. */
  function Concluded(report: Report, scans: map<int, Scan>, scanId: int, c: Codecs, service: Service): (r: Report)
    ensures r.scanId == report.scanId && r.name == report.name && r.timestamp == report.timestamp
    ensures r.status == Completed || r.status == Failed
    ensures scanId !in scans ==> r.status == Failed && r.classification == c.dumps(ErrorPayload(ScanNotFound))
    ensures scanId in scans ==>
      (r.status == Completed <==> ClassifiedPayload(c, service, scans[scanId].result).Ok?)
  {
    if scanId !in scans then
      report.(status := Failed, classification := c.dumps(ErrorPayload(ScanNotFound)))
    else
      match ClassifiedPayload(c, service, scans[scanId].result)
      case Ok(payload) => report.(status := Completed, classification := c.dumps(payload))
      case Err(e) => report.(status := Failed, classification := c.dumps(ErrorPayload(e)))
  }

  /** A settled Report's classification parses back: a completed one to
      the `classify_posts` output, a failed one to `{"error": ...}`. */
  lemma ConcludedParses(report: Report, scans: map<int, Scan>, scanId: int, c: Codecs, service: Service)
    requires Lawful(c)
    ensures var r := Concluded(report, scans, scanId, c, service);
      && (r.status == Completed ==> (scanId in scans &&
            c.loads(r.classification) == ClassifiedPayload(c, service, scans[scanId].result)))
      && (r.status == Failed ==> exists message ::
            c.loads(r.classification) == Ok(ErrorPayload(message)))
  {
    var r := Concluded(report, scans, scanId, c, service);
    if scanId !in scans {
      assert c.loads(r.classification) == Ok(ErrorPayload(ScanNotFound));
    } else if ClassifiedPayload(c, service, scans[scanId].result).Err? {
      var e := ClassifiedPayload(c, service, scans[scanId].result).error;
      assert c.loads(r.classification) == Ok(ErrorPayload(e));
    }
  }

  /** A Scan that is still running holds the empty result, which does not
      decode, so its Report fails. */
  lemma RunningScanFailsReport(report: Report, scans: map<int, Scan>, scanId: int, c: Codecs, service: Service)
    requires Lawful(c)
    requires scanId in scans && scans[scanId].result == ""
    ensures Concluded(report, scans, scanId, c, service).status == Failed
  {
    DecodeEmptyFails(c);
  }

  /** A Scan result without a `posts` key completes the Report with an
      empty list of verdicts. */
  lemma NoPostsCompletesEmpty(report: Report, scans: map<int, Scan>, scanId: int, c: Codecs, service: Service,
                              fields: map<string, Json>)
    requires Lawful(c)
    requires "posts" !in fields
    requires scanId in scans && scans[scanId].result == Encode(c, JObj(fields))
    ensures var r := Concluded(report, scans, scanId, c, service);
      r.status == Completed && r.classification == c.dumps(JObj(map["posts" := JArr([])]))
  {
    DecodeEncode(c, JObj(fields));
  }

  /** `run_classification(report_id, scan_id, ...)`: an unknown Report is
      left alone; otherwise that Report alone is settled. */
  method RunClassification(db: Database, reportId: int, scanId: int, c: Codecs, service: Service)
    modifies db
    ensures reportId !in old(db.reports) ==> db.reports == old(db.reports)
    ensures reportId in old(db.reports) ==>
      db.reports == old(db.reports)[reportId := Concluded(old(db.reports)[reportId], old(db.scans), scanId, c, service)]
    ensures db.scans == old(db.scans)
    ensures db.nextScanId == old(db.nextScanId) && db.nextReportId == old(db.nextReportId)
    ensures old(db.Valid()) ==> db.Valid()
  {
    if reportId !in db.reports {
      return;
    }
    var report := db.reports[reportId];
    var scan := GetScan(db, scanId);
    if scan.None? {
      db.reports := db.reports[reportId := report.(status := Failed, classification := c.dumps(ErrorPayload(ScanNotFound)))];
      return;
    }
    var result := ClassifyPosts(c, service, scan.value);
    match result {
      case Ok(payload) =>
        db.reports := db.reports[reportId := report.(status := Completed, classification := c.dumps(payload))];
      case Err(e) =>
        db.reports := db.reports[reportId := report.(status := Failed, classification := c.dumps(ErrorPayload(e)))];
    }
  }

  /** `start_classification_endpoint`: 404 "Scan not found" and no insert
      when the Scan is missing; otherwise a running Report for that Scan,
      named after it, under a fresh id. */
  method StartClassification(db: Database, scanId: int, now: int) returns (r: Result<int>)
    requires db.Valid()
    modifies db
    ensures db.Valid()
    ensures scanId !in old(db.scans) ==> r == Err(ScanNotFound) && db.reports == old(db.reports)
    ensures scanId in old(db.scans) ==> (r.Ok? && r.value !in old(db.reports)
      && db.reports == old(db.reports)[r.value := Report(scanId, old(db.scans)[scanId].name, now, Running, "")])
    ensures r.Ok? ==> GetReport(db, r.value) == Ok("")
    ensures r.Err? ==> db.nextReportId == old(db.nextReportId)
    ensures r.Ok? ==> r.value == old(db.nextReportId) && db.nextReportId == old(db.nextReportId) + 1
    ensures db.scans == old(db.scans) && db.nextScanId == old(db.nextScanId)
  {
    var scan := GetScan(db, scanId);
    if scan.None? {
      return Err(ScanNotFound);
    }
    var id := db.nextReportId;
    db.reports := db.reports[id := Report(scanId, scan.value.name, now, Running, "")];
    db.nextReportId := db.nextReportId + 1;
    r := Ok(id);
  }

  /** `get_report(report_id)`: the Report's classification, or 404
      "Report not found". */
  function GetReport(db: Database, id: int): (r: Result<string>)
    reads db
    ensures r.Ok? <==> id in db.reports
    ensures r.Ok? ==> r.value == db.reports[id].classification
    ensures r.Err? ==> r.error == ReportNotFound
  {
    if id in db.reports then Ok(db.reports[id].classification) else Err(ReportNotFound)
  }
}
