/** `run_scan(scan_id)` of app/routers/scans_router.py, the background
    task that runs the legacy scraper and settles the Scan with its outcome. */
module ScansRouter {
  import opened Outcomes
  import opened Envelope
  import opened Markup
  import opened Store
  import opened ScanStore
  import LegacyScraper

  /** The one update `run_scan` makes to a Scan: completed with the
      scraper's envelope, or failed with its result left as it was. */
  function Settled(scan: Scan, outcome: Result<string>): (s: Scan)
    ensures s.name == scan.name && s.timestamp == scan.timestamp
    ensures s.status != Running
    ensures outcome.Ok? <==> s.status == Completed
    ensures outcome.Ok? ==> s.result == outcome.value
    ensures outcome.Err? ==> s.status == Failed && s.result == scan.result
  {
    match outcome
    case Ok(result) => scan.(status := Completed, result := result)
    case Err(_) => scan.(status := Failed)
  }

  /** Settling keeps a Scan well formed; a Scan settled while running and
      then failing still holds the empty result. */
  lemma SettledWellformed(scan: Scan, outcome: Result<string>)
    requires scan.Wellformed()
    ensures Settled(scan, outcome).Wellformed()
    ensures scan.status == Running && outcome.Err? ==> Settled(scan, outcome).result == ""
  {
  }

  /** A completed Scan's result opens to the `{"posts": [...]}` payload of
      the listing's rows. */
  lemma CompletedResultOpens(c: Codecs, scan: Scan, response: Result<ListingPage>)
    requires Lawful(c)
    requires Settled(scan, LegacyScraper.Scraped(c, response)).status == Completed
    ensures response.Ok? && ListingRows(response.value).Ok?
    ensures LegacyScraper.ExtractPosts(ListingRows(response.value).value).Ok?
    ensures Decode(c, Settled(scan, LegacyScraper.Scraped(c, response)).result) ==
      Ok(LegacyScraper.Payload(LegacyScraper.ExtractPosts(ListingRows(response.value).value).value))
  {
    var posts := LegacyScraper.ExtractPosts(ListingRows(response.value).value).value;
    DecodeEncode(c, LegacyScraper.Payload(posts));
  }

  /** `run_scan(scan_id)`, with the listing GET's response as a parameter:
      the scrape runs first; then the Scan, if it still exists, is settled
      with its outcome, and nothing else changes. */
  method RunScan(db: Database, scanId: int, c: Codecs, response: Result<ListingPage>)
    modifies db
    ensures scanId in old(db.scans) ==>
      db.scans == old(db.scans)[scanId := Settled(old(db.scans)[scanId], LegacyScraper.Scraped(c, response))]
    ensures scanId !in old(db.scans) ==> db.scans == old(db.scans)
    ensures db.reports == old(db.reports)
    ensures db.nextScanId == old(db.nextScanId) && db.nextReportId == old(db.nextReportId)
    ensures old(db.Valid()) ==> db.Valid()
  {
    var outcome := LegacyScraper.ScrapePosts(c, response);
    match outcome {
      case Ok(result) =>
        var found := GetScan(db, scanId);
        if found.None? {
          return;
        }
        db.scans := db.scans[scanId := found.value.(status := Completed, result := result)];
      case Err(_) =>
        var found := GetScan(db, scanId);
        if found.Some? {
          db.scans := db.scans[scanId := found.value.(status := Failed)];
        }
    }
  }
}
