# minimal_scraper, modelled in Dafny

minimal_scraper is a small FastAPI application with two background jobs and two dataset scripts:

- **Scans** are collection jobs. `POST /scans/create-scan` stores a *running* Scan and starts `run_scan`. That task scrapes a marketplace listing: one post per three-cell table row. It stores the base64 envelope of `{"posts": [...]}` and marks the Scan *completed*, or it marks the Scan *failed*.
- **Reports** are classification jobs over one Scan. `POST /claude/start-classification` checks that the Scan exists and stores a running Report named after it. It then starts `run_classification`. That task opens the Scan's envelope and classifies each post with `claude_classify`: fill a prompt template, ask the model, cut the fenced JSON block out of the reply. The verdicts, or an `{"error": ...}` object, are stored as JSON text and the Report is settled.
- **Dataset scripts.** `text_to_csv.py` splits a text of posts on `---` into a one-column CSV. `combine_csvs.py` merges the three class files into one labelled table.

## Modules

- **The database.** `Store` holds the `Scan` and `Report` records and the `Database` class. Its fields are the two tables, as maps from id to record, and one id counter per table. A commit is an assignment to a table map. The class invariant `Valid` says four things:
  - both counters are at least 1;
  - ids lie below their counter;
  - every record is well formed: its status is one of the three, and a running record holds no payload;
  - every Report belongs to a stored Scan.
- **Scans.** `ScanStore` has `create_scan`, `get_scan` and `get_scans`. `app/routers/scans_router.py:34-55` and `app/services/scan_tracker.py:7-28` define these twice, line for line alike, so one set of members models both. `ScansRouter` is the `run_scan` task.
- **Reports.** `ClaudeRouter` holds `classify_posts`, `run_classification`, the start endpoint and `get_report`.
- **Scrapers.** `LegacyScraper` is `app/scraper/scraper.py`, the scraper `run_scan` actually calls. `Scraper` is `app/services/scraper.py`, which also fetches each post's page for its body. `Markup` describes the HTML they read, as values, plus the row loop they share (`Collect`).
- **The classifier.** `Classifier` is `app/services/claude.py`.
- **Dataset scripts.** `TextToCsv` and `CombineCsvs`.
- **Shared helpers.**
  - `Text` models the Python string operations used: `strip`, `rstrip`, `split`, `join`, `replace`, `index` and `in`.
  - `Envelope` holds the JSON values and the base64/JSON codecs.
  - `Outcomes` holds `Option` and `Result`.

### Values supplied as parameters

- The JSON and base64 library routines form a `Codecs` value. The predicate `Lawful` states the only facts the proofs use:
  - each decoder inverts its encoder;
  - base64 of the empty text is empty;
  - the empty text is not JSON.
- The listing GET's outcome is a parameter.
- Each detail-page GET is a parameter `fetch(i, link)`, for post number `i`.
- Each model call is a parameter. In `Classifier` it is `ask(prompt)`. In `ClaudeRouter` it is `service(i, content)`: the reply to the call for post number `i`, whose prompt is the template filled with `content`. `ClaudeRouter.ClassifiesWithClaudeClassify` shows that the two agree.
- Clock readings are plain integers.

Python exceptions are modelled as `Err` results that carry a message. A `try` block that catches them becomes a branch on that result.

### Behaviour of note

- **A failed scrape** marks the Scan *failed* and leaves its `result` as it was, the empty text. No error payload is stored (`app/routers/scans_router.py:68-72`).
- **Decoding failures** are not per-item data. A Scan result that does not decode, or a post whose `content` does not decode, makes the whole Report *failed* (`app/routers/claude_router.py:21-29,44-45,65-68`). A Report over a still-running Scan therefore always fails (`ClaudeRouter.RunningScanFailsReport`).
- **Relative links** are resolved in two ways:
  - against the text before the first `/marketplace` in the listing URL (`Scraper.BaseUrl`);
  - in the legacy scraper, against a fixed origin.
- **The scraper `run_scan` calls** (`app/routers/scans_router.py:7,61`) is the legacy one, whose posts have no `content` key. So every post of such a Scan is classified as the empty text (`ClaudeRouter.LegacyScanClassifiesEmptyText`). Classifying the bodies happens only for envelopes written by `app/services/scraper.py` (`ClaudeRouter.ServiceScrapeClassification`).

## Model

| member | source | states |
|---|---|---|
| Text.TrimMiddle | app/services/scraper.py:40 | A prefix of a suffix that drops only characters passing a test, and keeps none at its end, is a contiguous middle part with only such characters after it. |
| Text.StripSpec | datasets/text_to_csv.py:11 | `strip()` (`Text.Strip`, removing the characters of `str.isspace`, `Text.IsSpace`) keeps one contiguous middle part of its input. Everything removed before or after it is white space, and the result neither starts nor ends with white space. |
| Text.StripIdempotent | datasets/text_to_csv.py:11 | Stripping a stripped text changes nothing. |
| Text.TrimEnd | app/services/scraper.py:43 | `rstrip(c)` returns a prefix of its input. Only dropped characters are removed, and the result does not end with one. |
| Text.IndexFrom | app/services/claude.py:66-67 | `str.index(sub, start)` finds an occurrence at or after `start` with none between `start` and it. It fails exactly when there is no occurrence at or after `start`. |
| Text.Contains | app/routers/scans_router.py:52 | A substring test holds exactly when the text has an occurrence somewhere. |
| Text.SplitFirst | app/services/scraper.py:32 | The first piece of `s.split(sep)` is the text before the first separator, or the whole text when there is none. |
| Text.SplitJoin | datasets/text_to_csv.py:11 | Joining the pieces of a split with the separator gives back the text. |
| Text.SplitPiecesFree | datasets/text_to_csv.py:11 | No piece of a split contains the separator. |
| Text.SplitAround | datasets/text_to_csv.py:11 | A text with exactly one separator splits into the two sides. |
| Text.ReplaceAbsent | app/services/claude.py:53 | `replace` changes nothing when the target does not occur. |
| Text.ReplaceAround | app/services/claude.py:53 | `replace` on a text with one occurrence puts the replacement in its place. |
| Text.ReplaceRemovesChar | datasets/text_to_csv.py:22 | Replacing every occurrence of a character by text without it leaves none. |
| Envelope.Get | app/routers/claude_router.py:24 | `d.get(key, default)` is the stored value when the key is present, else the default. |
| Envelope.DecodeEncode | app/services/scraper.py:74-75 | Opening an envelope gives back the payload sealed in it. |
| Envelope.DecodeEmptyFails | app/routers/claude_router.py:22-23 | The empty result of a running Scan is not an envelope. |
| Envelope.PostsObject | app/services/scraper.py:74-75 | The posts are wrapped under the single key `posts`, one object per post, in order; the legacy scraper builds the same object at app/scraper/scraper.py:41. |
| Markup.FirstParagraph | app/services/scraper.py:54-60 | A body paragraph is found exactly when the `post-content` div, its `content` div and a `<p>` are all present. |
| Markup.ListingRows | app/services/scraper.py:27-35 | A missing table fails with "Table not found in HTML". The rows are available exactly when the table and its `tbody` exist. |
| Markup.KeptRows | app/services/scraper.py:36-38 | Only rows of exactly three cells are kept, and never more rows than the table has. |
| Markup.KeptRowsExtremes | app/services/scraper.py:36-38 | Other widths are skipped without error. All-three-cell tables are kept whole and in order; tables with no such row keep nothing. |
| Markup.KeptRowsAppend | app/services/scraper.py:35-38 | The rows kept from a table are those kept from its first part followed by those kept from the rest. With `Markup.KeptRowsOne`, every three-cell row is kept once, in table order, whatever rows surround it. |
| Markup.KeptRowsOne | app/services/scraper.py:36-38 | A single row is kept exactly when it has three cells. |
| Markup.CollectSpec | app/services/scraper.py:34-72 | The row loop succeeds exactly when every kept row yields a post. Post k is then made from the k-th kept row, in table order, and there are as many posts as kept rows. |
| Markup.CollectError | app/services/scraper.py:35-41 | A failing loop reports the error of the first kept row whose post cannot be made. |
| Markup.CollectErrorSticks | app/services/scraper.py:35-41 | Once the rows read so far fail, the whole loop fails with that same error. |
| LegacyScraper.ResolveLink | app/scraper/scraper.py:31-32 | A link starting with `/` is prefixed with the fixed `.onion` origin; any other link is kept. |
| LegacyScraper.PostOf | app/scraper/scraper.py:28-40 | A three-cell row yields a post exactly when its title cell has a link. |
| LegacyScraper.PostOfFields | app/scraper/scraper.py:28-40 | A post's title, category and date are the stripped texts of cells 0, 1 and 2. Its link is the resolved `href`. |
| LegacyScraper.PostJson | app/scraper/scraper.py:35-40 | A post object has exactly the keys title, category, date and link. |
| LegacyScraper.ExtractPostsSpec | app/scraper/scraper.py:23-40 | One post per three-cell row, in row order. The scrape succeeds exactly when every kept row has a link; otherwise the error is the missing-link one. |
| LegacyScraper.ScrapePosts | app/scraper/scraper.py:16-44 | The loop returns the envelope of the payload of the extracted posts, or the error of the listing GET, of the missing table or body, or of the first row without a link. |
| LegacyScraper.Scraped | app/scraper/scraper.py:16-44 | A failed listing GET is raised again. A page without table or body fails. Otherwise the scrape succeeds exactly when every three-cell row has a link, and fails with the missing-link error when one does not. |
| Scraper.BaseUrl | app/services/scraper.py:32 | The base is a prefix of the listing URL with no `/marketplace` in it. It is the whole URL, or it is followed by `/marketplace` in the URL. |
| Scraper.ResolveLink | app/services/scraper.py:42-43 | A link starting with `/` becomes the base without trailing slashes plus the link; any other link is kept. |
| Scraper.PostOf | app/services/scraper.py:39-72 | A three-cell row yields a post exactly when its title cell has a link, whatever its detail fetch does. |
| Scraper.PostOfFields | app/services/scraper.py:39-72 | Title, category and date are the stripped cell texts. The link is the resolved `href`, and the content comes from fetching that link. |
| Scraper.PostJson | app/services/scraper.py:66-72 | A post object has exactly the five keys, `content` holding the base64 body. |
| Scraper.ExtractPostsSpec | app/services/scraper.py:34-72 | One post per three-cell row, in row order. Success depends only on links, never on a detail fetch. Post k is made from the k-th kept row; its body comes from the k-th fetch, of its own resolved link. |
| Scraper.ContentOpens | app/services/scraper.py:48-64 | A post's content decodes to its body text: the placeholder `{"message": "Error fetching content"}` after a failed fetch, or the stripped first paragraph. |
| Scraper.BodyText | app/services/scraper.py:48-64 | A failed detail fetch gives the placeholder message. A fetched page gives the stripped text of its first body paragraph, or the empty text when the `post-content` div, the `content` div or the paragraph is missing. |
| Scraper.ContentB64 | app/services/scraper.py:48-64 | A post's `content` is the base64 of its body text. It is the empty text, not encoded, when a fetched page has no body paragraph. |
| Scraper.ReadBody | app/services/scraper.py:48-64 | The body step computes the content the specification function gives for that fetch outcome. |
| Scraper.ScrapePosts | app/services/scraper.py:23-78 | The loop returns the envelope of the payload of the extracted posts, or the whole-call error: listing GET, missing table or body, or a row without a link. |
| Scraper.Scraped | app/services/scraper.py:23-78 | A failed listing GET is raised again. A page without table or body fails. Otherwise the scrape succeeds exactly when every three-cell row has a link, and fails with the missing-link error when one does not. |
| Classifier.PromptSpec | app/services/claude.py:27-53 | `Classifier.Prompt`, the template's `replace("{{POST}}", post_content)`: the template is its marker-free pieces joined by `{{POST}}`. The prompt is those same pieces joined by the post, so every marker is replaced and none inside the post is touched. |
| Classifier.PromptFirstMarker | app/services/claude.py:27-53 | The template of claude.py, held character for character, contains `{{POST}}`. The prompt is the template up to its first marker, then the post, then the rest of the template with its markers replaced. |
| Classifier.ExtractFenced | app/services/claude.py:66-68 | Extraction succeeds exactly when the reply has a "```json\n" and a "\n```" at or after the newline of the first one. A failure is the error "substring not found". |
| Classifier.ExtractFencedSpec | app/services/claude.py:66-68 | The extracted slice starts 7 characters into an opening "```json\n" and ends where a "\n```" begins, so it begins with the fence's newline and never contains a closing fence. |
| Classifier.ExtractFencedAt | app/services/claude.py:66-68 | Given where the first opening fence and the first closing fence after it are found, the result is the text between them, from the newline on. |
| Classifier.OpenFenceFound | app/services/claude.py:66 | With no backquote before it, the first opening fence is found right where it was placed. |
| Classifier.CloseFenceFound | app/services/claude.py:67 | With no backquote in the body, the first closing fence after the opening one is the one right after the body. |
| Classifier.FencedSlice | app/services/claude.py:68 | The text between the two fences, from the opening fence's newline, is the newline followed by the body. |
| Classifier.ExtractFencedRoundTrip | app/services/claude.py:66-68 | A reply with one fenced block, with no backquote before it or inside it, yields that block's body after the newline. |
| Classifier.ErrorVerdict | app/services/claude.py:70-71 | The failure dictionary has keys error, classification and scores, the last two null. |
| Classifier.ClassifyReply | app/services/claude.py:64-71 | A failed call gives the error dictionary for the client's error, and a reply missing either fence gives it for "substring not found". Otherwise the fenced block's parse is returned unchanged, or, when it does not parse, the error dictionary for that parse error. |
| Classifier.ClaudeClassify | app/services/claude.py:27-71 | The model is asked with the filled template, and nothing is raised. A failed call gives the error dictionary for the client's error, and a reply missing either fence gives it for "substring not found". Otherwise the fenced block's parse is returned unchanged, or the error dictionary for the parse error. |
| Classifier.ClassifyFailures | app/services/claude.py:55-71 | A service error, a reply without an opening fence, or a reply without a closing fence after the opening one gives the error dictionary instead of raising. |
| Classifier.ClassifyFencedReply | app/services/claude.py:64-71 | A well-fenced reply yields exactly the object its block parses to. A block that does not parse yields the error dictionary. |
| Store.Database.constructor | app/models/database.py:12-18 | A new database is empty and satisfies the store invariant. |
| ScanStore.CreateScan | app/routers/scans_router.py:34-44 | Inserts `Scan(name, now, "running", "")` under an id not used before. Every other Scan and all Reports are unchanged, and the invariant is kept. |
| ScanStore.GetScan | app/routers/scans_router.py:46-47 | Returns the Scan with that id when there is one, else none. |
| ScanStore.Where | app/routers/scans_router.py:52-54 | A query filter keeps exactly the records that pass the test, unchanged. |
| ScanStore.GetScans | app/routers/scans_router.py:49-55 | A Scan is listed exactly when its name contains `name` and its status equals `status`, each test applied only when its argument is given and non-empty. |
| ScanStore.GetScansUnfiltered | app/services/scan_tracker.py:22-28 | With both filters absent or empty, every Scan is listed. |
| ScanStore.GetScansBoth | app/services/scan_tracker.py:22-28 | With both filters, the listing is the intersection of the two single-filter listings. |
| ScanStore.ScanListedUnderItself | app/routers/scans_router.py:49-55 | A stored Scan is listed when filtered by its own name and status. |
| ScansRouter.Settled | app/routers/scans_router.py:65-72 | The terminal update keeps name and time and leaves the Scan not running. It is completed exactly on scrape success, with the scraper's output; on failure it is failed with the result unchanged. |
| ScansRouter.SettledWellformed | app/routers/scans_router.py:60-72 | Settling keeps a Scan well formed; a running Scan that fails keeps its empty result. |
| ScansRouter.CompletedResultOpens | app/routers/scans_router.py:61-66 | A completed Scan's result opens to the `{"posts": [...]}` payload of the listing's rows. |
| ScansRouter.RunScan | app/routers/scans_router.py:58-74 | The task settles that one Scan with the scrape's outcome. An unknown id changes nothing, no other record or counter changes, and the invariant is kept. |
| ClaudeRouter.PostsOf | app/routers/claude_router.py:23-27 | A payload that is not a dictionary fails. Without a `posts` key there are no posts; a list under it gives its items. |
| ClaudeRouter.ItemContent | app/routers/claude_router.py:28-29 | A post's content is the base64 decoding of its `content` field, or of `''` when it has none. A non-dictionary post fails. |
| ClaudeRouter.Verdict | app/routers/claude_router.py:37-41 | A verdict has exactly the keys content, classification and scores, holding the decoded content and the copied values. |
| ClaudeRouter.ClassifyContent | app/routers/claude_router.py:30-41 | An item succeeds exactly when the classifier returns a dictionary for the reply to that post's call. Its verdict carries the decoded content, with classification and scores copied from that dictionary (null when absent). |
| ClaudeRouter.ServiceErrorGivesNullVerdict | app/routers/claude_router.py:30-41 | A failed model call does not fail the item: its verdict has the content with null classification and scores. |
| ClaudeRouter.Replies | app/routers/claude_router.py:30-36 | The reply the loop sees for post `i` is the model's `i`-th call made with that post's filled template. |
| ClaudeRouter.ClassifiesWithClaudeClassify | app/routers/claude_router.py:30-41 | An item is classified by `claude_classify` itself: it fails exactly when `ClaudeClassify` returns no dictionary, and otherwise its verdict copies that result's classification and scores. |
| ClaudeRouter.ClassifyItem | app/routers/claude_router.py:28-41 | A post whose content does not decode fails the item with that error. A successful item is a verdict with exactly the keys content, classification and scores, whose content is the decoded text. |
| ClaudeRouter.SequencedSpec | app/routers/claude_router.py:26-43 | The post loop succeeds exactly when every item does; then there is one result per post and result k is that of post k. |
| ClaudeRouter.SequencedError | app/routers/claude_router.py:27-45 | A failing loop reports the error of the first post whose item fails. |
| ClaudeRouter.SequencedErrorSticks | app/routers/claude_router.py:27-45 | Once the posts read so far fail, the whole loop fails with that error. |
| ClaudeRouter.ClassifyAllSpec | app/routers/claude_router.py:26-43 | One verdict per post, in order, when every post classifies; otherwise the error of the first failing post. |
| ClaudeRouter.ErrorPayload | app/routers/claude_router.py:65-68 | The failure payload is `{"error": message}` and nothing else. |
| ClaudeRouter.ClassifiedPayload | app/routers/claude_router.py:20-45 | Every failure carries the prefix "Classification failed: ", and a Scan result that does not decode fails. |
| ClaudeRouter.ClassifyOpenedPosts | app/routers/claude_router.py:20-43 | For an envelope of `{"posts": items}` whose contents decode to `texts`: success exactly when every text classifies, and then `{"posts": L}` with one verdict per post, in order, verdict k made from text k. |
| ClaudeRouter.LegacyScanClassifiesEmptyText | app/routers/claude_router.py:28-29 | Posts of a legacy-scraper Scan have no `content`, so each verdict's content is the empty text, one per post. |
| ClaudeRouter.LegacyItemsOpenEmpty | app/routers/claude_router.py:28-29 | Every legacy post object opens to the empty content. |
| ClaudeRouter.ServiceScanClassifiesBodies | app/routers/claude_router.py:27-43 | Posts written by the service scraper are classified on their decoded bodies, one verdict per post, in order. |
| ClaudeRouter.ServiceScrapeClassification | app/routers/claude_router.py:27-43 | End to end, verdict k of a service scrape carries the body text of post k's detail fetch. This is the placeholder text when that fetch failed. |
| ClaudeRouter.ScrapedBodiesOpen | app/services/scraper.py:48-71 | Each post of a successful service scrape opens to the body text of its own detail fetch. |
| ClaudeRouter.ClassifyPosts | app/routers/claude_router.py:20-45 | The loop returns exactly the classification payload of the Scan's result, or its prefixed error. |
| ClaudeRouter.Concluded | app/routers/claude_router.py:54-68 | The settled Report keeps its Scan, name and time and is completed or failed. A missing Scan fails it with `{"error": "Scan not found"}`; otherwise it is completed exactly when `classify_posts` succeeds. |
| ClaudeRouter.ConcludedParses | app/routers/claude_router.py:54-68 | A completed Report's classification parses to the `classify_posts` output; a failed one parses to an `{"error": ...}` object. |
| ClaudeRouter.RunningScanFailsReport | app/routers/claude_router.py:61-68 | A Report over a Scan that still holds the empty result fails. |
| ClaudeRouter.NoPostsCompletesEmpty | app/routers/claude_router.py:61-64 | A Scan payload without `posts` completes the Report with `{"posts": []}`. |
| ClaudeRouter.RunClassification | app/routers/claude_router.py:47-70 | An unknown Report changes nothing. Otherwise that Report alone is settled as `Concluded` states; Scans and counters are unchanged and the invariant is kept. |
| ClaudeRouter.StartClassification | app/routers/claude_router.py:78-91 | A missing Scan gives 404 "Scan not found" and changes neither the Reports nor their counter. Otherwise a running Report with that Scan's id and name and an empty classification is inserted under the counter's id, and the counter moves on by one. |
| ClaudeRouter.GetReport | app/routers/claude_router.py:107-112 | Returns the stored classification exactly when the Report exists, else "Report not found". |
| TextToCsv.KeptBy | datasets/text_to_csv.py:11 | The kept posts are no more than the pieces, and none is empty. |
| TextToCsv.KeptByAppend | datasets/text_to_csv.py:11 | The posts of a run of pieces are those of its first part followed by those of the rest. With `TextToCsv.KeptByOne`, every piece that does not clean to nothing gives one post, in order. |
| TextToCsv.KeptByOne | datasets/text_to_csv.py:11 | A single piece gives its cleaned text, or nothing when that is empty. |
| TextToCsv.Posts | datasets/text_to_csv.py:11 | There are no more posts than `---`-separated pieces, and no post is empty. |
| TextToCsv.KeptBySpec | datasets/text_to_csv.py:11 | A text is a post exactly when it is non-empty and some piece cleans to it. With an idempotent cleaning, each post is already clean. |
| TextToCsv.KeptByAll | datasets/text_to_csv.py:11 | When no piece cleans to nothing, post k is piece k cleaned. |
| TextToCsv.PostsSpec | datasets/text_to_csv.py:11 | No post is empty or has white space at either end, and every non-blank piece's stripped text is a post. |
| TextToCsv.PostsWithoutSeparator | datasets/text_to_csv.py:11 | A text without `---` is one post, or none when it is blank. |
| TextToCsv.Escape | datasets/text_to_csv.py:22 | An escaped post holds no newline, and a post without newlines is left as it is. |
| TextToCsv.EscapeSpec | datasets/text_to_csv.py:22 | Escaping replaces each newline of the post with a backslash and an `n`: the post is its newline-free pieces joined by newlines, and the escaped post is the same pieces joined by `\n`. |
| TextToCsv.RowsSpec | datasets/text_to_csv.py:19-23 | The output is the header `["text"]` and then exactly one row per post, in order, with no newline in any field. |
| TextToCsv.Rows | datasets/text_to_csv.py:19-23 | The output has one row more than there are posts, and its first row is the header `["text"]`. |
| TextToCsv.WriteRows | datasets/text_to_csv.py:19-23 | The writing loop produces exactly the rows the specification function gives. |
| TextToCsv.TextToCsv | datasets/text_to_csv.py:7-23 | The script's rows are those of the posts of the text. |
| CombineCsvs.Labelled | datasets/combine_csvs.py:29-34 | Each output row has two fields, the second being the file's label, and there are no more rows than records. |
| CombineCsvs.LabelledSpec | datasets/combine_csvs.py:29-34 | A row is produced exactly when it is `[text, label]` for a one-field record `[text]`; empty and multi-field records are skipped. |
| CombineCsvs.LabelledAll | datasets/combine_csvs.py:29-34 | When every record has one field, row k is record k's text with the label. |
| CombineCsvs.LabelledAppend | datasets/combine_csvs.py:29-34 | The rows of a run of records are those of its first part followed by those of the rest. With `CombineCsvs.LabelledOne`, every one-field record gives one row, in file order, whatever records are skipped around it. |
| CombineCsvs.LabelledOne | datasets/combine_csvs.py:29-34 | A record with exactly one field gives its text with the label; any other record gives nothing. |
| CombineCsvs.FileRows | datasets/combine_csvs.py:23-26 | An empty file, or one whose header is not `["text"]`, contributes no rows. |
| CombineCsvs.Contribution | datasets/combine_csvs.py:16-34 | A file that does not exist contributes nothing. An existing file contributes its rows for its label, each with two fields, the second being that label. |
| CombineCsvs.Collected | datasets/combine_csvs.py:16-34 | Every row collected from the input files, one file after another, has two fields. |
| CombineCsvs.CollectedInOrder | datasets/combine_csvs.py:5-19 | The files are read negative, positive, neutral, each contributing its own rows in order. A missing file contributes none and the others are still read. Every label is one of the three. |
| CombineCsvs.ReadFile | datasets/combine_csvs.py:21-34 | The loop over one file's rows yields no rows after a wrong header, and otherwise each one-field record paired with the label, in order. |
| CombineCsvs.Combine | datasets/combine_csvs.py:13-41 | The nested loops produce the header `["text", "label"]` followed by the collected rows. |
| CombineCsvs.LabelledColumn | datasets/combine_csvs.py:29-34 | A body of one-field records yields one row per record, in order, each the record's text with the label. |
| CombineCsvs.PipelineRows | datasets/combine_csvs.py:21-34 | A file written by text_to_csv and read back unchanged contributes one row per post, in order, each the escaped post with the file's label. |

## Left out

- **HTTP and HTML.** The `requests` calls, `raise_for_status`, proxies, headers, timeouts and BeautifulSoup parsing are not modelled, nor are the service scraper's progress and error prints (app/services/scraper.py:50 and :63). Their outcomes are inputs: a listing page or error, and per-post detail outcomes.
- **The Anthropic client call.** `app/services/claude.py:26,56-64` is an external service. Its reply text, or its error, is an input, and `model_name`, `temperature` and `max_tokens` are not modelled.
- **base64, UTF-8 and JSON.** These are library routines supplied as `Codecs`. Only the facts in `Envelope.Lawful` are relied on, and non-UTF-8 bytes are not modelled.
- **JSON numbers** are the decimals their literals write. Python parses a JSON number to a binary `float` or an `int`, and the rounding of a float is not modelled. Only the classifier's `scores` carry numbers, and the model passes them through unchanged.
- **Exception messages** are descriptive constants, not Python's exact `str(e)` texts. `FastAPI` turns the raised `HTTPException` into the text "500: Classification failed: ...", and that exact text is not reproduced.
- **Sessions and background dispatch.** SQLAlchemy sessions, `commit`, `refresh`, `close` and FastAPI background dispatch are not modelled: a commit is a map assignment, and each task runs to completion as one method call. Concurrency between tasks is not modelled.
- **Timestamps.** `datetime.utcnow()` is not modelled; a timestamp is an integer passed in.
- **ScanStore.GetScans:** the SQL `LIKE` behind `contains` is modelled as a case-sensitive substring test. SQLite's case-insensitive ASCII matching and the `%`/`_` wildcards are not.
- **ScanStore.GetScans:** returns a map from id to Scan. The row order of `query.all()` is not modelled.
- **`run_classification` when its own Report query raises.** The `except` block would then read an unbound variable; this path is not modelled.
- **The response models and endpoint wrappers** (`create_scan_endpoint`, `list_scans_endpoint`, the pydantic classes) are not modelled, beyond the functions they call.
- **`app/main.py`, `app/models/db_helper.py` and the session helper in `app/models/database.py`** are not modelled. The Report table is not declared in the database module; its fields are taken from its construction in `app/routers/claude_router.py:82-88`.
- **The dataset scripts' file I/O, CSV quoting and printing** are not modelled. A file is the list of records the CSV reader yields, and `CombineCsvs.PipelineRows` takes the writer-then-reader round trip as given.
- **The `__main__` blocks** of `app/services/scraper.py` and `app/services/claude.py` are not modelled.
- **Classifier.PromptSpec:** states the replacement through the template's split pieces. `Classifier.PromptFirstMarker` shows that the concrete template holds a marker, but no lemma states that it holds exactly one.
- **TextToCsv.PostsSpec:** states only one direction of post membership for `strip`. The exact "is a post iff some piece strips to it" is proved for any cleaning function in `TextToCsv.KeptBySpec`.
