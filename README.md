# rss-to-kindle, modelled in Dafny

rss-to-kindle is a small pair of Python scripts that turn a list of RSS/Atom
feeds into a daily HTML digest for a Kindle:

- `rss_to_kindle.py` reads the feed URLs from a file and parses every feed.
  It keeps each entry whose id is not yet in the dedup store (`sent_items`)
  and that was published within the last day. For each kept entry it asks a
  remote model for a summary, records the id in the store, and renders a
  flat digest. Each section of the digest is anchored by the first eight
  characters of the entry id.
- `test_local.py` is the local preview. It uses the same selection rule. It
  prefers a scraped copy of the article over the feed's own content, strips
  the content, and puts a placeholder in the summary slot when the summary
  call fails. Its digest opens with a table of contents whose links target
  sections numbered `article1`, `article2`, and so on.

The project models both scripts' core:

- parsing the feed-list lines;
- the nested selection loop with its dedup and one-day cutoff rules;
- the content and summary choices;
- the HTML builders.

The modules are:

- `Text`: `str.strip()`, decimal rendering, joining the fragments a `+=` loop
  builds, and reading a double-quoted attribute.
- `Feeds`: the entry and article records, the feed-line parse, the id,
  publish-time and content rules, and the visiting order of the nested loops.
- `Selection`: a functional specification of the selection loop, and what it
  guarantees.
- `Html`: the shared preamble, and how a browser reads an anchor or id
  attribute.
- `RssToKindle` and `TestLocal`: one module per script. Each has its loops as
  methods proved against the specification functions, and its digest layout
  lemmas.

The selection loop is specified by `Selection.Select`, a fold over all
entries of all feeds in visiting order. The fold returns the positions it
picked and the store it leaves behind. Each script's `FetchNewEntries` method
is proved to return exactly one article per picked position, in order, and
exactly that store. The lemmas in `Selection` then state what the rule
guarantees:

- an exact characterisation of which entries are picked;
- no duplicate ids;
- nothing already stored is picked or overwritten;
- every picked entry is within the cutoff.

Each digest builder is proved to return `Page(preamble, entries)`. Lemmas
about `Page` state its layout, its closing tags, and how its links resolve.

## Model

| member | source | states |
|---|---|---|
| Text.Strip | rss_to_kindle.py:40 | the stripped line has no whitespace at either end, and is empty exactly when the line is all whitespace |
| Text.StripTrims | rss_to_kindle.py:40 | what strip keeps is one contiguous piece of the line, and everything cut off on either side is whitespace |
| Text.StripStripped | test_local.py:116 | stripping an already stripped string leaves it unchanged |
| Text.Decimal | test_local.py:138 | the rendering of a section number is non-empty, all digits, and one character long exactly for numbers below ten |
| Text.DecimalInjective | test_local.py:156 | different section numbers render as different digit strings |
| Text.ConcatAppend | rss_to_kindle.py:85-98 | joining two runs of fragments equals joining each run and concatenating the results |
| Text.ConcatAt | rss_to_kindle.py:85-98 | fragment k of a join sits between the join of the fragments before it and the join of those after it |
| Feeds.Kept | rss_to_kindle.py:40 | a line contributes at most one URL; it contributes none exactly when it is all whitespace; otherwise it contributes its stripped text, which is non-empty |
| Feeds.FeedUrls | rss_to_kindle.py:39-40 | no more URLs are kept than there are lines |
| Feeds.UrlsClean | rss_to_kindle.py:39-40 | every kept URL is non-empty and has no surrounding whitespace |
| Feeds.UrlsKeep | rss_to_kindle.py:39-40 | every non-blank line's stripped text is among the kept URLs |
| Feeds.UrlsFrom | test_local.py:86-87 | every kept URL is the stripped text of some non-blank line |
| Feeds.FeedUrlsAppend | rss_to_kindle.py:39-40 | the URLs of two runs of lines read in sequence are those of the first run followed by those of the second: file order is kept |
| Feeds.FeedUrlsLine | test_local.py:86-87 | a single line yields nothing when blank and exactly its stripped text otherwise |
| Feeds.PublishedAt | rss_to_kindle.py:53 | the publish time is the parsed one when present, and the start-of-run clock otherwise |
| Feeds.EntryId | rss_to_kindle.py:49 | the dedup key is the entry's id when present, its link otherwise |
| Feeds.Stale | rss_to_kindle.py:53-55 | an entry is skipped as old exactly when it has a publish time that is more than a day before now; an entry without one is never old |
| Feeds.CutoffExact | rss_to_kindle.py:43-54 | comparing a whole-second publish time with the microsecond clock minus one day is the same as comparing it with the clock rounded up to the second minus one day, so `Stale` with the rounded-up clock is exact |
| Feeds.FeedContent | rss_to_kindle.py:57 | content is the summary, else the description, else the first content item's value, else the empty string |
| Feeds.FlattenAt | rss_to_kindle.py:46-48 | feed i's entries occupy the positions of the visiting order right after those of the earlier feeds, in feed order |
| Selection.Select | rss_to_kindle.py:42-71 | every picked position lies among the entries visited so far |
| Selection.Step | rss_to_kindle.py:49-68 | visiting an entry either changes nothing or appends its position and stores its id with the run's timestamp, and it does the latter exactly when the entry passes both skips; so the entry is fresh, its id was not stored, and no stored id is overwritten |
| Selection.SelectOrdered | rss_to_kindle.py:46-60 | the picked positions are strictly increasing, so the output keeps visiting order |
| Selection.SelectKeepsStore | rss_to_kindle.py:68 | every id in the loaded store stays, with its old value |
| Selection.SelectRecordsPicks | rss_to_kindle.py:68 | the saved store's keys are exactly the loaded keys plus the picked ids, and every new key maps to the run's timestamp |
| Selection.SelectExactly | rss_to_kindle.py:49-55 | an entry is picked if and only if it is not stale, its id was not in the loaded store, and no earlier picked entry has the same id |
| Selection.SelectExactlyLast | rss_to_kindle.py:49-55 | the same characterisation for the entry visited last |
| Selection.SelectDistinct | rss_to_kindle.py:50-51 | no id is picked twice, even across feeds, and no picked id was already stored |
| Selection.SelectRespectsCutoff | rss_to_kindle.py:54-55 | every picked entry was published within the last day, or has no publish time |
| Selection.StoredNeverPicked | test_local.py:101-102 | an entry whose id is already stored is never picked, however recent it is |
| Html.Preamble | rss_to_kindle.py:74-84 | no contract of its own: the head both digests open with, with the two dates as parameters; each builder's postcondition puts it first |
| Html.AttrAfter | rss_to_kindle.py:93-94 | an attribute is read exactly when the markup starts with the opening, and the value read holds no double quote |
| Html.AttrReadsBack | test_local.py:156 | a quote-free value written after an opening and closed by a quote is read back unchanged |
| Html.AttrReadsAlike | rss_to_kindle.py:93-94 | the same value written after two openings is read the same in both places |
| RssToKindle.MakeArticle | rss_to_kindle.py:57-67 | the record carries the entry's id, title and link, the feed-native content, the summary of the title and that content, and the feed's title |
| RssToKindle.FetchNewEntries | rss_to_kindle.py:42-71 | the returned entries are, in order, the articles of the positions Select picks over all feeds' entries, and the returned store is the store Select leaves behind |
| RssToKindle.ScanFeed | rss_to_kindle.py:48-68 | scanning one feed advances the selection over exactly that feed's entries and keeps one article per picked position |
| RssToKindle.VisitEntry | rss_to_kindle.py:49-68 | one loop iteration advances the selection by one entry and appends the article exactly when the entry is picked |
| RssToKindle.ShortAnchor | rss_to_kindle.py:93-94 | the anchor is the id's prefix of length eight, or the whole id when it is shorter |
| RssToKindle.Section | rss_to_kindle.py:86-98 | every section opens with its own horizontal rule |
| RssToKindle.Page | rss_to_kindle.py:73-100 | the document starts with the given head and ends with the closing body and html tags |
| RssToKindle.CreateHtml | rss_to_kindle.py:73-100 | the document is the preamble, then one section per entry in order, then the closing tags |
| RssToKindle.AppendSections | rss_to_kindle.py:85-98 | the loop appends exactly the join of the entries' sections, in entry order |
| RssToKindle.PageLayout | rss_to_kindle.py:85-99 | entry k's section sits after the sections of the entries before it and before those of the entries after it |
| RssToKindle.AnchorsPair | rss_to_kindle.py:93-94 | each section's "Read full text below" link targets the same value its full-text block carries as id, and that value is the id's eight-character prefix when the prefix has no quote |
| RssToKindle.UrlIdsShareAnchor | rss_to_kindle.py:93-94 | any two entries whose ids start with "https://" get the same anchor and links to the same target |
| TestLocal.SummaryText | test_local.py:19-38 | a failed summary call yields "Summary unavailable"; a reply yields its stripped text (`Strip` of the reply), which is empty only when the reply was all whitespace |
| TestLocal.SummaryFromReply | test_local.py:33-34 | the summary kept from a reply is one contiguous piece of the reply with only whitespace cut off on either side, so it is exactly the reply's `str.strip()` |
| TestLocal.FullContent | test_local.py:110-116 | a non-empty scrape result wins over the feed's own fields; otherwise the feed-native order applies; the kept content is stripped |
| TestLocal.MakeArticle | test_local.py:111-128 | the record carries the entry's id, title and link, the kept content, the summary text of the title and that content, and the feed's title |
| TestLocal.FetchNewEntries | test_local.py:85-133 | the returned entries are, in order, the articles of the positions Select picks (scraped or feed content, summary or placeholder), and the returned store is the store Select leaves behind |
| TestLocal.ScanFeed | test_local.py:99-129 | scanning one feed advances the selection over exactly that feed's entries and keeps one article per picked position |
| TestLocal.VisitEntry | test_local.py:100-129 | one loop iteration advances the selection by one entry and appends the article exactly when the entry is picked |
| TestLocal.Anchor | test_local.py:138 | a section id never holds a double quote |
| TestLocal.AnchorInjective | test_local.py:156 | different section numbers give different ids |
| TestLocal.TocItem | test_local.py:137-138 | the i-th table-of-contents item is a list item whose link reads back as the i-th section id |
| TestLocal.Toc | test_local.py:136-139 | the table of contents opens with its heading and list and ends with the tag that closes the list and the page break |
| TestLocal.Section | test_local.py:153-168 | the i-th section's id reads back as the i-th section id |
| TestLocal.Page | test_local.py:141-169 | the document starts with the given head and ends with the closing body and html tags |
| TestLocal.BuildToc | test_local.py:136-139 | the table of contents is its heading, one linked item per entry numbered from 1 in order, then the closed list |
| TestLocal.CreateHtml | test_local.py:135-170 | the document is the preamble, the table of contents, one numbered section per entry in order, then the closing tags |
| TestLocal.AppendSections | test_local.py:153-168 | the loop appends exactly the join of the numbered sections, in entry order |
| TestLocal.TocTargetsSection | test_local.py:137-156 | the k-th table-of-contents item is a list item linking to article{k+1}, and the k-th section carries exactly that id |
| TestLocal.SectionIdsDistinct | test_local.py:153-156 | no two sections carry the same id |
| TestLocal.PageLayout | test_local.py:141-169 | the k-th section sits after the table of contents and the earlier sections, and before the later sections and the closing tags |

## Left out

- Reading `feeds.txt` is not modelled. The model starts from the file's lines, and splitting the text into lines is left out.
- Fetching and parsing each feed with `feedparser` is not modelled. The parsed feeds are a parameter, and `feeds[i]` stands for the parse of the i-th kept URL.
- Loading and saving `sent_items.json` is not modelled. The loaded store is a parameter, and the saved store is a result.
- `send_to_kindle` (SMTP), the `__main__` blocks and every `print` are not modelled.
- The remote summary call (`get_summary`, its prompt and its `content[:3000]` truncation) is a function parameter. In `rss_to_kindle.py` it is a total function: an exception raised there aborts the whole run, and the model does not cover that.
- The page scrape is a function parameter that returns an optional string. `scrape_article` is called at test_local.py:111, but `test_local.py` never defines it. Its body sits, unreachable, after `get_summary`'s return at test_local.py:39-83. The model takes the scraper that was evidently intended, and does not model the name error the file raises as written.
- The clock is a set of parameters: `now` for the cutoff, `day` and `longDay` for the preamble, and `stamp` for the stored timestamps. `now` is the start-of-run clock rounded up to the whole second. `Feeds.CutoffExact` shows that this makes the one-day comparison exact against the source's microsecond clock.
- The publish time is compared with `now` on a single timeline. The parser's time is UTC and `datetime.now()` is local time, so the model leaves that offset out.
- The model requires `title` and `link` on every entry, and a title on every feed. The source reads `link` for every entry it visits, because the default of the id lookup is evaluated even when the id is present (rss_to_kindle.py:49, test_local.py:99), so a missing link always fails. It reads an entry's `title` and its feed's `title` only for picked entries (rss_to_kindle.py:58,62,66; test_local.py:108,119,123,127), so a skipped entry without them does not fail there. The model loses nothing observable by requiring them everywhere, because a skipped entry's title is never read.
- RssToKindle.FetchNewEntries: every picked id is stored with one `stamp`. The source reads the clock again for each entry. The model requires the content list of every picked entry to be absent or non-empty. The source evaluates `entry.get('content', [{}])[0]` for every entry that passes both skips, even when it does not use the value, and raises IndexError on an empty list. Skipped entries may have any content list.
- TestLocal.FetchNewEntries: the same single `stamp`. The content-list requirement applies only to picked entries whose scrape gave no non-empty text, because only those reach the lookup at test_local.py:114.
- The HTML builders insert titles, summaries, links and content unescaped. No claim is made that the digest is well-formed HTML. The layout lemmas speak of the fragments the builders emit.
- The nested loops are split into methods: `FetchNewEntries` over feeds, `ScanFeed` over one feed's entries, and `VisitEntry` for one entry. Each HTML loop is its own method (`AppendSections`, `BuildToc`). The page function takes the preamble as an argument `head`.

## Findings

| source | as written | input that shows it | evidently intended | confidence | as-written member | corrected member |
|---|---|---|---|---|---|---|
| rss_to_kindle.py:93-94 | a section's anchor and its link target are the first eight characters of the entry id | two entries with ids `https://a.example/1` and `https://b.example/2`: both sections get id `https://`, so every "Read full text below" link jumps to the first of them | one distinct anchor per section, as test_local.py:153-156 does with its sequential `article{i}` ids | high; not executed | RssToKindle.UrlIdsShareAnchor | TestLocal.SectionIdsDistinct |
