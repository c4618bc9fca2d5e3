/** The local preview script: the same selection against the dedup store,
    but the content prefers a scraped copy of the article and is stripped,
    a failed summary call yields a placeholder, and the HTML digest opens
    with a table of contents whose links target sequentially numbered
    sections. */
module TestLocal {
  import opened Wrappers
  import opened Text
  import opened Feeds
  import opened Selection
  import Html

  /** What stands in the summary slot when the summary call fails. */
  const Unavailable: string := "Summary unavailable"

  /** The summary kept for an article from the reply of the summary call:
      the placeholder when the call failed (`None`), otherwise the reply
      stripped, which is empty only when the reply was all whitespace. */
  function SummaryText(reply: Option<string>): (r: string)
    ensures reply.None? ==> r == Unavailable
    ensures reply.Some? ==> r == Strip(reply.value)
    ensures reply.Some? ==> Stripped(r) && (r == "" <==> AllSpace(reply.value))
  {
    match reply
    case Some(text) => Strip(text)
    case None => Unavailable
  }

  /** A reply is kept as one contiguous piece of its text, with only
      whitespace cut off on either side: the summary is the reply itself,
      not some other stripped text. */
  lemma SummaryFromReply(text: string)
    ensures exists i ::
              0 <= i <= |text| - |SummaryText(Some(text))|
              && SummaryText(Some(text)) == text[i..i + |SummaryText(Some(text))|]
              && AllSpace(text[..i])
              && AllSpace(text[i + |SummaryText(Some(text))|..])
  {
    StripTrims(text);
  }

  /** The feed-native content is looked up only when the scrape gave no
      non-empty text, so only then must the entry's content list be
      readable. */
  predicate ContentReachable(e: FeedEntry, scraped: Option<string>)
  {
    (scraped.Some? && scraped.value != "") || ContentReadable(e)
  }

  /** The item's content can be computed: its scrape gave text, or its
      content list is readable. */
  predicate Fetchable(it: Item, scrape: string -> Option<string>)
  {
    ContentReachable(it.entry, scrape(it.entry.link))
  }

  /** The content kept for an entry: a non-empty scrape result wins over the
      feed's own fields; without one the summary, description, first
      content value, "" order applies; what is kept is always free of
      surrounding whitespace. */
  function FullContent(e: FeedEntry, scraped: Option<string>): (r: string)
    requires ContentReachable(e, scraped)
    ensures Stripped(r)
    ensures scraped.Some? && scraped.value != "" ==> r == Strip(scraped.value)
    ensures scraped.None? || scraped.value == "" ==> r == Strip(FeedContent(e))
  {
    var full := if scraped.Some? && scraped.value != "" then scraped.value else FeedContent(e);
    if full != "" then Strip(full) else ""
  }

  /** The record appended for a picked entry. `scrape` stands for the page
      scrape of the entry's link and `summarize` for the summary call on the
      title and the kept content. */
  function MakeArticle(it: Item, scrape: string -> Option<string>,
                       summarize: (string, string) -> Option<string>): (r: Article)
    requires Fetchable(it, scrape)
    ensures r.id == EntryId(it.entry) && r.title == it.entry.title && r.link == it.entry.link
    ensures r.content == FullContent(it.entry, scrape(it.entry.link))
    ensures r.summary == SummaryText(summarize(it.entry.title, r.content))
    ensures r.source == it.source
  {
    var content := FullContent(it.entry, scrape(it.entry.link));
    Article(EntryId(it.entry), it.entry.title, it.entry.link,
            SummaryText(summarize(it.entry.title, content)), content, it.source)
  }

  /** Every entry the run picks has content that can be computed. */
  predicate PicksFetchable(items: seq<Item>, store: map<string, int>, now: Time, stamp: int,
                           scrape: string -> Option<string>)
  {
    forall k :: 0 <= k < |items| && k in Select(items, |items|, store, now, stamp).picks
                ==> Fetchable(items[k], scrape)
  }

  /** `entries` holds, in order, the article of each position in `picks`. */
  predicate Built(entries: seq<Article>, all: seq<Item>, picks: seq<nat>,
                  scrape: string -> Option<string>, summarize: (string, string) -> Option<string>)
  {
    |entries| == |picks|
    && forall k :: 0 <= k < |picks| ==>
         picks[k] < |all| && Fetchable(all[picks[k]], scrape)
         && entries[k] == MakeArticle(all[picks[k]], scrape, summarize)
  }

  /** The selection loop over the fetched feeds (`feeds[i]` is the parse of
      the i-th kept URL). `store` is the loaded dedup store; the returned
      store is the one saved afterwards. `now` is the clock at the start of
      the run, rounded up to the second (see `CutoffExact`), and `stamp` the
      time written for each picked id. */
  method FetchNewEntries(feeds: seq<Feed>, store: map<string, int>, now: Time, stamp: int,
                         scrape: string -> Option<string>,
                         summarize: (string, string) -> Option<string>)
    returns (entries: seq<Article>, sentItems: map<string, int>)
    requires PicksFetchable(Flatten(feeds), store, now, stamp, scrape)
    ensures var items := Flatten(feeds);
            var s := Select(items, |items|, store, now, stamp);
            sentItems == s.sent && |entries| == |s.picks|
            && forall k :: 0 <= k < |entries| ==> entries[k] == MakeArticle(items[s.picks[k]], scrape, summarize)
  {
    ghost var all := Flatten(feeds);
    ghost var picks: seq<nat> := [];
    ghost var pos := 0;
    entries := [];
    sentItems := store;
    var i := 0;
    while i < |feeds|
      invariant 0 <= i <= |feeds|
      invariant pos == |FlattenUpTo(feeds, i)| <= |all|
      invariant Select(all, pos, store, now, stamp) == Selection(picks, sentItems)
      invariant Built(entries, all, picks, scrape, summarize)
    {
      FlattenAt(feeds, all, i, pos);
      entries, sentItems, picks := ScanFeed(feeds[i], all, pos, store, now, stamp,
                                            scrape, summarize, entries, sentItems, picks);
      pos := pos + |feeds[i].entries|;
      i := i + 1;
    }
  }

  /** The inner loop: the entries of one feed in feed order, checked
      against the entries and store built so far. `all` is every entry of
      every feed and `base` the position of this feed's first entry in it. */
  method ScanFeed(feed: Feed, ghost all: seq<Item>, ghost base: nat, store: map<string, int>,
                  now: Time, stamp: int, scrape: string -> Option<string>,
                  summarize: (string, string) -> Option<string>,
                  entries0: seq<Article>, sent0: map<string, int>, ghost picks0: seq<nat>)
    returns (entries: seq<Article>, sentItems: map<string, int>, ghost picks: seq<nat>)
    requires base + |feed.entries| <= |all|
    requires forall j :: 0 <= j < |feed.entries| ==> all[base + j] == Item(feed.title, feed.entries[j])
    requires PicksFetchable(all, store, now, stamp, scrape)
    requires Select(all, base, store, now, stamp) == Selection(picks0, sent0)
    requires Built(entries0, all, picks0, scrape, summarize)
    ensures Select(all, base + |feed.entries|, store, now, stamp) == Selection(picks, sentItems)
    ensures Built(entries, all, picks, scrape, summarize)
  {
    var cutoff := now - Day;
    entries, sentItems, picks := entries0, sent0, picks0;
    var j := 0;
    ghost var pos := base;
    while j < |feed.entries|
      invariant 0 <= j <= |feed.entries| && pos == base + j
      invariant Select(all, pos, store, now, stamp) == Selection(picks, sentItems)
      invariant Built(entries, all, picks, scrape, summarize)
    {
      assert all[pos] == Item(feed.title, feed.entries[j]);
      entries, sentItems, picks := VisitEntry(feed.entries[j], feed.title, all, pos, store, now, cutoff,
                                              stamp, scrape, summarize, entries, sentItems, picks);
      j := j + 1;
      pos := pos + 1;
    }
  }

  /** The body of the inner loop for the entry at position `pos` of `all`:
      skipped when its id is already stored or it was published before the
      cutoff, otherwise its article is appended and its id stored. */
  method VisitEntry(entry: FeedEntry, source: string, ghost all: seq<Item>, ghost pos: nat,
                    store: map<string, int>, now: Time, cutoff: Time, stamp: int,
                    scrape: string -> Option<string>, summarize: (string, string) -> Option<string>,
                    entries0: seq<Article>, sent0: map<string, int>, ghost picks0: seq<nat>)
    returns (entries: seq<Article>, sentItems: map<string, int>, ghost picks: seq<nat>)
    requires pos < |all| && all[pos] == Item(source, entry) && cutoff == now - Day
    requires PicksFetchable(all, store, now, stamp, scrape)
    requires Select(all, pos, store, now, stamp) == Selection(picks0, sent0)
    requires Built(entries0, all, picks0, scrape, summarize)
    ensures Select(all, pos + 1, store, now, stamp) == Selection(picks, sentItems)
    ensures Built(entries, all, picks, scrape, summarize)
  {
    SelectStep(all, pos, store, now, stamp);
    entries, sentItems, picks := entries0, sent0, picks0;
    var entryId := EntryId(entry);
    if entryId !in sentItems {
      var pubDate := PublishedAt(entry, now);
      if pubDate >= cutoff {
        PickedStays(all, pos, store, now, stamp);
        var fullContent := FullContent(entry, scrape(entry.link));
        var summary := SummaryText(summarize(entry.title, fullContent));
        entries := entries + [Article(entryId, entry.title, entry.link, summary, fullContent, source)];
        sentItems := sentItems[entryId := stamp];
        picks := picks + [pos];
        assert entries[|entries| - 1] == MakeArticle(all[pos], scrape, summarize);
      }
    }
  }

  /** The id of the `i`-th section (counting from 1); it never holds a
      double quote, so a link to it is read back whole. */
  function Anchor(i: nat): (r: string)
    ensures '"' !in r
  {
    AnchorText(i);
    "article" + Decimal(i)
  }

  lemma AnchorText(i: nat)
    ensures '"' !in "article" + Decimal(i)
  {
    var p, r := "article", "article" + Decimal(i);
    forall k | 0 <= k < |r|
      ensures r[k] != '"'
    {
      if k >= |p| {
        assert r[k] == Decimal(i)[k - |p|];
      }
    }
  }

  /** Different positions get different section ids. */
  lemma AnchorInjective(i: nat, j: nat)
    ensures Anchor(i) == Anchor(j) ==> i == j
  {
    var p := "article";
    if Anchor(i) == Anchor(j) {
      assert Decimal(i) == Anchor(i)[|p|..] == Anchor(j)[|p|..] == Decimal(j);
      DecimalInjective(i, j);
    }
  }

  const TocOpen: string := "<h2>Table of Contents</h2><ol>"
  const TocClose: string := "</ol><mbp:pagebreak/>"

  /** How a table-of-contents entry and a section open. */
  const TocHref: string := "<li><a href=\"#"
  const SectionOpening: string := "\n<mbp:pagebreak/>\n<div id=\""

  /** The `i`-th table-of-contents entry, linking to the `i`-th section. */
  function TocItem(i: nat, a: Article): (r: string)
    ensures "<li>" <= r
    ensures Html.AttrAfter(TocHref, r) == Some(Anchor(i))
  {
    Html.AttrReadsBack(TocHref, Anchor(i), TocTail(a));
    TocHref + Anchor(i) + TocTail(a)
  }

  function TocTail(a: Article): (t: string)
    ensures t != [] && t[0] == '"'
  {
    "\">" + a.title + "</a></li>"
  }

  /** One table-of-contents entry per article, numbered from 1 in input order. */
  function TocItems(entries: seq<Article>): seq<string>
  {
    seq(|entries|, k requires 0 <= k < |entries| => TocItem(k + 1, entries[k]))
  }

  /** The table of contents: its heading and list opening, one item per
      entry, then the list is closed. */
  function Toc(entries: seq<Article>): (r: string)
    ensures TocOpen <= r
    ensures |r| >= |TocClose| && r[|r| - |TocClose|..] == TocClose
  {
    EndsWith(TocOpen + Concat(TocItems(entries)), TocClose);
    TocOpen + Concat(TocItems(entries)) + TocClose
  }

  /** The `i`-th section, carrying the id the `i`-th table-of-contents
      entry links to. */
  function Section(i: nat, a: Article): (r: string)
    ensures Html.AttrAfter(SectionOpening, r) == Some(Anchor(i))
  {
    Html.AttrReadsBack(SectionOpening, Anchor(i), SectionTail(a));
    SectionOpening + Anchor(i) + SectionTail(a)
  }

  function SectionTail(a: Article): (t: string)
    ensures t != [] && t[0] == '"'
  {
    "\"" + Concat([">\n<h2>", a.title, "</h2>\n",
                   "<p><strong>Source:</strong> ", a.source, "</p>\n",
                   "<div class=\"summary\">\n",
                   "<p><strong>AI Summary:</strong> ", a.summary, "</p>\n",
                   "</div>\n",
                   "<p><a href=\"", a.link, "\">View online</a></p>\n",
                   "<div class=\"full-text\">\n",
                   "<h3>Full Article</h3>\n",
                   a.content, "\n</div>\n</div>\n"])
  }

  /** One section per article, numbered from 1 in input order. */
  function Sections(entries: seq<Article>): seq<string>
  {
    seq(|entries|, k requires 0 <= k < |entries| => Section(k + 1, entries[k]))
  }

  /** The document after the head `head`: the table of contents, one
      section per entry, then the closing tags. */
  function Page(head: string, entries: seq<Article>): (r: string)
    ensures head <= r
    ensures |r| >= |Html.Closing| && r[|r| - |Html.Closing|..] == Html.Closing
  {
    EndsWith(head + Toc(entries) + "\n" + Concat(Sections(entries)), Html.Closing);
    head + Toc(entries) + "\n" + Concat(Sections(entries)) + Html.Closing
  }

  /** The first loop of the digest builder: the table-of-contents heading
      and list, one linked item per entry numbered from 1, closed list. */
  method BuildToc(entries: seq<Article>) returns (toc: string)
    ensures toc == Toc(entries)
  {
    ghost var items := TocItems(entries);
    toc := TocOpen;
    for i := 1 to |entries| + 1
      invariant toc == TocOpen + ConcatUpTo(items, i - 1)
    {
      Assoc(TocOpen, ConcatUpTo(items, i - 1), items[i - 1]);
      toc := toc + TocItem(i, entries[i - 1]);
    }
    toc := toc + TocClose;
  }

  /** Builds the document: preamble, table of contents, one section per
      entry numbered from 1, closing tags. */
  method CreateHtml(entries: seq<Article>, day: string, longDay: string) returns (html: string)
    ensures html == Page(Html.Preamble(day, longDay), entries)
  {
    var toc := BuildToc(entries);
    html := Html.Preamble(day, longDay) + toc + "\n";
    html := AppendSections(html, entries);
    html := html + Html.Closing;
  }

  /** The second loop of the digest builder: section `i` for the `i`-th
      entry, counting from 1. */
  method AppendSections(head: string, entries: seq<Article>) returns (html: string)
    ensures html == head + Concat(Sections(entries))
  {
    ghost var sections := Sections(entries);
    html := head;
    for i := 1 to |entries| + 1
      invariant html == head + ConcatUpTo(sections, i - 1)
    {
      Assoc(head, ConcatUpTo(sections, i - 1), sections[i - 1]);
      html := html + Section(i, entries[i - 1]);
    }
  }

  /** The `k`-th table-of-contents entry (from 0) is one list item linking
      to `#article{k+1}`, and the `k`-th section carries exactly that id:
      each link targets the section of the same article. */
  lemma TocTargetsSection(entries: seq<Article>, k: nat)
    requires k < |entries|
    ensures |TocItems(entries)| == |Sections(entries)| == |entries|
    ensures "<li>" <= TocItems(entries)[k]
    ensures Html.AttrAfter(TocHref, TocItems(entries)[k]) == Some(Anchor(k + 1))
    ensures Html.AttrAfter(SectionOpening, Sections(entries)[k]) == Some(Anchor(k + 1))
  {
    assert TocItems(entries)[k] == TocItem(k + 1, entries[k]);
    assert Sections(entries)[k] == Section(k + 1, entries[k]);
  }

  /** No two sections carry the same id, so no link is ambiguous. */
  lemma SectionIdsDistinct(entries: seq<Article>, a: nat, b: nat)
    requires a < b < |entries|
    ensures Html.AttrAfter(SectionOpening, Sections(entries)[a])
         != Html.AttrAfter(SectionOpening, Sections(entries)[b])
  {
    TocTargetsSection(entries, a);
    TocTargetsSection(entries, b);
    AnchorInjective(a + 1, b + 1);
  }

  /** The page is the head and table of contents, then the `k`-th section
      preceded by the sections before it and followed by those after it,
      then the closing tags. */
  lemma PageLayout(head: string, entries: seq<Article>, k: nat)
    requires k < |entries|
    ensures Page(head, entries)
            == head + Toc(entries) + "\n" + Concat(Sections(entries)[..k])
               + Section(k + 1, entries[k]) + Concat(Sections(entries)[k + 1..]) + Html.Closing
  {
    ConcatFramed(head + Toc(entries) + "\n", Sections(entries), Html.Closing, k);
  }
}
