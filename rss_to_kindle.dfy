/** The mailing script: selection of new entries against the dedup store,
    with the feed-native content, and the flat HTML digest whose sections
    are anchored by the first eight characters of the entry id. */
module RssToKindle {
  import opened Wrappers
  import opened Text
  import opened Feeds
  import opened Selection
  import Html

  /** The record appended for a picked entry: its content is the
      feed-native content, and `summarize` stands for the remote summary
      call on the title and that content. */
  function MakeArticle(it: Item, summarize: (string, string) -> string): (r: Article)
    requires ContentReadable(it.entry)
    ensures r.id == EntryId(it.entry) && r.title == it.entry.title && r.link == it.entry.link
    ensures r.content == FeedContent(it.entry) && r.summary == summarize(it.entry.title, r.content)
    ensures r.source == it.source
  {
    var content := FeedContent(it.entry);
    Article(EntryId(it.entry), it.entry.title, it.entry.link,
            summarize(it.entry.title, content), content, it.source)
  }

  /** Every entry the run picks has a readable content list. */
  predicate PicksReadable(items: seq<Item>, store: map<string, int>, now: Time, stamp: int)
  {
    forall k :: 0 <= k < |items| && k in Select(items, |items|, store, now, stamp).picks
                ==> ContentReadable(items[k].entry)
  }

  /** `entries` holds, in order, the article of each position in `picks`. */
  predicate Built(entries: seq<Article>, all: seq<Item>, picks: seq<nat>,
                  summarize: (string, string) -> string)
  {
    |entries| == |picks|
    && forall k :: 0 <= k < |picks| ==>
         picks[k] < |all| && ContentReadable(all[picks[k]].entry)
         && entries[k] == MakeArticle(all[picks[k]], summarize)
  }

  /** The selection loop over the fetched feeds (`feeds[i]` is the parse of
      the i-th kept URL). `store` is the loaded dedup store; the returned
      store is the one saved afterwards. `now` is the clock at the start of
      the run, rounded up to the second (see `CutoffExact`), and `stamp` the
      time written for each picked id. */
  method FetchNewEntries(feeds: seq<Feed>, store: map<string, int>, now: Time, stamp: int,
                         summarize: (string, string) -> string)
    returns (entries: seq<Article>, sentItems: map<string, int>)
    requires PicksReadable(Flatten(feeds), store, now, stamp)
    ensures var items := Flatten(feeds);
            var s := Select(items, |items|, store, now, stamp);
            sentItems == s.sent && |entries| == |s.picks|
            && forall k :: 0 <= k < |entries| ==> entries[k] == MakeArticle(items[s.picks[k]], summarize)
  {
    ghost var all := Flatten(feeds);
    ghost var picks: seq<nat> := [];
    ghost var pos := 0;
    entries := [];
    sentItems := store;
    var i := 0;
    while i < |feeds|
      invariant 0 <= i <= |feeds|
      invariant pos == |FlattenUpTo(feeds, i)| <= |all|
      invariant Select(all, pos, store, now, stamp) == Selection(picks, sentItems)
      invariant Built(entries, all, picks, summarize)
    {
      FlattenAt(feeds, all, i, pos);
      entries, sentItems, picks := ScanFeed(feeds[i], all, pos, store, now, stamp,
                                            summarize, entries, sentItems, picks);
      pos := pos + |feeds[i].entries|;
      i := i + 1;
    }
  }

  /** The inner loop: the entries of one feed in feed order, checked
      against the entries and store built so far. `all` is every entry of
      every feed and `base` the position of this feed's first entry in it. */
  method ScanFeed(feed: Feed, ghost all: seq<Item>, ghost base: nat, store: map<string, int>,
                  now: Time, stamp: int, summarize: (string, string) -> string,
                  entries0: seq<Article>, sent0: map<string, int>, ghost picks0: seq<nat>)
    returns (entries: seq<Article>, sentItems: map<string, int>, ghost picks: seq<nat>)
    requires base + |feed.entries| <= |all|
    requires forall j :: 0 <= j < |feed.entries| ==> all[base + j] == Item(feed.title, feed.entries[j])
    requires PicksReadable(all, store, now, stamp)
    requires Select(all, base, store, now, stamp) == Selection(picks0, sent0)
    requires Built(entries0, all, picks0, summarize)
    ensures Select(all, base + |feed.entries|, store, now, stamp) == Selection(picks, sentItems)
    ensures Built(entries, all, picks, summarize)
  {
    var cutoff := now - Day;
    entries, sentItems, picks := entries0, sent0, picks0;
    var j := 0;
    ghost var pos := base;
    while j < |feed.entries|
      invariant 0 <= j <= |feed.entries| && pos == base + j
      invariant Select(all, pos, store, now, stamp) == Selection(picks, sentItems)
      invariant Built(entries, all, picks, summarize)
    {
      assert all[pos] == Item(feed.title, feed.entries[j]);
      entries, sentItems, picks := VisitEntry(feed.entries[j], feed.title, all, pos, store, now, cutoff,
                                              stamp, summarize, entries, sentItems, picks);
      j := j + 1;
      pos := pos + 1;
    }
  }

  /** The body of the inner loop for the entry at position `pos` of `all`:
      skipped when its id is already stored or it was published before the
      cutoff, otherwise its article is appended and its id stored. */
  method VisitEntry(entry: FeedEntry, source: string, ghost all: seq<Item>, ghost pos: nat,
                    store: map<string, int>, now: Time, cutoff: Time, stamp: int,
                    summarize: (string, string) -> string,
                    entries0: seq<Article>, sent0: map<string, int>, ghost picks0: seq<nat>)
    returns (entries: seq<Article>, sentItems: map<string, int>, ghost picks: seq<nat>)
    requires pos < |all| && all[pos] == Item(source, entry) && cutoff == now - Day
    requires PicksReadable(all, store, now, stamp)
    requires Select(all, pos, store, now, stamp) == Selection(picks0, sent0)
    requires Built(entries0, all, picks0, summarize)
    ensures Select(all, pos + 1, store, now, stamp) == Selection(picks, sentItems)
    ensures Built(entries, all, picks, summarize)
  {
    SelectStep(all, pos, store, now, stamp);
    entries, sentItems, picks := entries0, sent0, picks0;
    var entryId := EntryId(entry);
    if entryId !in sentItems {
      var pubDate := PublishedAt(entry, now);
      if pubDate >= cutoff {
        PickedStays(all, pos, store, now, stamp);
        var content := FeedContent(entry);
        var summary := summarize(entry.title, content);
        entries := entries + [Article(entryId, entry.title, entry.link, summary, content, source)];
        sentItems := sentItems[entryId := stamp];
        picks := picks + [pos];
        assert entries[|entries| - 1] == MakeArticle(all[pos], summarize);
      }
    }
  }

  /** The anchor of an entry's section: the first eight characters of its
      id (the whole id when it is shorter). */
  function ShortAnchor(id: string): (r: string)
    ensures |r| == if |id| <= 8 then |id| else 8
    ensures r == id[..|r|]
  {
    if |id| <= 8 then id else id[..8]
  }

  /** How the "Read full text below" link and the full-text div open. */
  const HrefOpening: string := "<p><a href=\"#"
  const IdOpening: string := "<div class=\"full-text\" id=\""

  /** Heading, source line and summary block of a section. */
  function Lead(a: Article): (r: string)
    ensures "\n<hr>\n" <= r
  {
    var parts := ["\n<hr>\n<h2>", a.title, "</h2>\n",
            "<p><strong>Source:</strong> ", a.source, "</p>\n",
            "<div class=\"summary\">\n",
            "<p><strong>AI Summary:</strong> ", a.summary, "</p>\n",
            "</div>\n"];
    ConcatAt(parts, 0);
    assert Concat(parts[..0]) == "";
    Concat(parts)
  }

  /** The line linking to the section's full text and to the original. */
  function ReadLink(a: Article): string
  {
    HrefOpening + ShortAnchor(a.id) + LinkTail(a)
  }

  function LinkTail(a: Article): (t: string)
    ensures t != [] && t[0] == '"'
  {
    "\">Read full text below</a> | <a href=\"" + a.link + "\">View online</a></p>\n"
  }

  /** The full-text block carrying the section's anchor id. */
  function FullText(a: Article): string
  {
    IdOpening + ShortAnchor(a.id) + TextTail(a)
  }

  function TextTail(a: Article): (t: string)
    ensures t != [] && t[0] == '"'
  {
    "\">\n<h3>Full Article</h3>\n" + a.content + "\n</div>\n"
  }

  /** One entry's section; every section opens with its own `<hr>`. */
  function Section(a: Article): (r: string)
    ensures "\n<hr>\n" <= r
  {
    Lead(a) + ReadLink(a) + FullText(a)
  }

  /** One section per entry, in input order. */
  function Sections(entries: seq<Article>): seq<string>
  {
    seq(|entries|, k requires 0 <= k < |entries| => Section(entries[k]))
  }

  /** The digest after the head `head`: one section per entry, then the
      closing tags. */
  function Page(head: string, entries: seq<Article>): (r: string)
    ensures head <= r
    ensures |r| >= |Html.Closing| && r[|r| - |Html.Closing|..] == Html.Closing
  {
    EndsWith(head + Concat(Sections(entries)), Html.Closing);
    head + Concat(Sections(entries)) + Html.Closing
  }

  /** Builds the digest by appending one section per entry to the preamble,
      then closing the document. */
  method CreateHtml(entries: seq<Article>, day: string, longDay: string) returns (html: string)
    ensures html == Page(Html.Preamble(day, longDay), entries)
  {
    html := Html.Preamble(day, longDay);
    html := AppendSections(html, entries);
    html := html + Html.Closing;
  }

  /** The loop of the digest builder: one section per entry, in order. */
  method AppendSections(head: string, entries: seq<Article>) returns (html: string)
    ensures html == head + Concat(Sections(entries))
  {
    ghost var sections := Sections(entries);
    html := head;
    for k := 0 to |entries|
      invariant html == head + ConcatUpTo(sections, k)
    {
      var section := Section(entries[k]);
      assert section == sections[k];
      Assoc(head, ConcatUpTo(sections, k), section);
      html := html + section;
    }
  }

  /** The page is the head, then entry `k`'s section preceded by the
      sections of the entries before it and followed by those after it, then
      the closing tags. */
  lemma PageLayout(head: string, entries: seq<Article>, k: nat)
    requires k < |entries|
    ensures Page(head, entries)
            == head + Concat(Sections(entries)[..k]) + Section(entries[k])
               + Concat(Sections(entries)[k + 1..]) + Html.Closing
  {
    ConcatFramed(head, Sections(entries), Html.Closing, k);
  }

  /** In every section the "Read full text below" link targets the id its
      full-text block carries, and that is the entry id's eight-character
      prefix whenever that prefix holds no double quote. */
  lemma AnchorsPair(a: Article)
    ensures Html.AttrAfter(HrefOpening, ReadLink(a)) == Html.AttrAfter(IdOpening, FullText(a))
    ensures '"' !in ShortAnchor(a.id) ==> Html.AttrAfter(IdOpening, FullText(a)) == Some(ShortAnchor(a.id))
  {
    var x := ShortAnchor(a.id);
    Html.AttrReadsAlike(HrefOpening, IdOpening, x, LinkTail(a), TextTail(a));
    if '"' !in x {
      Html.AttrReadsBack(IdOpening, x, TextTail(a));
    }
  }

  /** As written, two different entries whose ids are both https URLs get
      the same anchor "https://": both links target the same id, so every
      "Read full text below" jumps to the first such section. */
  lemma UrlIdsShareAnchor(a: Article, b: Article)
    requires "https://" <= a.id && "https://" <= b.id
    ensures ShortAnchor(a.id) == ShortAnchor(b.id) == "https://"
    ensures Html.AttrAfter(HrefOpening, ReadLink(a)) == Html.AttrAfter(HrefOpening, ReadLink(b))
  {
    assert a.id[..8] == "https://";
    assert b.id[..8] == "https://";
    AnchorsPair(a);
    AnchorsPair(b);
  }
}
