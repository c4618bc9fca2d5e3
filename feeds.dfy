/** The records both scripts work on: the feed list read from the
    configuration file, the entries a feed parser hands back, the rules that
    give an entry its id, publish time and feed-native content, and the
    record appended to the digest for each selected entry. */
module Feeds {
  import opened Wrappers
  import opened Text

  /** An instant in whole seconds (the parser's publish time keeps six
      fields, year to second). */
  type Time = int

  /** The selection window: one day, in seconds. */
  const Day: int := 86400

  /** One fetched entry. Absent fields are `None`; `link` and `title` are
      read as attributes, so the model requires them. `content` is the
      parser's list of content dictionaries, each reduced to its optional
      'value' key. */
  datatype FeedEntry = FeedEntry(
    id: Option<string>,
    link: string,
    title: string,
    published: Option<Time>,
    summary: Option<string>,
    description: Option<string>,
    content: Option<seq<Option<string>>>)

  /** One parsed feed: its display title and its entries in feed order. */
  datatype Feed = Feed(title: string, entries: seq<FeedEntry>)

  /** An entry together with the title of the feed it came from. */
  datatype Item = Item(source: string, entry: FeedEntry)

  /** The record appended to the output list for a selected entry. */
  datatype Article = Article(
    id: string, title: string, link: string, summary: string, content: string, source: string)

  /** The feed URLs kept from the configuration file's lines, in file order:
      each line stripped, blank lines dropped. */
  function FeedUrls(lines: seq<string>): (urls: seq<string>)
    ensures |urls| <= |lines|
  {
    UrlsUpTo(lines, |lines|)
  }

  /** The URLs kept from the first `n` lines. */
  function UrlsUpTo(lines: seq<string>, n: nat): (urls: seq<string>)
    requires n <= |lines|
    ensures |urls| <= n
  {
    if n == 0 then [] else UrlsUpTo(lines, n - 1) + Kept(lines[n - 1])
  }

  /** What one line contributes: its stripped text, unless that is empty. */
  function Kept(line: string): (r: seq<string>)
    ensures |r| <= 1
    ensures r == [] <==> AllSpace(line)
    ensures r != [] ==> r[0] == Strip(line) && r[0] != "" && Stripped(r[0])
  {
    var url := Strip(line);
    if url != "" then [url] else []
  }

  /** Every kept URL is non-empty and has no surrounding whitespace. */
  lemma {:induction false} UrlsClean(lines: seq<string>, n: nat, k: nat)
    requires n <= |lines| && k < |UrlsUpTo(lines, n)|
    ensures UrlsUpTo(lines, n)[k] != "" && Stripped(UrlsUpTo(lines, n)[k])
  {
    var front, last := UrlsUpTo(lines, n - 1), Kept(lines[n - 1]);
    if k < |front| {
      UrlsClean(lines, n - 1, k);
      assert UrlsUpTo(lines, n)[k] == front[k];
    } else {
      assert UrlsUpTo(lines, n)[k] == last[k - |front|];
    }
  }

  /** Every non-blank line among the first `n` has its stripped text among
      the URLs kept from them. */
  lemma {:induction false} UrlsKeep(lines: seq<string>, n: nat, k: nat)
    requires k < n <= |lines| && !AllSpace(lines[k])
    ensures Strip(lines[k]) in UrlsUpTo(lines, n)
  {
    var front, last := UrlsUpTo(lines, n - 1), Kept(lines[n - 1]);
    assert UrlsUpTo(lines, n) == front + last;
    if k == n - 1 {
      assert last[0] == Strip(lines[k]);
    } else {
      UrlsKeep(lines, n - 1, k);
    }
  }

  /** Every URL kept from the first `n` lines is the stripped text of a
      non-blank one among them. */
  lemma {:induction false} UrlsFrom(lines: seq<string>, n: nat, u: string)
    requires n <= |lines| && u in UrlsUpTo(lines, n)
    ensures exists k :: 0 <= k < n && !AllSpace(lines[k]) && u == Strip(lines[k])
  {
    var front, last := UrlsUpTo(lines, n - 1), Kept(lines[n - 1]);
    assert UrlsUpTo(lines, n) == front + last;
    if u in last {
      assert !AllSpace(lines[n - 1]) && u == Strip(lines[n - 1]);
    } else {
      UrlsFrom(lines, n - 1, u);
    }
  }

  /** Lines that agree on their first `n` entries keep the same URLs from them. */
  lemma {:induction false} UrlsSamePrefix(x: seq<string>, y: seq<string>, n: nat)
    requires n <= |x| && n <= |y|
    requires forall i :: 0 <= i < n ==> x[i] == y[i]
    ensures UrlsUpTo(x, n) == UrlsUpTo(y, n)
  {
    if n > 0 {
      UrlsSamePrefix(x, y, n - 1);
    }
  }

  /** Reading two runs of lines one after the other keeps the URLs of the
      first run, then those of the second: file order is preserved. */
  lemma FeedUrlsAppend(a: seq<string>, b: seq<string>)
    ensures FeedUrls(a + b) == FeedUrls(a) + FeedUrls(b)
  {
    UrlsJoin(a + b, a, b, |b|);
  }

  /** The URLs kept from `c`, the lines of `a` followed by those of `b`, up to
      line `m` of `b`. */
  lemma {:induction false} UrlsJoin(c: seq<string>, a: seq<string>, b: seq<string>, m: nat)
    requires |c| == |a| + |b| && m <= |b|
    requires forall i :: 0 <= i < |a| ==> c[i] == a[i]
    requires forall i :: 0 <= i < |b| ==> c[|a| + i] == b[i]
    ensures UrlsUpTo(c, |a| + m) == UrlsUpTo(a, |a|) + UrlsUpTo(b, m)
  {
    if m == 0 {
      UrlsSamePrefix(c, a, |a|);
      assert UrlsUpTo(a, |a|) + [] == UrlsUpTo(a, |a|);
    } else {
      UrlsJoin(c, a, b, m - 1);
      UrlsJoinStep(c, a, b, m);
    }
  }

  /** Line `m` of `b` adds its URL after those kept so far. */
  lemma UrlsJoinStep(c: seq<string>, a: seq<string>, b: seq<string>, m: nat)
    requires |c| == |a| + |b| && 0 < m <= |b| && c[|a| + m - 1] == b[m - 1]
    requires UrlsUpTo(c, |a| + (m - 1)) == UrlsUpTo(a, |a|) + UrlsUpTo(b, m - 1)
    ensures UrlsUpTo(c, |a| + m) == UrlsUpTo(a, |a|) + UrlsUpTo(b, m)
  {
    var front, middle, last := UrlsUpTo(a, |a|), UrlsUpTo(b, m - 1), Kept(b[m - 1]);
    assert UrlsUpTo(c, |a| + m) == UrlsUpTo(c, |a| + m - 1) + last;
    assert UrlsUpTo(c, |a| + m) == (front + middle) + last;
    SeqAssoc(front, middle, last);
  }

  lemma SeqAssoc(x: seq<string>, y: seq<string>, z: seq<string>)
    ensures (x + y) + z == x + (y + z)
  {
  }

  /** A single line yields its stripped text, or nothing when it is blank. */
  lemma FeedUrlsLine(line: string)
    ensures AllSpace(line) ==> FeedUrls([line]) == []
    ensures !AllSpace(line) ==> FeedUrls([line]) == [Strip(line)]
  {
    assert UrlsUpTo([line], 1) == [] + Kept(line);
  }

  /** The entry's dedup key: its feed id when it has one, its link otherwise. */
  function EntryId(e: FeedEntry): (id: string)
    ensures e.id.Some? ==> id == e.id.value
    ensures e.id.None? ==> id == e.link
  {
    Get(e.id, e.link)
  }

  /** When the entry counts as published; an entry without a publish time
      counts as published at `now`. */
  function PublishedAt(e: FeedEntry, now: Time): (t: Time)
    ensures e.published.Some? ==> t == e.published.value
    ensures e.published.None? ==> t == now
  {
    Get(e.published, now)
  }

  /** Whether the entry falls before the cutoff one day before `now`. An
      entry without a publish time is never stale. `now` is the clock at the
      start of the run rounded up to the whole second (see `CutoffExact`). */
  function Stale(e: FeedEntry, now: Time): (stale: bool)
    ensures stale <==> e.published.Some? && e.published.value < now - Day
    ensures e.published.None? ==> !stale
  {
    PublishedAt(e, now) < now - Day
  }

  const Micros: int := 1_000_000

  /** A clock reading in microseconds, rounded up to the whole second. */
  function CeilSeconds(us: int): (s: int)
    ensures (s - 1) * Micros < us <= s * Micros
  {
    (us + Micros - 1) / Micros
  }

  /** The clock has microseconds while a publish time has whole seconds.
      Comparing a publish time with the cutoff one day before the clock is
      the same as comparing it, in seconds, with one day before the clock
      rounded up to the second. */
  lemma CutoffExact(published: Time, clock: int)
    ensures published * Micros < clock - Day * Micros <==> published < CeilSeconds(clock) - Day
  {
  }

  /** The content lookup indexes the first element of the content list (or
      of a one-element default) before it knows whether it needs it, so a
      present but empty content list makes it fail. */
  predicate ContentReadable(e: FeedEntry)
  {
    e.content.None? || |e.content.value| > 0
  }

  /** The 'value' of the first content dictionary, or "" when there is no
      content list or that dictionary has no 'value'. */
  function FirstContentValue(e: FeedEntry): string
    requires ContentReadable(e)
  {
    Get(Get(e.content, [None])[0], "")
  }

  /** The feed-native content: summary, else description, else the first
      content item's value, else the empty string. */
  function FeedContent(e: FeedEntry): (r: string)
    requires ContentReadable(e)
    ensures e.summary.Some? ==> r == e.summary.value
    ensures e.summary.None? && e.description.Some? ==> r == e.description.value
    ensures e.summary.None? && e.description.None? && e.content.Some? ==> r == Get(e.content.value[0], "")
    ensures e.summary.None? && e.description.None? && e.content.None? ==> r == ""
  {
    Get(e.summary, Get(e.description, FirstContentValue(e)))
  }

  /** The entries of one feed, each paired with the feed's title. */
  function ItemsOf(f: Feed): seq<Item>
  {
    seq(|f.entries|, j requires 0 <= j < |f.entries| => Item(f.title, f.entries[j]))
  }

  /** Every entry of every feed, in the order the nested loops visit them:
      feed-list order first, then the order within each feed. */
  function Flatten(feeds: seq<Feed>): seq<Item>
  {
    FlattenUpTo(feeds, |feeds|)
  }

  /** The entries of the first `n` feeds, in visiting order. */
  function FlattenUpTo(feeds: seq<Feed>, n: nat): seq<Item>
    requires n <= |feeds|
  {
    if n == 0 then [] else FlattenUpTo(feeds, n - 1) + ItemsOf(feeds[n - 1])
  }

  /** Visiting more feeds only adds entries after those already visited. */
  lemma {:induction false} FlattenGrows(feeds: seq<Feed>, n: nat, m: nat)
    requires n <= m <= |feeds|
    ensures |FlattenUpTo(feeds, n)| <= |FlattenUpTo(feeds, m)|
  {
    if n < m {
      FlattenGrows(feeds, n, m - 1);
    }
  }

  lemma {:induction false} FlattenKeeps(feeds: seq<Feed>, n: nat, m: nat, k: nat)
    requires n <= m <= |feeds| && k < |FlattenUpTo(feeds, n)|
    ensures k < |FlattenUpTo(feeds, m)| && FlattenUpTo(feeds, m)[k] == FlattenUpTo(feeds, n)[k]
  {
    FlattenGrows(feeds, n, m);
    if n < m {
      FlattenKeeps(feeds, n, m - 1, k);
      assert FlattenUpTo(feeds, m) == FlattenUpTo(feeds, m - 1) + ItemsOf(feeds[m - 1]);
    }
  }

  /** Feed `i`'s entries occupy the positions right after those of the feeds
      before it, which start at `base`. */
  lemma FlattenAt(feeds: seq<Feed>, all: seq<Item>, i: nat, base: nat)
    requires all == Flatten(feeds)
    requires i < |feeds| && base == |FlattenUpTo(feeds, i)|
    ensures base + |feeds[i].entries| == |FlattenUpTo(feeds, i + 1)| <= |all|
    ensures forall j :: 0 <= j < |feeds[i].entries| ==>
              all[base + j] == Item(feeds[i].title, feeds[i].entries[j])
  {
    FlattenGrows(feeds, i + 1, |feeds|);
    forall j | 0 <= j < |feeds[i].entries|
      ensures all[base + j] == Item(feeds[i].title, feeds[i].entries[j])
    {
      FlattenKeeps(feeds, i + 1, |feeds|, base + j);
      assert FlattenUpTo(feeds, i + 1)[base + j] == ItemsOf(feeds[i])[j];
    }
  }
}
