/** What both digest builders share: the document preamble, and a reader
    for the value of a double-quoted attribute, standing for how a browser
    resolves an anchor or an element id. */
module Html {
  import opened Wrappers
  import opened Text

  /** The head with its style block, the page heading and the date line that
      open the digest; `day` is the date as year-month-day, `longDay` the
      long form shown under the heading. */
  function Preamble(day: string, longDay: string): string
  {
    Concat([
      "<html><head><meta charset=\"utf-8\"><title>AI Research Digest - ", day, "</title>\n",
      "<style>\n",
      "body { font-family: serif; line-height: 1.6; margin: 20px; }\n",
      ".summary { background: #f5f5f5; padding: 10px; margin: 10px 0; border-left: 3px solid #333; }\n",
      ".full-text { margin-top: 15px; }\n",
      "a { color: #0066cc; }\n",
      "</style>\n",
      "</head><body>\n",
      "<h1>AI Research Digest</h1>\n",
      "<p><em>", longDay, "</em></p>\n"])
  }

  /** What closes the document. */
  const Closing: string := "</body></html>"

  /** The attribute value that follows `opening` (markup ending in `="`)
      when `s` starts with it: everything up to the next double quote. */
  function AttrAfter(opening: string, s: string): (r: Option<string>)
    ensures r.Some? <==> opening <= s
    ensures r.Some? ==> '"' !in r.value
  {
    if opening <= s then Some(UntilQuote(s[|opening|..])) else None
  }

  /** A value free of quotes, written right after `opening` and closed by
      the quote that starts `tail`, is read back unchanged. */
  lemma AttrReadsBack(opening: string, x: string, tail: string)
    requires '"' !in x && tail != [] && tail[0] == '"'
    ensures AttrAfter(opening, opening + x + tail) == Some(x)
  {
    assert (opening + x + tail)[|opening|..] == x + tail;
    UntilQuoteReads(x, tail);
  }

  /** The same value written after two openings, each closed by a quote, is
      read back the same in both places, whether or not it holds quotes
      itself and whatever follows. */
  lemma AttrReadsAlike(opening1: string, opening2: string, x: string, tail1: string, tail2: string)
    requires tail1 != [] && tail1[0] == '"'
    requires tail2 != [] && tail2[0] == '"'
    ensures AttrAfter(opening1, opening1 + x + tail1) == AttrAfter(opening2, opening2 + x + tail2)
  {
    assert (opening1 + x + tail1)[|opening1|..] == x + tail1;
    assert (opening2 + x + tail2)[|opening2|..] == x + tail2;
    UntilQuoteClosed(x, tail1, tail2);
  }
}
