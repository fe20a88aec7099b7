/** The quotes panel under an answer (src/ui/details.py): every quote becomes a
    blockquote, a link quote with its anchor, and the blockquotes are joined with
    newlines inside a collapsible section whose summary is the title. No quotes give
    no panel.

    The HTML is built from the same text pieces as the source's templates, whitespace
    included; the panel component that wraps the HTML is not modelled. */
module Details {
  import opened Types
  import opened Strings

  const BlockquoteOpen := "\n        <blockquote style=\"margin-top: 1em; border-left: 2px solid #ccc; padding-left: 1em;\">\n"

  const QuoteMark := "\""

  const Dash := "— "

  const BlockquoteClose := "</footer>\n        </blockquote>\n    "

  const CitationHead := BlockquoteOpen + "            <p><i>"

  const CitationFoot := "</i></p>\n            <footer>"

  const LinkHead := BlockquoteOpen + "            <p>\n                <a "

  const Href := "href="

  const LinkAttrs := " target=\"_blank\" rel=\"noopener noreferrer\" style=\"text-decoration: none; color: inherit;\">\n                    <i>"

  const LinkFoot := "</i>\n                </a>\n            </p>\n            <footer>"

  const DetailsHead := "\n        <details>\n            <summary>\n            "

  const SummaryClose := "\n            </summary>\n            "

  const DetailsClose := "\n        </details>\n    "

  const DefaultTitle := "Citations"

  /** What separates two rendered quotes. */
  const Newline := "\n"

  /** `render_citation`. */
  function RenderCitation(author: string, text: string): string {
    CitationHead + QuoteMark + text + QuoteMark + CitationFoot + Dash + author + BlockquoteClose
  }

  /** `render_link`. */
  function RenderLink(author: string, text: string, link: string): string {
    LinkHead + Href + QuoteMark + link + QuoteMark + LinkAttrs + QuoteMark + text + QuoteMark + LinkFoot
      + Dash + author + BlockquoteClose
  }

  /** `render_quote`: each kind of quote with its own template. */
  function RenderQuote(q: Quote): string {
    match q
    case Link(author, text, link) => RenderLink(author, text, link)
    case Citation(author, text) => RenderCitation(author, text)
  }

  /** Where the pieces of a citation template sit, for any pieces. */
  lemma CitationLayout(head: string, q: string, text: string, foot: string, dash: string, author: string,
                       close: string)
    ensures var r := head + q + text + q + foot + dash + author + close;
            && OccursAt(r, q + text + q, |head|)
            && OccursAt(r, dash + author, |head| + |q| + |text| + |q| + |foot|)
  {
    var quoted := q + text + q;
    var s1 := head + q;
    OccursAtEnd(head, q);
    OccursAtGrow(s1, q, |head|, text);
    OccursAtGrow(s1 + text, q + text, |head|, q);
    var s3 := s1 + text + q;
    OccursAtExtend(s3, quoted, |head|, foot);
    OccursAtExtend(s3 + foot, quoted, |head|, dash);
    OccursAtExtend(s3 + foot + dash, quoted, |head|, author);
    OccursAtExtend(s3 + foot + dash + author, quoted, |head|, close);
    OccursAtEnd(s3 + foot, dash);
    OccursAtGrow(s3 + foot + dash, dash, |s3 + foot|, author);
    OccursAtExtend(s3 + foot + dash + author, dash + author, |s3 + foot|, close);
  }

  /** The citation shows its text between quotation marks, then a dash and its author. */
  lemma RenderCitationShows(author: string, text: string)
    ensures var r := RenderCitation(author, text);
            && OccursAt(r, QuoteMark + text + QuoteMark, |CitationHead|)
            && OccursAt(r, Dash + author, |CitationHead| + |QuoteMark| + |text| + |QuoteMark| + |CitationFoot|)
  {
    CitationLayout(CitationHead, QuoteMark, text, CitationFoot, Dash, author, BlockquoteClose);
  }

  /** The anchor target of a link template sits right after the head, for any pieces. */
  lemma LinkAnchorAt(head: string, href: string, q: string, link: string, attrs: string, text: string,
                     foot: string, dash: string, author: string, close: string)
    ensures OccursAt(head + href + q + link + q + attrs + q + text + q + foot + dash + author + close,
                     href + q + link + q, |head|)
  {
    var anchor := href + q + link + q;
    OccursAtEnd(head, href);
    OccursAtGrow(head + href, href, |head|, q);
    OccursAtGrow(head + href + q, href + q, |head|, link);
    OccursAtGrow(head + href + q + link, href + q + link, |head|, q);
    var s4 := head + href + q + link + q;
    OccursAtExtend(s4, anchor, |head|, attrs);
    OccursAtExtend(s4 + attrs, anchor, |head|, q);
    OccursAtExtend(s4 + attrs + q, anchor, |head|, text);
    OccursAtExtend(s4 + attrs + q + text, anchor, |head|, q);
    OccursAtExtend(s4 + attrs + q + text + q, anchor, |head|, foot);
    OccursAtExtend(s4 + attrs + q + text + q + foot, anchor, |head|, dash);
    OccursAtExtend(s4 + attrs + q + text + q + foot + dash, anchor, |head|, author);
    OccursAtExtend(s4 + attrs + q + text + q + foot + dash + author, anchor, |head|, close);
  }

  /** The quoted text of a link template sits right after the attributes, for any pieces. */
  lemma LinkTextAt(head: string, href: string, q: string, link: string, attrs: string, text: string,
                   foot: string, dash: string, author: string, close: string)
    ensures OccursAt(head + href + q + link + q + attrs + q + text + q + foot + dash + author + close,
                     q + text + q, |head| + |href| + |q| + |link| + |q| + |attrs|)
  {
    var quoted := q + text + q;
    var s5 := head + href + q + link + q + attrs;
    OccursAtEnd(s5, q);
    OccursAtGrow(s5 + q, q, |s5|, text);
    OccursAtGrow(s5 + q + text, q + text, |s5|, q);
    OccursAtExtend(s5 + q + text + q, quoted, |s5|, foot);
    OccursAtExtend(s5 + q + text + q + foot, quoted, |s5|, dash);
    OccursAtExtend(s5 + q + text + q + foot + dash, quoted, |s5|, author);
    OccursAtExtend(s5 + q + text + q + foot + dash + author, quoted, |s5|, close);
  }

  /** The author of a link template sits right after the dash, for any pieces. */
  lemma LinkAuthorAt(head: string, href: string, q: string, link: string, attrs: string, text: string,
                     foot: string, dash: string, author: string, close: string)
    ensures OccursAt(head + href + q + link + q + attrs + q + text + q + foot + dash + author + close,
                     dash + author, |head| + |href| + |q| + |link| + |q| + |attrs| + |q| + |text| + |q| + |foot|)
  {
    var s9 := head + href + q + link + q + attrs + q + text + q + foot;
    OccursAtEnd(s9, dash);
    OccursAtGrow(s9 + dash, dash, |s9|, author);
    OccursAtExtend(s9 + dash + author, dash + author, |s9|, close);
  }

  /** The link shows its target as the anchor's quoted `href`, its text between
      quotation marks, then a dash and its author. */
  lemma RenderLinkShows(author: string, text: string, link: string)
    ensures var r := RenderLink(author, text, link);
            var textAt := |LinkHead| + |Href| + |QuoteMark| + |link| + |QuoteMark| + |LinkAttrs|;
            && OccursAt(r, Href + QuoteMark + link + QuoteMark, |LinkHead|)
            && OccursAt(r, QuoteMark + text + QuoteMark, textAt)
            && OccursAt(r, Dash + author, textAt + |QuoteMark| + |text| + |QuoteMark| + |LinkFoot|)
  {
    LinkAnchorAt(LinkHead, Href, QuoteMark, link, LinkAttrs, text, LinkFoot, Dash, author, BlockquoteClose);
    LinkTextAt(LinkHead, Href, QuoteMark, link, LinkAttrs, text, LinkFoot, Dash, author, BlockquoteClose);
    LinkAuthorAt(LinkHead, Href, QuoteMark, link, LinkAttrs, text, LinkFoot, Dash, author, BlockquoteClose);
  }

  /** Whatever its kind, a rendered quote shows its text in quotation marks and its
      author after a dash, and a link also shows its target as `href`. */
  lemma RenderQuoteShows(q: Quote)
    ensures Contains(RenderQuote(q), QuoteMark + q.text + QuoteMark)
    ensures Contains(RenderQuote(q), Dash + q.author)
    ensures q.Link? ==> Contains(RenderQuote(q), Href + QuoteMark + q.link + QuoteMark)
  {
    match q
    case Citation(author, text) =>
      RenderCitationShows(author, text);
    case Link(author, text, link) =>
      RenderLinkShows(author, text, link);
  }

  /** What `render_quotes` returns: the empty string, or the panel's HTML. */
  datatype Rendered = NoPanel | Html(body: string)

  /** Every quote rendered, in order. */
  function RenderedQuotes(quotes: seq<Quote>): seq<string> {
    seq(|quotes|, i requires 0 <= i < |quotes| => RenderQuote(quotes[i]))
  }

  /** `render_quotes`: no panel for no quotes; otherwise the title in the summary and
      the rendered quotes joined with newlines. */
  function RenderQuotes(quotes: seq<Quote>, title: string): (r: Rendered)
    ensures r.NoPanel? <==> |quotes| == 0
  {
    if |quotes| == 0 then NoPanel
    else Html(Panel(title, RenderedQuotes(quotes)))
  }

  /** The collapsible section around already rendered quotes. */
  function Panel(title: string, parts: seq<string>): string {
    DetailsHead + title + SummaryClose + Join(Newline, parts) + DetailsClose
  }

  /** Where the fixed pieces of the panel template sit, for any pieces. */
  lemma PanelHeadLayout(head: string, title: string, summaryClose: string, joined: string, close: string)
    ensures var body := head + title + summaryClose + joined + close;
            && OccursAt(body, head, 0)
            && OccursAt(body, title, |head|)
            && OccursAt(body, summaryClose, |head| + |title|)
  {
    var front := head + title + summaryClose;
    OccursAtEnd([], head);
    assert [] + head == head;
    OccursAtExtend(head, head, 0, title);
    OccursAtExtend(head + title, head, 0, summaryClose);
    OccursAtExtend(front, head, 0, joined);
    OccursAtExtend(front + joined, head, 0, close);
    OccursAtEnd(head, title);
    OccursAtExtend(head + title, title, |head|, summaryClose);
    OccursAtExtend(front, title, |head|, joined);
    OccursAtExtend(front + joined, title, |head|, close);
    OccursAtEnd(head + title, summaryClose);
    OccursAtExtend(front, summaryClose, |head| + |title|, joined);
    OccursAtExtend(front + joined, summaryClose, |head| + |title|, close);
  }

  /** Where one joined part sits in the panel, for any pieces and parts. */
  lemma PanelPartAt(front: string, sep: string, parts: seq<string>, close: string, i: nat)
    requires i < |parts|
    ensures OccursAt(front + Join(sep, parts) + close, parts[i], |front| + JoinOffset(sep, parts, i))
  {
    var joined := Join(sep, parts);
    JoinPartAt(sep, parts, i);
    OccursAtShift(front, joined, parts[i], JoinOffset(sep, parts, i));
    OccursAtExtend(front + joined, parts[i], |front| + JoinOffset(sep, parts, i), close);
  }

  /** The panel opens with its head, then shows the title inside the summary. */
  lemma RenderQuotesHead(quotes: seq<Quote>, title: string)
    requires |quotes| > 0
    ensures var body := RenderQuotes(quotes, title).body;
            && OccursAt(body, DetailsHead, 0)
            && OccursAt(body, title, |DetailsHead|)
            && OccursAt(body, SummaryClose, |DetailsHead| + |title|)
  {
    PanelHeadLayout(DetailsHead, title, SummaryClose, Join(Newline, RenderedQuotes(quotes)), DetailsClose);
  }

  /** Each part sits in the panel after the summary, at its offset in the join. */
  lemma PanelShowsPart(title: string, parts: seq<string>, i: nat)
    requires i < |parts|
    ensures OccursAt(Panel(title, parts), parts[i], |DetailsHead| + |title| + |SummaryClose| + JoinOffset(Newline, parts, i))
  {
    PanelPartAt(DetailsHead + title + SummaryClose, Newline, parts, DetailsClose, i);
  }

  /** After the summary come the rendered quotes: the i-th one sits at its offset in
      the join. */
  lemma RenderQuotesPartAt(quotes: seq<Quote>, title: string, i: nat)
    requires i < |quotes|
    ensures var body := RenderQuotes(quotes, title).body;
            var parts := RenderedQuotes(quotes);
            && parts[i] == RenderQuote(quotes[i])
            && OccursAt(body, parts[i],
                        |DetailsHead| + |title| + |SummaryClose| + JoinOffset(Newline, parts, i))
  {
    PanelShowsPart(title, RenderedQuotes(quotes), i);
  }

  /** Consecutive quotes are one newline apart: the next one starts one character
      after the previous one ends. */
  lemma RenderQuotesInOrder(quotes: seq<Quote>, i: nat)
    requires i + 1 < |quotes|
    ensures var parts := RenderedQuotes(quotes);
            JoinOffset(Newline, parts, i + 1) == JoinOffset(Newline, parts, i) + |RenderQuote(quotes[i])| + |Newline|
  {
    JoinOffsetNext(Newline, RenderedQuotes(quotes), i);
  }
}
