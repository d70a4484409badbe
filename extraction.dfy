/** The event model and the extractor: how one rendered listing page becomes a
    list of event records (event_checker.py, extract_event_details).

    The HTML parser is not modelled. A page is given as its raw text together
    with the result of parsing it: whether a `div.noResult` element exists, and
    the `a.eventListItem` cards in document order, each with the text of the
    sub-elements the extractor selects (or None when a selector finds nothing). */
module Extraction {

  datatype Option<T> = None | Some(value: T)

  /** One listed event. `link` is its identity; the other fields are for display. */
  datatype Event = Event(name: string, date: string, link: string, shop: string, address: string)

  /** One `a.eventListItem` element as the extractor sees it. Each field is the
      stripped text of the first match of its selector inside the card:
      title = `div.title`, day = `span.day`, week = `span.week`, time = `span.time`,
      shop = `div.shop a`, building = `div.address span.building`;
      href is the card's own `href` attribute. */
  datatype Card = Card(
    title: Option<string>,
    day: Option<string>,
    week: Option<string>,
    time: Option<string>,
    shop: Option<string>,
    building: Option<string>,
    href: Option<string>)

  /** The parsed page: is there a `div.noResult` marker, and which cards, in order. */
  datatype Document = Document(noResult: bool, cards: seq<Card>)

  /** What a fetch returns: the markup text (empty when the fetch failed) and its parse. */
  datatype Markup = Markup(html: string, doc: Document)

  /** The placeholder for a field whose element is missing. */
  const NotAvailable: string := "N/A"

  /** The origin prepended to site-relative links. */
  const SiteOrigin: string := "https://players.pokemon-card.com"

  function TextOrDefault(tag: Option<string>): string
  {
    match tag
    case Some(t) => t
    case None => NotAvailable
  }

  /** The composite date: day, weekday and time joined by single spaces, or the
      placeholder unless all three are present. */
  function DateText(c: Card): (r: string)
    ensures r == NotAvailable <==> c.day.None? || c.week.None? || c.time.None?
  {
    if c.day.Some? && c.week.Some? && c.time.Some? then
      var joined := c.day.value + " " + c.week.value + " " + c.time.value;
      // The joined date has a space at this index; the placeholder has none.
      assert joined[|c.day.value|] == ' ';
      joined
    else
      NotAvailable
  }

  predicate StartsWith(s: string, prefix: string)
  {
    |prefix| <= |s| && s[..|prefix|] == prefix
  }

  /** A link starting with `/` is made absolute; any other link is kept. */
  function AbsoluteLink(link: string): (r: string)
    ensures StartsWith(link, "/") ==> StartsWith(r, SiteOrigin) && r[|SiteOrigin|..] == link
    ensures !StartsWith(link, "/") ==> r == link
    ensures !StartsWith(r, "/")
  {
    if StartsWith(link, "/") then
      assert (SiteOrigin + link)[0] == 'h';
      SiteOrigin + link
    else
      link
  }

  /** The card's link: its href (empty when it has none), made absolute. */
  function CardLink(c: Card): (r: string)
    ensures c.href.None? ==> r == ""
    ensures !StartsWith(r, "/")
  {
    AbsoluteLink(match c.href case Some(h) => h case None => "")
  }

  /** The record one card yields: each display field is its element's text when
      the element is present and the placeholder otherwise. */
  function CardEvent(c: Card): (e: Event)
    ensures c.title.Some? ==> e.name == c.title.value
    ensures c.title.None? ==> e.name == NotAvailable
    ensures c.shop.Some? ==> e.shop == c.shop.value
    ensures c.shop.None? ==> e.shop == NotAvailable
    ensures c.building.Some? ==> e.address == c.building.value
    ensures c.building.None? ==> e.address == NotAvailable
    ensures e.date == NotAvailable <==> c.day.None? || c.week.None? || c.time.None?
    ensures !StartsWith(e.link, "/")
  {
    Event(TextOrDefault(c.title), DateText(c), CardLink(c), TextOrDefault(c.shop), TextOrDefault(c.building))
  }

  /** One record per card, in card order. */
  function CardEvents(cards: seq<Card>): (r: seq<Event>)
    ensures |r| == |cards|
    ensures forall i :: 0 <= i < |r| ==> !StartsWith(r[i].link, "/")
  {
    if cards == [] then [] else [CardEvent(cards[0])] + CardEvents(cards[1..])
  }

  /** The specification of extract_event_details: nothing for empty markup or for
      a page with the no-result marker, otherwise one record per card. */
  function Extracted(m: Markup): (events: seq<Event>)
    ensures |m.html| == 0 || m.doc.noResult ==> events == []
    ensures |m.html| > 0 && !m.doc.noResult ==> |events| == |m.doc.cards|
    ensures forall i :: 0 <= i < |events| ==> !StartsWith(events[i].link, "/")
  {
    if |m.html| == 0 || m.doc.noResult then [] else CardEvents(m.doc.cards)
  }

  /** extract_event_details: builds the event list by appending one record per card. */
  method ExtractEventDetails(m: Markup) returns (events: seq<Event>)
    ensures events == Extracted(m)
    ensures |m.html| == 0 || m.doc.noResult ==> events == []
    ensures |m.html| > 0 && !m.doc.noResult ==>
              |events| == |m.doc.cards| &&
              forall i :: 0 <= i < |events| ==> events[i] == CardEvent(m.doc.cards[i])
  {
    if |m.html| == 0 {
      return [];
    }
    if m.doc.noResult {
      return [];
    }
    var cards := m.doc.cards;
    events := [];
    var i := 0;
    while i < |cards|
      invariant 0 <= i <= |cards|
      invariant |events| == i
      invariant forall k :: 0 <= k < i ==> events[k] == CardEvent(cards[k])
    {
      events := events + [CardEvent(cards[i])];
      i := i + 1;
    }
    CardEventsAt(cards);
    assert events == CardEvents(cards);
  }

  /** One record per card, in card order. */
  lemma {:induction false} CardEventsAt(cards: seq<Card>)
    ensures |CardEvents(cards)| == |cards|
    ensures forall i :: 0 <= i < |cards| ==> CardEvents(cards)[i] == CardEvent(cards[i])
  {
    if cards != [] {
      CardEventsAt(cards[1..]);
    }
  }

  /** Otherwise every card yields exactly one record, in card order. */
  lemma {:induction false} OneEventPerCard(m: Markup)
    requires |m.html| > 0 && !m.doc.noResult
    ensures |Extracted(m)| == |m.doc.cards|
    ensures forall i :: 0 <= i < |m.doc.cards| ==> Extracted(m)[i] == CardEvent(m.doc.cards[i])
  {
    CardEventsAt(m.doc.cards);
  }

  /** Extraction is empty exactly for empty markup, a no-result page, or a page without cards. */
  lemma ExtractedEmptyIff(m: Markup)
    ensures Extracted(m) == [] <==> |m.html| == 0 || m.doc.noResult || m.doc.cards == []
  {
  }

  /** When day, weekday and time are all present, the date is the three joined by single spaces. */
  lemma DateJoinsParts(c: Card)
    requires c.day.Some? && c.week.Some? && c.time.Some?
    ensures CardEvent(c).date == c.day.value + " " + c.week.value + " " + c.time.value
  {
  }

  /** A missing title gives the placeholder name and leaves every other field as it was. */
  lemma MissingTitleOnlyAffectsName(c: Card)
    ensures CardEvent(c.(title := None)) == CardEvent(c).(name := NotAvailable)
  {
  }

  /** A missing shop gives the placeholder shop and leaves every other field as it was. */
  lemma MissingShopOnlyAffectsShop(c: Card)
    ensures CardEvent(c.(shop := None)) == CardEvent(c).(shop := NotAvailable)
  {
  }

  /** A missing building gives the placeholder address and leaves every other field as it was. */
  lemma MissingBuildingOnlyAffectsAddress(c: Card)
    ensures CardEvent(c.(building := None)) == CardEvent(c).(address := NotAvailable)
  {
  }

  /** A missing day, weekday or time gives the placeholder date and leaves every other field as it was. */
  lemma MissingDatePartOnlyAffectsDate(c: Card, d: Card)
    requires d == c.(day := None) || d == c.(week := None) || d == c.(time := None)
    ensures CardEvent(d) == CardEvent(c).(date := NotAvailable)
  {
  }

  /** The link rules: no href gives the empty link, a `/`-relative href gets the
      site origin, and any other href is kept as it is. */
  lemma CardLinkCases(c: Card)
    ensures c.href.None? ==> CardEvent(c).link == ""
    ensures c.href.Some? && StartsWith(c.href.value, "/") ==> CardEvent(c).link == SiteOrigin + c.href.value
    ensures c.href.Some? && !StartsWith(c.href.value, "/") ==> CardEvent(c).link == c.href.value
  {
  }

  /** The link is empty exactly when the card has no href or an empty one. */
  lemma CardLinkEmptyIff(c: Card)
    ensures CardEvent(c).link == "" <==> c.href == None || c.href == Some("")
  {
  }

  /** Making a link absolute twice changes nothing further: the origin does not start with `/`. */
  lemma AbsoluteLinkIdempotent(link: string)
    ensures AbsoluteLink(AbsoluteLink(link)) == AbsoluteLink(link)
  {
    if StartsWith(link, "/") {
      assert (SiteOrigin + link)[0] == 'h';
    }
  }

  /** When every card carries a `/`-relative href, every record's link lies under the site origin. */
  lemma {:induction false} RelativeLinksBecomeAbsolute(m: Markup)
    requires forall i :: 0 <= i < |m.doc.cards| ==>
               m.doc.cards[i].href.Some? && StartsWith(m.doc.cards[i].href.value, "/")
    ensures forall i :: 0 <= i < |Extracted(m)| ==> StartsWith(Extracted(m)[i].link, SiteOrigin + "/")
  {
    CardEventsAt(m.doc.cards);
    forall i | 0 <= i < |Extracted(m)|
      ensures StartsWith(Extracted(m)[i].link, SiteOrigin + "/")
    {
      var h := m.doc.cards[i].href.value;
      assert Extracted(m)[i].link == SiteOrigin + h;
      assert (SiteOrigin + h)[..|SiteOrigin| + 1] == SiteOrigin + h[..1];
    }
  }
}
