/** The bounded crawl of one website source: a breadth-first loop over a queue, the set of the
    URLs in it and the set of the URLs taken out of it. */
module Crawler {
  import opened Wrappers

  datatype Mode = PageMode | Rss | SitemapMode | Auto

  datatype Config = Config(
    mode: Mode, maxDepth: nat, maxPages: nat, feedUrl: Option<string>, sitemapUrl: Option<string>)

  datatype Entry = Entry(url: string, depth: nat, terminal: bool)

  /** What fetching a page gives. A request that raises is not counted as fetched, one that is
      answered with an error status is. A feed or sitemap that does not parse has no links. */
  datatype Page =
    | RequestFailed
    | ErrorStatus
    | Feed(links: Option<seq<string>>)
    | Sitemap(isIndex: bool, locations: Option<seq<string>>)
    | OtherMedia
    | Html(articleMarkup: bool, relevant: bool, blank: bool, anchors: seq<(string, string)>, feeds: seq<string>)

  datatype StoreReply = Created | Duplicate | Refused

  /** The site and the libraries that read it; `canonical` resolves and normalises against the
      source, the predicates compare with the source's configuration. */
  datatype Site = Site(
    url: string,
    defaultSitemap: string,
    canonical: string -> Option<string>,
    sameSite: string -> bool,
    pathAllowed: string -> bool,
    hasKeywords: bool,
    linkMatches: (string, string) -> bool,
    robotsAllow: string -> bool,
    page: string -> Page,
    store: string -> StoreReply)

  /** `should_enqueue_link`. */
  predicate ShouldEnqueue(site: Site, url: string, anchor: string) {
    && site.sameSite(url) && site.pathAllowed(url)
    && (!site.hasKeywords || site.linkMatches(url, anchor))
  }

  /** A call of `enqueue`. */
  datatype Offer = Offer(url: string, depth: nat, terminal: bool, seed: bool)

  /** What `enqueue` requires besides novelty. */
  predicate Acceptable(site: Site, o: Offer) {
    var url := site.canonical(o.url);
    url.Some? && site.sameSite(url.value) && (o.seed || site.pathAllowed(url.value))
  }

  // ---- What is offered ----------------------------------------------------------------

  function When(b: bool, o: Offer): seq<Offer> { if b then [o] else [] }

  function UrlOr(url: Option<string>, default_: string): string { if url.Some? && url.value != "" then url.value else default_ }

  predicate Given(url: Option<string>) { url.Some? && url.value != "" }

  /** The seeds, in the order they are enqueued. */
  function Seeds(site: Site, config: Config): seq<Offer> {
    When(config.mode == PageMode || config.mode == Auto, Offer(site.url, 0, false, true))
    + When(config.mode == Rss || Given(config.feedUrl), Offer(UrlOr(config.feedUrl, site.url), 0, true, true))
    + When(config.mode == SitemapMode || Given(config.sitemapUrl), Offer(UrlOr(config.sitemapUrl, site.url), 0, true, true))
    + When(config.mode == Auto && !Given(config.sitemapUrl), Offer(site.defaultSitemap, 0, true, true))
  }

  predicate IsArticle(e: Entry, page: Page)
    requires page.Html?
  {
    e.terminal || (e.depth > 0 && page.articleMarkup)
  }

  function LinkOffers(links: seq<string>, terminal: bool, seed: bool): seq<Offer> {
    seq(|links|, i requires 0 <= i < |links| => Offer(links[i], 0, terminal, seed))
  }

  function AnchorOffers(site: Site, anchors: seq<(string, string)>, depth: nat): seq<Offer> {
    if anchors == [] then []
    else
      var before, last := AnchorOffers(site, anchors[..|anchors| - 1], depth), anchors[|anchors| - 1];
      if ShouldEnqueue(site, last.0, last.1) then before + [Offer(last.0, depth, false, false)] else before
  }

  function HtmlOffers(site: Site, config: Config, e: Entry, page: Page): seq<Offer>
    requires page.Html?
  {
    if IsArticle(e, page) || e.depth >= config.maxDepth then []
    else (if config.mode == Auto then LinkOffers(page.feeds, true, true) else []) + AnchorOffers(site, page.anchors, e.depth + 1)
  }

  /** What visiting an entry offers to the queue. */
  function Children(site: Site, config: Config, e: Entry): seq<Offer> {
    if !site.robotsAllow(e.url) then []
    else
      match site.page(e.url)
      case Feed(Some(links)) => LinkOffers(links, true, false)
      case Sitemap(isIndex, Some(links)) => LinkOffers(links, !isIndex, isIndex)
      case Html(_, _, _, _, _) => HtmlOffers(site, config, e, site.page(e.url))
      case _ => []
  }

  /** The links followed: on the same site, on an allowed path, and with a keyword if there are
      any; each one level below the page, and none of them an article by itself. */
  lemma {:induction false} AnchorsAre(site: Site, anchors: seq<(string, string)>, depth: nat, o: Offer)
    ensures o in AnchorOffers(site, anchors, depth) <==>
      exists i :: 0 <= i < |anchors| && o == Offer(anchors[i].0, depth, false, false)
        && site.sameSite(anchors[i].0) && site.pathAllowed(anchors[i].0)
        && (site.hasKeywords ==> site.linkMatches(anchors[i].0, anchors[i].1))
  {
    if anchors != [] {
      var n := |anchors| - 1;
      AnchorsAre(site, anchors[..n], depth, o);
      assert forall i :: 0 <= i < n ==> anchors[..n][i] == anchors[i];
    }
  }

  /** The seeds of each mode, by name. A feed or sitemap that is given is always one of them. */
  lemma SeedsByMode(site: Site, config: Config)
    ensures var feed: seq<Offer> := if Given(config.feedUrl) then [Offer(config.feedUrl.value, 0, true, true)] else [];
      var map_: seq<Offer> := if Given(config.sitemapUrl) then [Offer(config.sitemapUrl.value, 0, true, true)] else [];
      var first, source := Offer(site.url, 0, false, true), [Offer(site.url, 0, true, true)];
      match config.mode
      case PageMode => Seeds(site, config) == [first] + feed + map_
      case Rss => Seeds(site, config) == (if feed == [] then source else feed) + map_
      case SitemapMode => Seeds(site, config) == feed + (if map_ == [] then source else map_)
      case Auto => Seeds(site, config) == [first] + feed + (if map_ == [] then [Offer(site.defaultSitemap, 0, true, true)] else map_)
  {
  }

  lemma {:induction false} AnchorDepth(site: Site, anchors: seq<(string, string)>, depth: nat)
    ensures forall i :: 0 <= i < |AnchorOffers(site, anchors, depth)| ==> AnchorOffers(site, anchors, depth)[i].depth == depth
  {
    if anchors != [] { AnchorDepth(site, anchors[..|anchors| - 1], depth); }
  }

  /** Nothing is offered deeper than the limit. */
  lemma ChildrenAreShallow(site: Site, config: Config, e: Entry)
    requires e.depth <= config.maxDepth
    ensures forall i :: 0 <= i < |Children(site, config, e)| ==> Children(site, config, e)[i].depth <= config.maxDepth
  {
    if site.page(e.url).Html? { AnchorDepth(site, site.page(e.url).anchors, e.depth + 1); }
  }

  /** What the pages of each kind put forward: a feed articles, a sitemap articles or more sitemaps,
      and a page above the depth limit that is no article the feeds it announces, in automatic
      mode, and its links one level down. */
  lemma ChildrenAre(site: Site, config: Config, e: Entry, o: Offer)
    ensures o in Children(site, config, e) <==>
      site.robotsAllow(e.url) &&
      match site.page(e.url)
      case Feed(links) => links.Some? && o.url in links.value && o == Offer(o.url, 0, true, false)
      case Sitemap(isIndex, links) => links.Some? && o.url in links.value && o == Offer(o.url, 0, !isIndex, isIndex)
      case Html(articleMarkup, _, _, anchors, feeds) =>
        && !e.terminal && (e.depth == 0 || !articleMarkup) && e.depth < config.maxDepth
        && ((config.mode == Auto && o.url in feeds && o == Offer(o.url, 0, true, true))
            || exists i :: 0 <= i < |anchors| && o == Offer(anchors[i].0, e.depth + 1, false, false)
                 && site.sameSite(anchors[i].0) && site.pathAllowed(anchors[i].0)
                 && (site.hasKeywords ==> site.linkMatches(anchors[i].0, anchors[i].1)))
      case _ => false
  {
    match site.page(e.url)
    case Feed(Some(links)) => LinksAre(links, true, false, o);
    case Sitemap(isIndex, Some(links)) => LinksAre(links, !isIndex, isIndex, o);
    case Html(_, _, _, anchors, feeds) =>
      LinksAre(feeds, true, true, o);
      AnchorsAre(site, anchors, e.depth + 1, o);
    case _ =>
  }

  lemma AnchorsNext(site: Site, anchors: seq<(string, string)>, i: nat, depth: nat)
    requires i < |anchors|
    ensures AnchorOffers(site, anchors[..i + 1], depth)
         == AnchorOffers(site, anchors[..i], depth)
            + When(ShouldEnqueue(site, anchors[i].0, anchors[i].1), Offer(anchors[i].0, depth, false, false))
  {
    assert anchors[..i + 1][..i] == anchors[..i];
  }

  lemma LinksAre(links: seq<string>, terminal: bool, seed: bool, o: Offer)
    ensures o in LinkOffers(links, terminal, seed) <==> o.url in links && o == Offer(o.url, 0, terminal, seed)
  {
    if o.url in links {
      var i :| 0 <= i < |links| && links[i] == o.url;
      assert LinkOffers(links, terminal, seed)[i] == Offer(o.url, 0, terminal, seed);
    }
  }

  // ---- What is taken up ------------------------------------------------------------------

  function Urls(queue: seq<Entry>): set<string> { set i | 0 <= i < |queue| :: queue[i].url }

  /** The entries that a list of offers adds when the URLs `known` are queued or seen: the first
      acceptable offer of each other URL, in order. */
  function NewEntries(site: Site, offers: seq<Offer>, known: set<string>): seq<Entry> {
    if offers == [] then []
    else
      var before, last := NewEntries(site, offers[..|offers| - 1], known), offers[|offers| - 1];
      if Acceptable(site, last) && site.canonical(last.url).value !in known + Urls(before)
      then before + [EntryFor(site, last)] else before
  }

  function EntryFor(site: Site, o: Offer): Entry
    requires Acceptable(site, o)
  {
    Entry(site.canonical(o.url).value, o.depth, o.terminal)
  }

  lemma UrlsConcat(a: seq<Entry>, b: seq<Entry>)
    ensures Urls(a + b) == Urls(a) + Urls(b)
  {
    var c := a + b;
    forall u | u in Urls(a) + Urls(b) ensures u in Urls(c) {
      if i :| 0 <= i < |a| && a[i].url == u {
        assert c[i].url == u;
      } else {
        var i :| 0 <= i < |b| && b[i].url == u;
        assert c[|a| + i].url == u;
      }
    }
  }

  /** What one more offer adds. */
  function Addition(site: Site, o: Offer, known: set<string>): seq<Entry> {
    if Acceptable(site, o) && site.canonical(o.url).value !in known then [EntryFor(site, o)] else []
  }

  lemma EntriesNext(site: Site, offers: seq<Offer>, o: Offer, known: set<string>)
    ensures NewEntries(site, offers + [o], known)
         == NewEntries(site, offers, known) + Addition(site, o, known + Urls(NewEntries(site, offers, known)))
  {
    assert (offers + [o])[..|offers|] == offers;
  }

  /** Offers made later only add to what earlier ones have left. */
  lemma {:induction false} EntriesConcat(site: Site, a: seq<Offer>, b: seq<Offer>, known: set<string>)
    ensures NewEntries(site, a + b, known)
         == NewEntries(site, a, known) + NewEntries(site, b, known + Urls(NewEntries(site, a, known)))
    decreases |b|
  {
    var first := NewEntries(site, a, known);
    if b == [] {
      assert a + b == a;
    } else {
      var n := |b| - 1;
      var mid := NewEntries(site, b[..n], known + Urls(first));
      assert a + b == a + b[..n] + [b[n]] && b == b[..n] + [b[n]];
      EntriesConcat(site, a, b[..n], known);
      EntriesNext(site, a + b[..n], b[n], known);
      EntriesNext(site, b[..n], b[n], known + Urls(first));
      UrlsConcat(first, mid);
      assert known + Urls(first + mid) == known + Urls(first) + Urls(mid);
    }
  }

  /** Offer `i` is the first acceptable one of its URL. */
  predicate IsFirst(site: Site, offers: seq<Offer>, i: int) {
    0 <= i < |offers| && Acceptable(site, offers[i]) &&
    forall j :: 0 <= j < i && Acceptable(site, offers[j]) ==> site.canonical(offers[j].url) != site.canonical(offers[i].url)
  }

  /** The entry stands for the first acceptable offer of its URL, with that offer's depth and kind. */
  predicate FromFirst(site: Site, offers: seq<Offer>, e: Entry) {
    exists i :: 0 <= i < |offers| && IsFirst(site, offers, i) && e == EntryFor(site, offers[i])
  }

  /** Every acceptable offer has been taken up. */
  predicate TakenUp(site: Site, offers: seq<Offer>, urls: set<string>) {
    forall i :: 0 <= i < |offers| && Acceptable(site, offers[i]) ==> site.canonical(offers[i].url).value in urls
  }

  lemma FirstStaysFirst(site: Site, offers: seq<Offer>, o: Offer, e: Entry)
    requires FromFirst(site, offers, e)
    ensures FromFirst(site, offers + [o], e)
  {
    var i :| 0 <= i < |offers| && IsFirst(site, offers, i) && e == EntryFor(site, offers[i]);
    var more := offers + [o];
    assert forall j :: 0 <= j <= i ==> more[j] == offers[j];
    assert IsFirst(site, more, i);
  }

  lemma AdditionUrls(site: Site, o: Offer, known: set<string>)
    ensures Acceptable(site, o) ==> site.canonical(o.url).value in known + Urls(Addition(site, o, known))
  {
    var more := Addition(site, o, known);
    if more != [] { assert more[0].url in Urls(more); }
  }

  lemma LastIsFirst(site: Site, first: seq<Offer>, last: Offer, known: set<string>)
    requires TakenUp(site, first, known) && Acceptable(site, last) && site.canonical(last.url).value !in known
    ensures FromFirst(site, first + [last], EntryFor(site, last))
  {
    var offers, n := first + [last], |first|;
    forall j | 0 <= j < n && Acceptable(site, offers[j]) ensures site.canonical(offers[j].url) != site.canonical(last.url) {
      assert offers[j] == first[j];
    }
    assert IsFirst(site, offers, n) && offers[n] == last;
  }

  /** From nothing known: what is taken up is every acceptable URL, as its first offer has it. */
  lemma {:induction false} EntriesAre(site: Site, offers: seq<Offer>)
    ensures TakenUp(site, offers, Urls(NewEntries(site, offers, {})))
    ensures forall e :: e in NewEntries(site, offers, {}) ==> FromFirst(site, offers, e)
  {
    if offers != [] {
      var n := |offers| - 1;
      var first, last := offers[..n], offers[n];
      var before := NewEntries(site, first, {});
      EntriesAre(site, first);
      assert offers == first + [last];
      EntriesNext(site, first, last, {});
      UrlsConcat(before, Addition(site, last, {} + Urls(before)));
      AdditionUrls(site, last, {} + Urls(before));
      forall i | 0 <= i < |offers| && Acceptable(site, offers[i])
        ensures site.canonical(offers[i].url).value in Urls(NewEntries(site, offers, {}))
      {
        if i < n { assert offers[i] == first[i]; }
      }
      forall e | e in before ensures FromFirst(site, offers, e) { FirstStaysFirst(site, first, last, e); }
      if Addition(site, last, {} + Urls(before)) != [] { LastIsFirst(site, first, last, Urls(before)); }
    }
  }

  /** Everything that the seeds and the entries visited put forward, in order. */
  function AllOffers(site: Site, config: Config, trail: seq<Entry>): seq<Offer> {
    if trail == [] then Seeds(site, config)
    else AllOffers(site, config, trail[..|trail| - 1]) + Children(site, config, trail[|trail| - 1])
  }

  lemma OffersNext(site: Site, config: Config, trail: seq<Entry>, e: Entry)
    ensures AllOffers(site, config, trail + [e]) == AllOffers(site, config, trail) + Children(site, config, e)
  {
    assert (trail + [e])[..|trail|] == trail;
  }

  lemma {:induction false} OffersAre(site: Site, config: Config, trail: seq<Entry>, o: Offer)
    ensures o in AllOffers(site, config, trail)
       <==> o in Seeds(site, config) || exists e :: e in trail && o in Children(site, config, e)
  {
    if trail != [] {
      var n := |trail| - 1;
      OffersAre(site, config, trail[..n], o);
      assert trail == trail[..n] + [trail[n]];
      assert forall e :: e in trail <==> e in trail[..n] || e == trail[n];
    }
  }

  /** One entry more visited: its offers add to the queue. */
  lemma DiscoveredNext(site: Site, config: Config, trail: seq<Entry>, e: Entry, before: seq<Entry>, after: seq<Entry>)
    requires trail + [e] + before == NewEntries(site, AllOffers(site, config, trail), {})
    requires after == before + NewEntries(site, Children(site, config, e), Urls(trail + [e] + before))
    ensures trail + [e] + after == NewEntries(site, AllOffers(site, config, trail + [e]), {})
  {
    OffersNext(site, config, trail, e);
    FoundNext(site, AllOffers(site, config, trail), Children(site, config, e), trail + [e] + before);
    Associates(trail + [e], before, NewEntries(site, Children(site, config, e), Urls(trail + [e] + before)));
  }

  lemma FoundNext(site: Site, offers: seq<Offer>, more: seq<Offer>, found: seq<Entry>)
    requires found == NewEntries(site, offers, {})
    ensures found + NewEntries(site, more, Urls(found)) == NewEntries(site, offers + more, {})
  {
    EntriesConcat(site, offers, more, {});
    assert {} + Urls(found) == Urls(found);
  }

  lemma Associates(a: seq<Entry>, b: seq<Entry>, c: seq<Entry>)
    ensures a + (b + c) == a + b + c
  {
  }

  /** The offer was a seed, or was put forward by a page visited. */
  ghost predicate PutForwardBy(site: Site, config: Config, visited: set<Entry>, o: Offer) {
    o in Seeds(site, config) || exists e :: e in visited && o in Children(site, config, e)
  }

  /** The entries found are exactly those that the seeds and the visited pages offered, with the depth
      and kind of one of the offers. */
  ghost predicate ClosedOver(site: Site, config: Config, visited: set<Entry>, found: set<Entry>) {
    && (forall o :: PutForwardBy(site, config, visited, o) && Acceptable(site, o) ==>
          exists e :: e in found && Some(e.url) == site.canonical(o.url))
    && (forall e :: e in found ==>
          exists o :: PutForwardBy(site, config, visited, o) && Acceptable(site, o) && e == EntryFor(site, o))
  }

  lemma FoundAreOffered(site: Site, config: Config, trail: seq<Entry>, visited: set<Entry>, found: seq<Entry>)
    requires found == NewEntries(site, AllOffers(site, config, trail), {}) && forall e :: e in visited <==> e in trail
    ensures ClosedOver(site, config, visited, set e | e in found)
  {
    var offers := AllOffers(site, config, trail);
    EntriesAre(site, offers);
    forall o | PutForwardBy(site, config, visited, o) && Acceptable(site, o)
      ensures exists e :: e in found && Some(e.url) == site.canonical(o.url)
    {
      OffersAre(site, config, trail, o);
      var i :| 0 <= i < |offers| && offers[i] == o;
      assert site.canonical(offers[i].url).value in Urls(found);
      var k :| 0 <= k < |found| && found[k].url == site.canonical(o.url).value;
      assert found[k] in found;
    }
    forall e | e in found
      ensures exists o :: PutForwardBy(site, config, visited, o) && Acceptable(site, o) && e == EntryFor(site, o)
    {
      var i :| 0 <= i < |offers| && IsFirst(site, offers, i) && e == EntryFor(site, offers[i]);
      OffersAre(site, config, trail, offers[i]);
      assert PutForwardBy(site, config, visited, offers[i]);
    }
  }

  // ---- What is fetched and kept ----------------------------------------------------------

  /** The entry's page is kept as evidence: it may be read, is relevant HTML with some text, and is
      an article, because a feed or sitemap says so or because it is marked up as one below the
      first page. */
  predicate IsKept(site: Site, e: Entry) {
    var page := site.page(e.url);
    site.robotsAllow(e.url) && page.Html? && page.relevant && !page.blank && (e.terminal || (e.depth > 0 && page.articleMarkup))
  }

  /** The entry counts as an error: the request fails, or what it brings cannot be read. */
  predicate IsError(site: Site, e: Entry) {
    var page := site.page(e.url);
    && site.robotsAllow(e.url)
    && (page.RequestFailed? || page.ErrorStatus? || (page.Feed? && page.links.None?) || (page.Sitemap? && page.locations.None?))
  }

  predicate IsFetched(site: Site, e: Entry) { site.robotsAllow(e.url) && !site.page(e.url).RequestFailed? }

  /** The entries of a trail for which `keep` holds, in order. */
  function Where(trail: seq<Entry>, keep: Entry -> bool): seq<string> {
    if trail == [] then []
    else
      var before, last := Where(trail[..|trail| - 1], keep), trail[|trail| - 1];
      if keep(last) then before + [last.url] else before
  }

  function Allowed(site: Site): Entry -> bool { (e: Entry) => site.robotsAllow(e.url) }

  function Fetched(site: Site): Entry -> bool { (e: Entry) => IsFetched(site, e) }

  function Failed(site: Site): Entry -> bool { (e: Entry) => IsError(site, e) }

  function Kept(site: Site): Entry -> bool { (e: Entry) => IsKept(site, e) }

  function Answered(site: Site, reply: StoreReply): Entry -> bool {
    (e: Entry) => IsKept(site, e) && site.store(e.url) == reply
  }

  lemma WhereNext(trail: seq<Entry>, e: Entry, keep: Entry -> bool)
    ensures Where(trail + [e], keep) == Where(trail, keep) + if keep(e) then [e.url] else []
  {
    assert (trail + [e])[..|trail|] == trail;
  }

  lemma {:induction false} WhereAre(trail: seq<Entry>, keep: Entry -> bool)
    ensures forall u :: u in Where(trail, keep) <==> exists e :: e in trail && keep(e) && e.url == u
  {
    if trail != [] {
      var n := |trail| - 1;
      WhereAre(trail[..n], keep);
      assert trail == trail[..n] + [trail[n]];
      assert forall e :: e in trail <==> e in trail[..n] || e == trail[n];
    }
  }

  predicate DistinctUrls(trail: seq<Entry>) { forall i, j :: 0 <= i < j < |trail| ==> trail[i].url != trail[j].url }

  lemma {:induction false} WhereOnce(trail: seq<Entry>, keep: Entry -> bool)
    requires DistinctUrls(trail)
    ensures forall i, j :: 0 <= i < j < |Where(trail, keep)| ==> Where(trail, keep)[i] != Where(trail, keep)[j]
  {
    if trail != [] {
      var n := |trail| - 1;
      assert forall i :: 0 <= i < n ==> trail[..n][i] == trail[i];
      WhereOnce(trail[..n], keep);
      WhereAre(trail[..n], keep);
      assert trail[n].url !in Where(trail[..n], keep);
    }
  }

  function Replied(site: Site, urls: seq<string>, reply: StoreReply): set<nat> {
    set i | 0 <= i < |urls| && site.store(urls[i]) == reply
  }

  lemma RepliedNext(site: Site, urls: seq<string>, u: string, reply: StoreReply)
    ensures Replied(site, urls + [u], reply) == Replied(site, urls, reply) + if site.store(u) == reply then {|urls|} else {}
  {
    assert forall i :: 0 <= i < |urls| ==> (urls + [u])[i] == urls[i];
  }

  lemma {:induction false} AnsweredCount(site: Site, trail: seq<Entry>, reply: StoreReply)
    ensures |Where(trail, Answered(site, reply))| == |Replied(site, Where(trail, Kept(site)), reply)|
  {
    if trail != [] {
      var n := |trail| - 1;
      AnsweredCount(site, trail[..n], reply);
      if Kept(site)(trail[n]) { RepliedNext(site, Where(trail[..n], Kept(site)), trail[n].url, reply); }
    }
  }

  /** Each URL once, exactly those of the visited entries whose page may be read and is relevant HTML
      with text, and that a feed or sitemap named or whose page is an article below the first. */
  ghost predicate ArticlesOf(site: Site, visited: set<Entry>, evidence: seq<string>) {
    && (forall i, j :: 0 <= i < j < |evidence| ==> evidence[i] != evidence[j])
    && (forall u :: u in evidence <==> exists e :: e in visited && e.url == u && IsArticleOf(e, site.page(u)) && site.robotsAllow(u))
  }

  predicate IsArticleOf(e: Entry, page: Page) {
    page.Html? && page.relevant && !page.blank && (e.terminal || (e.depth > 0 && page.articleMarkup))
  }

  lemma KeptAreArticles(site: Site, trail: seq<Entry>, visited: set<Entry>)
    requires DistinctUrls(trail) && forall e :: e in visited <==> e in trail
    ensures ArticlesOf(site, visited, Where(trail, Kept(site)))
  {
    var evidence := Where(trail, Kept(site));
    WhereAre(trail, Kept(site));
    WhereOnce(trail, Kept(site));
    forall u ensures u in evidence <==>
      exists e :: e in visited && e.url == u && IsArticleOf(e, site.page(u)) && site.robotsAllow(u)
    {
      if u in evidence {
        var e :| e in trail && Kept(site)(e) && e.url == u;
        assert e in visited && IsArticleOf(e, site.page(u));
      }
      if e :| e in visited && e.url == u && IsArticleOf(e, site.page(u)) && site.robotsAllow(u) {
        assert e in trail && Kept(site)(e);
      }
    }
  }

  lemma {:induction false} SeenCount(trail: seq<Entry>, seen: set<string>)
    requires DistinctUrls(trail) && forall u :: u in seen <==> exists e :: e in trail && e.url == u
    ensures |seen| == |trail|
  {
    if trail == [] {
      assert seen == {};
    } else {
      var n := |trail| - 1;
      assert trail[n] in trail;
      forall u ensures u in seen - {trail[n].url} <==> exists e :: e in trail[..n] && e.url == u {
        if e :| e in trail && e.url == u && u != trail[n].url { assert e in trail[..n]; }
        if e :| e in trail[..n] && e.url == u {
          var i :| 0 <= i < n && trail[i] == e;
          assert e in trail;
        }
      }
      SeenCount(trail[..n], seen - {trail[n].url});
    }
  }

  lemma TrailGrows(trail: seq<Entry>, e: Entry)
    requires DistinctUrls(trail) && forall v :: v in trail ==> v.url != e.url
    ensures DistinctUrls(trail + [e])
  {
  }

  /** The counters and lists of the crawl are those of the entries visited, in their order. */
  ghost predicate Accounts(site: Site, trail: seq<Entry>, fetched: nat, errors: nat, created: nat, duplicates: nat,
                           requested: seq<string>, evidence: seq<string>)
  {
    && fetched == |Where(trail, Fetched(site))| && errors == |Where(trail, Failed(site))|
    && requested == Where(trail, Allowed(site)) && evidence == Where(trail, Kept(site))
    && created == |Where(trail, Answered(site, Created))| && duplicates == |Where(trail, Answered(site, Duplicate))|
  }

  /** One entry more, and what it adds to each of them. */
  lemma AccountsNext(site: Site, trail: seq<Entry>, e: Entry, fetched: nat, errors: nat, created: nat, duplicates: nat,
                     requested: seq<string>, evidence: seq<string>)
    requires Accounts(site, trail, fetched, errors, created, duplicates, requested, evidence)
    ensures Accounts(site, trail + [e],
                     fetched + (if IsFetched(site, e) then 1 else 0), errors + (if IsError(site, e) then 1 else 0),
                     created + (if IsKept(site, e) && site.store(e.url) == Created then 1 else 0),
                     duplicates + (if IsKept(site, e) && site.store(e.url) == Duplicate then 1 else 0),
                     requested + (if site.robotsAllow(e.url) then [e.url] else []),
                     evidence + (if IsKept(site, e) then [e.url] else []))
  {
    WhereNext(trail, e, Fetched(site));
    WhereNext(trail, e, Failed(site));
    WhereNext(trail, e, Allowed(site));
    WhereNext(trail, e, Kept(site));
    WhereNext(trail, e, Answered(site, Created));
    WhereNext(trail, e, Answered(site, Duplicate));
  }

  /** How many URLs visiting an entry puts forward, each to be queued or skipped; a page that may
      not be read and a page of another kind count as one skipped. */
  function PutForward(site: Site, config: Config, e: Entry): nat {
    if !site.robotsAllow(e.url) then 1
    else
      match site.page(e.url)
      case Feed(Some(links)) => |links|
      case Sitemap(_, Some(links)) => |links|
      case OtherMedia => 1
      case Html(articleMarkup, _, _, anchors, feeds) =>
        if e.terminal || (e.depth > 0 && articleMarkup) || e.depth >= config.maxDepth then 0
        else |anchors| + if config.mode == Auto then |feeds| else 0
      case _ => 0
  }

  function AllPutForward(site: Site, config: Config, trail: seq<Entry>): nat {
    if trail == [] then |Seeds(site, config)|
    else AllPutForward(site, config, trail[..|trail| - 1]) + PutForward(site, config, trail[|trail| - 1])
  }

  lemma PutForwardNext(site: Site, config: Config, trail: seq<Entry>, e: Entry)
    ensures AllPutForward(site, config, trail + [e]) == AllPutForward(site, config, trail) + PutForward(site, config, e)
  {
    assert (trail + [e])[..|trail|] == trail;
  }

  datatype Summary = Summary(discovered: nat, fetched: nat, skipped: nat, created: nat, duplicates: nat, evidence: nat, errors: nat)

  class Crawl {
    const site: Site
    const config: Config
    var queue: seq<Entry>
    var queued: set<string>
    var seen: set<string>
    var skipped: nat
    var fetched: nat
    var errors: nat
    var created: nat
    var duplicates: nat
    var evidence: seq<string>
    /** The URLs requested, in order, and the entries visited, the latter also in order. */
    ghost var requested: seq<string>
    ghost var visited: set<Entry>
    ghost var trail: seq<Entry>

    ghost predicate GoodQueue()
      reads this
    {
      && queued == Urls(queue) && queued !! seen
      && (forall i, j :: 0 <= i < j < |queue| ==> queue[i].url != queue[j].url)
      && (forall i :: 0 <= i < |queue| ==> queue[i].depth <= config.maxDepth)
      && (forall u :: u in seen + queued ==> site.sameSite(u))
    }

    ghost predicate GoodCounts()
      reads this
    {
      && created + duplicates == |evidence| <= fetched <= config.maxPages
      && fetched <= |requested|
      && (forall i, j :: 0 <= i < j < |requested| ==> requested[i] != requested[j])
      && (forall i :: 0 <= i < |requested| ==> requested[i] in seen)
    }

    ghost predicate GoodVisits()
      reads this
    {
      && (forall e :: e in visited ==> e.url in seen && e.depth <= config.maxDepth)
      && (forall u :: u in seen ==> exists e :: e in visited && e.url == u)
      && (forall e :: e in visited <==> e in trail) && DistinctUrls(trail)
    }

    ghost predicate Recorded()
      reads this
    {
      Accounts(site, trail, fetched, errors, created, duplicates, requested, evidence)
    }

    /** Every URL put forward is queued, was taken out of the queue, or was skipped. */
    ghost predicate Balanced()
      reads this
    {
      |queue| + |trail| + skipped == AllPutForward(site, config, trail)
    }

    /** The entries visited and then those queued are the first acceptable offers of each URL, in the
        order in which they were put forward: the crawl is breadth-first. */
    ghost predicate InOrder()
      reads this
    {
      trail + queue == NewEntries(site, AllOffers(site, config, trail), {})
    }

    ghost predicate Closed()
      reads this
    {
      ClosedOver(site, config, visited, set e | e in trail + queue)
    }

    ghost predicate Valid()
      reads this
    {
      GoodQueue() && GoodCounts() && GoodVisits()
    }

    constructor (site: Site, config: Config)
      ensures this.site == site && this.config == config && Valid()
      ensures queue == [] && seen == {} && visited == {} && requested == [] && evidence == []
      ensures Recorded() && trail == [] && skipped == 0
    {
      this.site, this.config := site, config;
      queue, queued, seen := [], {}, {};
      skipped, fetched, errors, created, duplicates := 0, 0, 0, 0, 0;
      evidence, requested, visited, trail := [], [], {}, [];
    }

    /** `enqueue`: an acceptable URL that is neither queued nor seen goes to the end. */
    method Enqueue(o: Offer)
      requires GoodQueue() && o.depth <= config.maxDepth
      modifies this`queue, this`queued, this`skipped
      ensures GoodQueue()
      ensures var url := site.canonical(o.url);
        if Acceptable(site, o) && url.value !in old(seen + queued)
        then queue == old(queue) + [Entry(url.value, o.depth, o.terminal)] && skipped == old(skipped)
        else queue == old(queue) && skipped == old(skipped) + 1
      ensures |queue| + skipped == old(|queue| + skipped) + 1
    {
      var url := site.canonical(o.url);
      if url.None? || url.value in seen || url.value in queued || !site.sameSite(url.value)
         || (!o.seed && !site.pathAllowed(url.value)) {
        skipped := skipped + 1;
        return;
      }
      var entry := Entry(url.value, o.depth, o.terminal);
      UrlsGrow(queue, entry);
      queued := queued + {url.value};
      queue := queue + [entry];
    }

    /** To the queue `before`, with the URLs `known` queued or seen, the offers have been added. */
    ghost predicate Added(before: seq<Entry>, known: set<string>, offers: seq<Offer>)
      reads this
    {
      known == seen + Urls(before) && queue == before + NewEntries(site, offers, known)
    }

    lemma NothingAdded()
      requires GoodQueue()
      ensures Added(queue, seen + queued, [])
    {
    }

    lemma KnownGrows(before: seq<Entry>, known: set<string>, offers: seq<Offer>)
      requires GoodQueue() && Added(before, known, offers)
      ensures seen + queued == known + Urls(NewEntries(site, offers, known))
    {
      UrlsConcat(before, NewEntries(site, offers, known));
    }

    /** One more of several `enqueue` calls. */
    method EnqueueNext(o: Offer, ghost before: seq<Entry>, ghost known: set<string>, ghost offers: seq<Offer>)
      requires GoodQueue() && o.depth <= config.maxDepth && Added(before, known, offers)
      modifies this`queue, this`queued, this`skipped
      ensures GoodQueue() && Added(before, known, offers + [o]) && |queue| + skipped == old(|queue| + skipped) + 1
    {
      KnownGrows(before, known, offers);
      EntriesNext(site, offers, o, known);
      Enqueue(o);
    }

    /** A loop of `enqueue` calls. */
    method EnqueueAll(more: seq<Offer>, ghost before: seq<Entry>, ghost known: set<string>, ghost offers: seq<Offer>)
      requires GoodQueue() && Added(before, known, offers) && forall i :: 0 <= i < |more| ==> more[i].depth <= config.maxDepth
      modifies this`queue, this`queued, this`skipped
      ensures GoodQueue() && Added(before, known, offers + more)
      ensures |queue| + skipped == old(|queue| + skipped) + |more|
    {
      var i := 0;
      assert offers + more[..0] == offers;
      while i < |more|
        invariant i <= |more| && GoodQueue() && Added(before, known, offers + more[..i])
        invariant |queue| + skipped == old(|queue| + skipped) + i
      {
        assert offers + more[..i] + [more[i]] == offers + more[..i + 1];
        EnqueueNext(more[i], before, known, offers + more[..i]);
        i := i + 1;
      }
      assert more[..i] == more;
    }

    /** `queue.popleft()`, `queued.discard`, `seen.add`. The URL taken is never one that was
        taken before. */
    method TakeNext() returns (e: Entry)
      requires Valid() && queue != []
      modifies this`queue, this`queued, this`seen, this`visited, this`trail
      ensures Valid() && e == old(queue)[0] && queue == old(queue)[1..] && trail == old(trail) + [e]
      ensures e.url !in old(seen) && e.url !in requested && e.depth <= config.maxDepth
      ensures seen == old(seen) + {e.url} && visited == old(visited) + {e}
      ensures seen + queued == old(seen + queued) && trail + queue == old(trail + queue)
    {
      assert trail + queue == trail + [queue[0]] + queue[1..];
      e := queue[0];
      UrlsShrink(queue);
      assert e.url in Urls(queue);
      queue := queue[1..];
      queued := queued - {e.url};
      assert e.url !in seen;
      TrailGrows(trail, e);
      seen := seen + {e.url};
      visited := visited + {e};
      trail := trail + [e];
    }

    /** The loop over the navigation links. */
    method EnqueueAnchors(anchors: seq<(string, string)>, depth: nat, ghost before: seq<Entry>, ghost known: set<string>,
                          ghost offers: seq<Offer>)
      requires GoodQueue() && depth <= config.maxDepth && Added(before, known, offers)
      modifies this`queue, this`queued, this`skipped
      ensures GoodQueue() && Added(before, known, offers + AnchorOffers(site, anchors, depth))
      ensures |queue| + skipped == old(|queue| + skipped) + |anchors|
    {
      var i := 0;
      ghost var more: seq<Offer> := [];
      assert offers + more == offers;
      while i < |anchors|
        invariant i <= |anchors| && more == AnchorOffers(site, anchors[..i], depth)
        invariant GoodQueue() && Added(before, known, offers + more)
        invariant |queue| + skipped == old(|queue| + skipped) + i
      {
        AnchorsNext(site, anchors, i, depth);
        if ShouldEnqueue(site, anchors[i].0, anchors[i].1) {
          var o := Offer(anchors[i].0, depth, false, false);
          assert offers + more + [o] == offers + (more + [o]);
          EnqueueNext(o, before, known, offers + more);
          more := more + [o];
        } else {
          skipped := skipped + 1;
        }
        i := i + 1;
      }
      assert anchors[..i] == anchors;
    }

    /** Compared with what there was, the URL is evidence if `kept`, counted as the store answered. */
    predicate Keeps(evidence0: seq<string>, created0: nat, duplicates0: nat, url: string, kept: bool)
      reads this
    {
      && evidence == evidence0 + (if kept then [url] else [])
      && created == created0 + (if kept && site.store(url) == Created then 1 else 0)
      && duplicates == duplicates0 + (if kept && site.store(url) == Duplicate then 1 else 0)
    }

    /** `store_evidence` for a page that is an article. False when the store refuses it. */
    method KeepArticle(e: Entry, page: Page) returns (stored: bool)
      requires Valid() && page.Html? && |evidence| < fetched
      modifies this`created, this`duplicates, this`evidence
      ensures Valid()
      ensures var kept := page.relevant && !page.blank && (e.terminal || (e.depth > 0 && page.articleMarkup));
        stored ==> Keeps(old(evidence), old(created), old(duplicates), e.url, kept)
    {
      if IsArticle(e, page) && page.relevant && !page.blank {
        var reply := site.store(e.url);
        if reply == Refused {
          return false;
        }
        evidence := evidence + [e.url];
        created := created + if reply == Created then 1 else 0;
        duplicates := duplicates + if reply == Duplicate then 1 else 0;
      }
      stored := true;
    }

    /** The feeds a page announces, in automatic mode, and its links. */
    method FollowLinks(e: Entry, page: Page)
      requires GoodQueue() && page.Html? && e.depth < config.maxDepth && !IsArticle(e, page)
      modifies this`queue, this`queued, this`skipped
      ensures GoodQueue() && Added(old(queue), old(seen + queued), HtmlOffers(site, config, e, page))
      ensures |queue| + skipped == old(|queue| + skipped) + |page.anchors| + if config.mode == Auto then |page.feeds| else 0
    {
      var feeds: seq<Offer> := if config.mode == Auto then LinkOffers(page.feeds, true, true) else [];
      ghost var before, known := queue, seen + queued;
      NothingAdded();
      EnqueueAll(feeds, before, known, []);
      assert [] + feeds == feeds;
      EnqueueAnchors(page.anchors, e.depth + 1, before, known, feeds);
      assert HtmlOffers(site, config, e, page) == feeds + AnchorOffers(site, page.anchors, e.depth + 1);
    }

    /** The page of an entry that robots.txt allows. False when storing its article was refused,
        which ends the crawl with an exception. */
    method ReadHtml(e: Entry, page: Page) returns (stored: bool)
      requires Valid() && e.depth <= config.maxDepth && page.Html? && |evidence| < fetched
      modifies this`queue, this`queued, this`skipped, this`created, this`duplicates, this`evidence
      ensures Valid()
      ensures stored ==> Added(old(queue), old(seen + queued), HtmlOffers(site, config, e, page))
      ensures var kept := page.relevant && !page.blank && (e.terminal || (e.depth > 0 && page.articleMarkup));
        stored ==> Keeps(old(evidence), old(created), old(duplicates), e.url, kept)
      ensures stored && page == site.page(e.url) && site.robotsAllow(e.url) ==>
        |queue| + skipped == old(|queue| + skipped) + PutForward(site, config, e)
    {
      NothingAdded();
      stored := KeepArticle(e, page);
      if !stored || IsArticle(e, page) || e.depth >= config.maxDepth {
        return;
      }
      FollowLinks(e, page);
    }

    /** The links of a feed or sitemap, if it could be parsed. */
    method ReadLinks(links: Option<seq<string>>, terminal: bool, seed: bool)
      requires Valid()
      modifies this`queue, this`queued, this`skipped, this`errors
      ensures Valid()
      ensures Added(old(queue), old(seen + queued), if links.Some? then LinkOffers(links.value, terminal, seed) else [])
      ensures |queue| + skipped == old(|queue| + skipped) + if links.Some? then |links.value| else 0
      ensures errors == old(errors) + if links.None? then 1 else 0
    {
      NothingAdded();
      if links.None? {
        errors := errors + 1;
        return;
      }
      var offers := LinkOffers(links.value, terminal, seed);
      EnqueueAll(offers, queue, seen + queued, []);
      assert [] + offers == offers;
    }

    /** What is done with an answer. */
    method ReadPage(e: Entry, page: Page) returns (stored: bool)
      requires Valid() && e.depth <= config.maxDepth && page == site.page(e.url) && site.robotsAllow(e.url)
      requires page.RequestFailed? || |evidence| < fetched
      modifies this`queue, this`queued, this`skipped, this`created, this`duplicates, this`evidence, this`errors
      ensures Valid() && (page.RequestFailed? ==> queue == old(queue))
      ensures stored ==> Added(old(queue), old(seen + queued), Children(site, config, e))
      ensures stored ==> Keeps(old(evidence), old(created), old(duplicates), e.url, IsKept(site, e))
      ensures errors == old(errors) + if IsError(site, e) then 1 else 0
      ensures stored ==> |queue| + skipped == old(|queue| + skipped) + PutForward(site, config, e)
    {
      stored := true;
      match page {
        case RequestFailed => errors := errors + 1;
        case ErrorStatus => errors := errors + 1;
        case Feed(links) => ReadLinks(links, true, false);
        case Sitemap(isIndex, locations) => ReadLinks(locations, !isIndex, isIndex);
        case OtherMedia => skipped := skipped + 1;
        case Html(_, _, _, _, _) => stored := ReadHtml(e, page);
      }
    }

    /** `await active_client.get(entry.url)`; only an answered request counts. */
    method Request(e: Entry) returns (page: Page)
      requires Valid() && e.url in seen && e.url !in requested && fetched < config.maxPages
      modifies this`fetched, this`requested
      ensures Valid() && page == site.page(e.url) && requested == old(requested) + [e.url]
      ensures fetched == old(fetched) + if page.RequestFailed? then 0 else 1
    {
      requested := requested + [e.url];
      page := site.page(e.url);
      if !page.RequestFailed? {
        fetched := fetched + 1;
      }
    }

    /** One round of the loop after the entry was taken out of the queue. */
    method Visit(e: Entry) returns (stored: bool)
      requires Valid() && e.url in seen && e.url !in requested && e.depth <= config.maxDepth && fetched < config.maxPages
      modifies this`queue, this`queued, this`skipped, this`created, this`duplicates, this`evidence,
               this`fetched, this`errors, this`requested
      ensures Valid() && (fetched > old(fetched) || (fetched == old(fetched) && queue == old(queue)))
      ensures stored ==> Added(old(queue), old(seen + queued), Children(site, config, e))
      ensures stored ==> Keeps(old(evidence), old(created), old(duplicates), e.url, IsKept(site, e))
      ensures errors == old(errors) + if IsError(site, e) then 1 else 0
      ensures fetched == old(fetched) + if IsFetched(site, e) then 1 else 0
      ensures requested == old(requested) + if site.robotsAllow(e.url) then [e.url] else []
      ensures stored ==> |queue| + skipped == old(|queue| + skipped) + PutForward(site, config, e)
    {
      if !site.robotsAllow(e.url) {
        skipped := skipped + 1;
        return true;
      }
      var page := Request(e);
      stored := ReadPage(e, page);
    }

    /** The seeds. */
    method Start()
      requires Valid() && queue == [] && seen == {} && trail == []
      modifies this`queue, this`queued, this`skipped
      ensures Valid() && InOrder()
      ensures old(Recorded()) ==> Recorded()
      ensures |queue| + skipped == old(skipped) + |Seeds(site, config)|
    {
      ghost var page := SeedIf(config.mode == PageMode || config.mode == Auto, Offer(site.url, 0, false, true), []);
      ghost var feeds := SeedFeed(page);
      ghost var maps := SeedSitemap(feeds);
      assert maps == Seeds(site, config);
    }

    /** `feed_url`, in feed mode with the source itself in its place. */
    method SeedFeed(ghost offered: seq<Offer>) returns (ghost more: seq<Offer>)
      requires Valid() && Seeded(offered)
      modifies this`queue, this`queued, this`skipped
      ensures Valid() && Seeded(more) && |queue| + skipped == old(|queue| + skipped) + |more| - |offered|
      ensures more == offered
        + When(config.mode == Rss || Given(config.feedUrl), Offer(UrlOr(config.feedUrl, site.url), 0, true, true))
    {
      if config.mode == Rss {
        more := SeedIf(true, Offer(UrlOr(config.feedUrl, site.url), 0, true, true), offered);
      } else if Given(config.feedUrl) {
        more := SeedIf(true, Offer(config.feedUrl.value, 0, true, true), offered);
      } else {
        more := offered;
      }
    }

    /** `sitemap_url`, in sitemap mode with the source itself in its place, in automatic mode with the
        usual location. */
    method SeedSitemap(ghost offered: seq<Offer>) returns (ghost more: seq<Offer>)
      requires Valid() && Seeded(offered)
      modifies this`queue, this`queued, this`skipped
      ensures Valid() && Seeded(more) && |queue| + skipped == old(|queue| + skipped) + |more| - |offered|
      ensures more == offered
        + When(config.mode == SitemapMode || Given(config.sitemapUrl), Offer(UrlOr(config.sitemapUrl, site.url), 0, true, true))
        + When(config.mode == Auto && !Given(config.sitemapUrl), Offer(site.defaultSitemap, 0, true, true))
    {
      if config.mode == SitemapMode {
        more := SeedIf(true, Offer(UrlOr(config.sitemapUrl, site.url), 0, true, true), offered);
      } else if Given(config.sitemapUrl) {
        more := SeedIf(true, Offer(config.sitemapUrl.value, 0, true, true), offered);
      } else {
        more := offered;
      }
      more := SeedIf(config.mode == Auto && !Given(config.sitemapUrl), Offer(site.defaultSitemap, 0, true, true), more);
    }

    /** Everything offered so far has been taken up or skipped, and nothing else was taken up. */
    ghost predicate Seeded(offered: seq<Offer>)
      reads this
    {
      seen == {} && Added([], {}, offered)
    }

    /** One seed, under a condition. */
    method SeedIf(b: bool, o: Offer, ghost offered: seq<Offer>) returns (ghost more: seq<Offer>)
      requires Valid() && Seeded(offered) && o.depth == 0
      modifies this`queue, this`queued, this`skipped
      ensures Valid() && more == offered + When(b, o) && Seeded(more)
      ensures |queue| + skipped == old(|queue| + skipped) + |more| - |offered|
    {
      more := offered + When(b, o);
      if b {
        EnqueueNext(o, [], {}, offered);
      } else {
        assert more == offered;
      }
    }

    /** The body of the loop: either a page is counted or the queue gets shorter. */
    method Round() returns (stored: bool)
      requires Valid() && InOrder() && Recorded() && Balanced() && queue != [] && fetched < config.maxPages
      modifies this
      ensures Valid() && (stored ==> InOrder() && Recorded() && Balanced())
      ensures fetched > old(fetched) || (fetched == old(fetched) && |queue| < |old(queue)|)
    {
      ghost var before := trail;
      var e := TakeNext();
      ghost var waiting := queue;
      KnownUrls();
      stored := VisitNext(e, before);
      if stored { DiscoveredNext(site, config, before, e, waiting, queue); }
    }

    lemma KnownUrls()
      requires Valid()
      ensures Urls(trail + queue) == seen + queued
    {
      UrlsConcat(trail, queue);
      forall u ensures u in Urls(trail) <==> u in seen {
        if u in seen {
          var e :| e in visited && e.url == u;
          var i :| 0 <= i < |trail| && trail[i] == e;
          assert trail[i].url == u;
        }
        if i :| 0 <= i < |trail| && trail[i].url == u { assert trail[i] in trail; }
      }
    }

    /** The same visit, with what it adds to the accounts. */
    method VisitNext(e: Entry, ghost before: seq<Entry>) returns (stored: bool)
      requires Valid() && e.url in seen && e.url !in requested && e.depth <= config.maxDepth && fetched < config.maxPages
      requires trail == before + [e] && |queue| + |trail| + skipped == AllPutForward(site, config, before)
      requires Accounts(site, before, fetched, errors, created, duplicates, requested, evidence)
      modifies this`queue, this`queued, this`skipped, this`created, this`duplicates, this`evidence,
               this`fetched, this`errors, this`requested
      ensures Valid() && (stored ==> Recorded() && Balanced())
      ensures fetched > old(fetched) || (fetched == old(fetched) && queue == old(queue))
      ensures stored ==> Added(old(queue), old(seen + queued), Children(site, config, e))
    {
      AccountsNext(site, before, e, fetched, errors, created, duplicates, requested, evidence);
      PutForwardNext(site, config, before, e);
      stored := Visit(e);
    }

    /** What the crawl amounts to. `discovered` counts each URL once, the evidence is that of the
        articles among the entries visited, counted as the store answered, and every URL put
        forward was discovered or skipped. */
    ghost predicate Sums(r: Summary)
      reads this
    {
      && r == Summary(|seen + queued|, fetched, skipped, created, duplicates, |evidence|, errors)
      && ArticlesOf(site, visited, evidence)
      && created == |Replied(site, evidence, Created)| && duplicates == |Replied(site, evidence, Duplicate)|
      && r.discovered + r.skipped == AllPutForward(site, config, trail)
    }

    method Summarise() returns (r: Summary)
      requires Valid() && Recorded() && Balanced()
      ensures Sums(r)
    {
      QueueCount(queue);
      SeenCount(trail, seen);
      KeptAreArticles(site, trail, visited);
      AnsweredCount(site, trail, Created);
      AnsweredCount(site, trail, Duplicate);
      r := Summary(|seen| + |queue|, fetched, skipped, created, duplicates, |evidence|, errors);
    }

    /** `discover_and_scrape_source`. None when the store refused an article. */
    method Run() returns (r: Option<Summary>)
      requires Valid() && Recorded() && queue == [] && seen == {} && trail == [] && skipped == 0
      modifies this
      ensures Valid()
      ensures r.Some? ==> InOrder() && Closed() && (queue == [] || fetched == config.maxPages) && Recorded() && Sums(r.value)
    {
      Start();
      while queue != [] && fetched < config.maxPages
        invariant Valid() && InOrder() && Recorded() && Balanced()
        decreases config.maxPages - fetched, |queue|
      {
        var stored := Round();
        if !stored {
          return None;
        }
      }
      FoundAreOffered(site, config, trail, visited, trail + queue);
      var summary := Summarise();
      r := Some(summary);
    }
  }

  lemma {:induction false} QueueCount(queue: seq<Entry>)
    requires forall i, j :: 0 <= i < j < |queue| ==> queue[i].url != queue[j].url
    ensures |Urls(queue)| == |queue|
  {
    if queue != [] {
      UrlsShrink(queue);
      QueueCount(queue[1..]);
      assert queue[0].url in Urls(queue);
    }
  }

  lemma UrlsGrow(queue: seq<Entry>, e: Entry)
    ensures Urls(queue + [e]) == Urls(queue) + {e.url}
  {
    var more := queue + [e];
    forall u ensures u in Urls(more) <==> u in Urls(queue) || u == e.url {
      if u in Urls(queue) {
        var i :| 0 <= i < |queue| && queue[i].url == u;
        assert more[i].url == u;
      }
      if u == e.url { assert more[|queue|].url == u; }
      if u in Urls(more) && u != e.url {
        var i :| 0 <= i < |more| && more[i].url == u;
        assert queue[i].url == u;
      }
    }
  }

  lemma UrlsShrink(queue: seq<Entry>)
    requires queue != [] && forall i, j :: 0 <= i < j < |queue| ==> queue[i].url != queue[j].url
    ensures Urls(queue[1..]) == Urls(queue) - {queue[0].url}
  {
    var rest := queue[1..];
    forall u ensures u in Urls(rest) <==> u in Urls(queue) && u != queue[0].url {
      if u in Urls(rest) {
        var i :| 0 <= i < |rest| && rest[i].url == u;
        assert queue[i + 1].url == u;
      }
      if u in Urls(queue) && u != queue[0].url {
        var i :| 0 <= i < |queue| && queue[i].url == u;
        assert rest[i - 1].url == u;
      }
    }
  }
}
