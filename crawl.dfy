/** The crawl performed by `Builder.Build` in pkg/sitemap/builder.go, stated
    as pure definitions: what one page contributes, how a round turns a
    queue into the next queue, and how rounds follow each other up to the
    maximum depth. The imperative `Build` in module Sitemap is proved equal
    to `Crawl`; the lemmas below state what the crawl guarantees. */
module Crawler {
  import opened Wrappers
  import opened NetUrl

  /** What `client.Get` followed by `link.Find` yields for one URL. */
  datatype Page =
    | GetFailed                                // the request failed
    | FindFailed(request: Url)                 // the body could not be read for links
    | Fetched(request: Url, hrefs: seq<string>) // the final request URL and the hrefs found

  /** The HTTP client together with the link extractor. */
  type Client = string -> Page

  /** A filter returns the URL to record for a link found on a page, or None. */
  type FilterFunc = (Url, Url) -> Option<Url>

  /** The three outcomes of `findURLs`: an error from `Get`, an error from
      `link.Find` (which still carries the request URL), or the base URL
      and the links that parsed. */
  datatype FindResult = GetError | FindError(base: Url) | Found(base: Url, urls: seq<Url>)

  predicate IsWebScheme(scheme: string) { scheme == "http" || scheme == "https" }

  predicate NoDuplicates(s: seq<string>) { forall i, j :: 0 <= i < j < |s| ==> s[i] != s[j] }

  function Elems(s: seq<string>): (r: set<string>) { set x | x in s }

  // ---------------------------------------------------------------------
  // One page

  /** The hrefs that `parse` accepts, parsed, in their original order.
      `findURLs` uses it with `url.Parse` (`Parse`); the parser is a parameter
      so that the lemmas about this loop need not look inside `Parse`. */
  function ParsedHrefs(parse: string -> Option<Url>, hrefs: seq<string>): (r: seq<Url>)
    ensures |r| <= |hrefs|
  {
    if hrefs == [] then [] else ParsedOne(parse, hrefs[0]) + ParsedHrefs(parse, hrefs[1..])
  }

  /** One href, parsed, or nothing when the parser rejects it. */
  function ParsedOne(parse: string -> Option<Url>, href: string): (r: seq<Url>)
  {
    match parse(href) case Some(u) => [u] case None => []
  }

  /** What `findURLs` returns for `rawurl`. */
  function FindURLsOf(client: Client, rawurl: string): (r: FindResult)
  {
    match client(rawurl)
    case GetFailed => GetError
    case FindFailed(request) => FindError(request)
    case Fetched(request, hrefs) => Found(request, ParsedHrefs(Parse, hrefs))
  }

  /** The keys `Build` tries to record for the links of one page: the string
      form of every link the filter accepts, in order. */
  function Accepted(filter: FilterFunc, base: Url, urls: seq<Url>): (r: seq<string>)
    ensures |r| <= |urls|
  {
    if urls == [] then []
    else
      (match filter(base, urls[0]) case Some(v) => [v.String()] case None => [])
        + Accepted(filter, base, urls[1..])
  }

  /** The keys one fetched page contributes; a page whose `findURLs` fails
      contributes nothing. */
  function Discover(client: Client, filter: FilterFunc, page: string): (r: seq<string>)
  {
    match FindURLsOf(client, page)
    case Found(base, urls) => Accepted(filter, base, urls)
    case _ => []
  }

  /** The keys each page contributes, as one function: what a round needs to
      know about the client and the filter. */
  type Links = string -> seq<string>

  function LinksOf(client: Client, filter: FilterFunc): (r: Links)
  {
    page => Discover(client, filter, page)
  }

  /** Everything the given pages contribute. */
  function DiscoveredBy(links: Links, pages: seq<string>): (r: set<string>)
  {
    if pages == [] then {}
    else Elems(links(pages[0])) + DiscoveredBy(links, pages[1..])
  }

  // ---------------------------------------------------------------------
  // Rounds

  /** The `seen` set and the `next` queue while a round is in progress. */
  datatype Frontier = Frontier(seen: set<string>, next: seq<string>)

  /** The inner loop of `Build`: each key not yet seen is marked seen and
      appended to the next queue. */
  function AddNew(f: Frontier, found: seq<string>): (r: Frontier)
    decreases |found|
  {
    if found == [] then f
    else if found[0] in f.seen then AddNew(f, found[1..])
    else AddNew(Frontier(f.seen + {found[0]}, f.next + [found[0]]), found[1..])
  }

  /** Processes the rest of a round's queue, page by page. */
  function RoundFrom(links: Links, f: Frontier, queue: seq<string>): (r: Frontier)
    decreases |queue|
  {
    if queue == [] then f
    else RoundFrom(links, AddNew(f, links(queue[0])), queue[1..])
  }

  /** The queue holds exactly the keys added to `seen` since `seen0`, once each. */
  ghost predicate FreshOver(f: Frontier, seen0: set<string>)
  {
    seen0 <= f.seen && NoDuplicates(f.next) && Elems(f.next) == f.seen - seen0
  }

  /** One round: fetch every page of `queue` in order, starting from `seen`
      and an empty next queue. */
  function Round(links: Links, seen: set<string>, queue: seq<string>): (r: Frontier)
  {
    RoundFrom(links, Frontier(seen, []), queue)
  }

  /** After a round everything its pages link to is seen, and the next queue
      holds exactly the newly seen keys, each once. */
  lemma RoundFreshKeys(links: Links, seen: set<string>, queue: seq<string>)
    ensures var r := Round(links, seen, queue);
      && r.seen == seen + DiscoveredBy(links, queue)
      && NoDuplicates(r.next) && Elems(r.next) == r.seen - seen
  {
    RoundFromFresh(links, Frontier(seen, []), queue, seen);
  }

  /** The result of a crawl: the final `seen` set and the queue fetched in
      each round. */
  datatype Outcome = Outcome(seen: set<string>, rounds: seq<seq<string>>)

  /** The depth loop of `Build`, from round `depth` on. It stops after round
      `maxDepth - 1`, or after the first round that adds nothing. */
  function CrawlFrom(links: Links, f: Frontier, depth: int, maxDepth: int): (o: Outcome)
    ensures |o.rounds| <= if depth < maxDepth then maxDepth - depth else 0
    ensures depth < maxDepth ==> |o.rounds| > 0 && o.rounds[0] == f.next
    decreases maxDepth - depth
  {
    if depth >= maxDepth then Outcome(f.seen, [])
    else
      var g := Round(links, f.seen, f.next);
      if g.next == [] then Outcome(g.seen, [f.next])
      else
        var o := CrawlFrom(links, g, depth + 1, maxDepth);
        Outcome(o.seen, [f.next] + o.rounds)
  }

  /** The crawl from `root`: `seen` starts empty and round 0 fetches the root
      alone. At most `maxDepth` rounds run; none when `maxDepth <= 0`. */
  function Crawl(client: Client, filter: FilterFunc, root: string, maxDepth: int): (o: Outcome)
    ensures maxDepth <= 0 ==> o.seen == {} && o.rounds == []
    ensures maxDepth > 0 ==> 0 < |o.rounds| <= maxDepth && o.rounds[0] == [root]
  {
    CrawlFrom(LinksOf(client, filter), Frontier({}, [root]), 0, maxDepth)
  }

  function Flatten(rounds: seq<seq<string>>): (r: seq<string>)
  {
    if rounds == [] then [] else rounds[0] + Flatten(rounds[1..])
  }

  /** Every URL handed to `findURLs`, in order. */
  function Fetched(o: Outcome): (r: seq<string>)
  {
    Flatten(o.rounds)
  }

  // ---------------------------------------------------------------------
  // The default filter

  /** `defaultFilter`: drops links whose string form starts with `#`, resolves
      the rest against the page's URL and keeps the result only when it is
      http or https on the page's own host. */
  function DefaultFilter(base: Url, u: Url): (r: Option<Url>)
    ensures HasPrefix(u.String(), "#") ==> r.None?
    ensures r.Some? ==> r.value == ResolveReference(base, u) && IsWebScheme(r.value.scheme) && r.value.host == base.host
    ensures (!HasPrefix(u.String(), "#") && IsWebScheme(ResolveReference(base, u).scheme)
             && ResolveReference(base, u).host == base.host) ==> r.Some?
  {
    if HasPrefix(u.String(), "#") then None
    else
      var result := ResolveReference(base, u);
      if IsWebScheme(result.scheme) && result.host == base.host then Some(result) else None
  }

  // ---------------------------------------------------------------------
  // Lemmas: one page

  /** Parsing a concatenation parses each part: the order of hrefs is kept. */
  lemma {:induction false} ParsedHrefsAppend(parse: string -> Option<Url>, a: seq<string>, b: seq<string>)
    ensures ParsedHrefs(parse, a + b) == ParsedHrefs(parse, a) + ParsedHrefs(parse, b)
  {
    if a == [] {
      assert a + b == b;
    } else {
      assert (a + b)[0] == a[0] && (a + b)[1..] == a[1..] + b;
      ParsedHrefsAppend(parse, a[1..], b);
    }
  }

  /** A URL is among the parsed hrefs exactly when some href parses to it. */
  lemma {:induction false} ParsedHrefsMembers(parse: string -> Option<Url>, hrefs: seq<string>, u: Url)
    ensures u in ParsedHrefs(parse, hrefs) <==> exists h :: h in hrefs && parse(h) == Some(u)
  {
    if hrefs != [] {
      ParsedHrefsMembers(parse, hrefs[1..], u);
      assert forall h :: h in hrefs <==> h == hrefs[0] || h in hrefs[1..];
    }
  }

  /** A key comes from a page exactly when the filter accepted one of its links
      and the key is the accepted URL's string form. */
  lemma {:induction false} AcceptedMembers(filter: FilterFunc, base: Url, urls: seq<Url>, s: string)
    ensures s in Accepted(filter, base, urls)
        <==> exists j :: 0 <= j < |urls| && filter(base, urls[j]).Some? && filter(base, urls[j]).value.String() == s
  {
    if urls != [] {
      AcceptedMembers(filter, base, urls[1..], s);
      if s in Accepted(filter, base, urls[1..]) {
        var j :| 0 <= j < |urls[1..]| && filter(base, urls[1..][j]).Some? && filter(base, urls[1..][j]).value.String() == s;
        assert urls[j + 1] == urls[1..][j];
      }
      if exists j :: 0 <= j < |urls| && filter(base, urls[j]).Some? && filter(base, urls[j]).value.String() == s {
        var j :| 0 <= j < |urls| && filter(base, urls[j]).Some? && filter(base, urls[j]).value.String() == s;
        if j > 0 { assert urls[1..][j - 1] == urls[j]; }
      }
    }
  }

  /** `s` is the string form of an http or https URL on `host`. */
  ghost predicate OnSite(s: string, host: string)
  {
    exists v: Url :: v.String() == s && IsWebScheme(v.scheme) && v.host == host
  }

  /** With the default filter, every key a page contributes is an http or
      https URL on the host of that page's final request URL. */
  lemma DefaultDiscoverOnSite(client: Client, page: string, s: string)
    requires s in Discover(client, DefaultFilter, page)
    ensures FindURLsOf(client, page).Found?
    ensures OnSite(s, FindURLsOf(client, page).base.host)
  {
    var found := FindURLsOf(client, page);
    AcceptedMembers(DefaultFilter, found.base, found.urls, s);
    var j :| 0 <= j < |found.urls| && DefaultFilter(found.base, found.urls[j]).Some?
             && DefaultFilter(found.base, found.urls[j]).value.String() == s;
    var v := DefaultFilter(found.base, found.urls[j]).value;
    assert v.String() == s && IsWebScheme(v.scheme) && v.host == found.base.host;
  }

  /** An href of the form `#name` is parsed to a fragment-only reference and
      rejected. */
  lemma HashLinkRejected(base: Url, href: string)
    requires |href| >= 2 && href[0] == '#'
    requires Parse(href).Some?
    ensures DefaultFilter(base, Parse(href).value) == None
  {
    assert href == "#" + href[1..];
    ParseFragmentOnly(href[1..]);
    var u := Parse(href).value;
    assert u.String() == "#" + href[1..];
    assert HasPrefix(u.String(), "#");
  }

  /** A bare `#` parses to the empty reference, whose string form is empty, so
      the `#` test does not catch it: it resolves to the page itself, which is
      kept when the page is http or https. */
  lemma BareHashKeepsPage(base: Url)
    requires base.opaquePart == "" && !base.forceQuery && (base.path == "" || base.path[0] == '/')
    ensures Parse("#") == Some(Empty)
    ensures DefaultFilter(base, Empty) == if IsWebScheme(base.scheme) then Some(base) else None
  {
    assert Empty.String() == "";
    ResolveEmptyReference(base);
    ParseBareHash();
  }

  /** A link to another host is never kept. */
  lemma OtherHostRejected(base: Url, u: Url)
    requires u.host != "" && u.host != base.host
    ensures DefaultFilter(base, u) == None
  {
  }

  /** A path-relative link stays on the page's host, so it is kept exactly
      when the page itself is http or https. */
  lemma RelativeLinkKeptOnWebPage(base: Url, u: Url)
    requires u.scheme == "" && u.host == "" && u.opaquePart == "" && !HasPrefix(u.String(), "#")
    ensures DefaultFilter(base, u).Some? <==> IsWebScheme(base.scheme)
  {
  }

  // ---------------------------------------------------------------------
  // Lemmas: rounds

  lemma NoDuplicatesAppend(a: seq<string>, b: seq<string>)
    requires NoDuplicates(a) && NoDuplicates(b) && Elems(a) !! Elems(b)
    ensures NoDuplicates(a + b)
  {
    forall i, j | 0 <= i < j < |a + b| ensures (a + b)[i] != (a + b)[j] {
      if j < |a| {
      } else if i >= |a| {
        assert (a + b)[i] == b[i - |a|] && (a + b)[j] == b[j - |a|];
      } else {
        assert (a + b)[i] in Elems(a) && (a + b)[j] == b[j - |a|] && b[j - |a|] in Elems(b);
      }
    }
  }

  lemma ElemsAppend(a: seq<string>, b: seq<string>)
    ensures Elems(a + b) == Elems(a) + Elems(b)
  {
  }

  /** One step of `AddNew`. */
  lemma AddNewCons(f: Frontier, x: string, rest: seq<string>)
    ensures AddNew(f, [x] + rest)
         == if x in f.seen then AddNew(f, rest) else AddNew(Frontier(f.seen + {x}, f.next + [x]), rest)
  {
    assert ([x] + rest)[0] == x && ([x] + rest)[1..] == rest;
  }

  lemma {:induction false} AddNewKeepsFresh(f: Frontier, found: seq<string>, seen0: set<string>)
    requires FreshOver(f, seen0)
    ensures FreshOver(AddNew(f, found), seen0)
    ensures AddNew(f, found).seen == f.seen + Elems(found)
    decreases |found|
  {
    if found != [] {
      var x := found[0];
      assert Elems(found) == {x} + Elems(found[1..]);
      if x in f.seen {
        AddNewKeepsFresh(f, found[1..], seen0);
      } else {
        var f' := Frontier(f.seen + {x}, f.next + [x]);
        NoDuplicatesAppend(f.next, [x]);
        ElemsAppend(f.next, [x]);
        AddNewKeepsFresh(f', found[1..], seen0);
      }
    }
  }

  lemma {:induction false} RoundFromFresh(links: Links, f: Frontier, queue: seq<string>, seen0: set<string>)
    requires FreshOver(f, seen0)
    ensures FreshOver(RoundFrom(links, f, queue), seen0)
    ensures RoundFrom(links, f, queue).seen == f.seen + DiscoveredBy(links, queue)
    decreases |queue|
  {
    if queue != [] {
      var g := AddNew(f, links(queue[0]));
      AddNewKeepsFresh(f, links(queue[0]), seen0);
      RoundFromFresh(links, g, queue[1..], seen0);
    }
  }

  lemma {:induction false} DiscoveredByAppend(links: Links, a: seq<string>, b: seq<string>)
    ensures DiscoveredBy(links, a + b) == DiscoveredBy(links, a) + DiscoveredBy(links, b)
  {
    if a != [] {
      calc {
        DiscoveredBy(links, a + b);
        Elems(links((a + b)[0])) + DiscoveredBy(links, (a + b)[1..]);
        { assert (a + b)[0] == a[0] && (a + b)[1..] == a[1..] + b; }
        Elems(links(a[0])) + DiscoveredBy(links, a[1..] + b);
        { DiscoveredByAppend(links, a[1..], b); }
        Elems(links(a[0])) + (DiscoveredBy(links, a[1..]) + DiscoveredBy(links, b));
      }
    } else {
      assert a + b == b;
    }
  }

  /** A key is discovered by some pages exactly when one of them contributes it. */
  lemma {:induction false} DiscoveredByMembers(links: Links, pages: seq<string>, s: string)
    ensures s in DiscoveredBy(links, pages)
        <==> exists k :: 0 <= k < |pages| && s in links(pages[k])
  {
    if pages != [] {
      DiscoveredByMembers(links, pages[1..], s);
      if s in DiscoveredBy(links, pages[1..]) {
        var k :| 0 <= k < |pages[1..]| && s in links(pages[1..][k]);
        assert pages[k + 1] == pages[1..][k];
      }
      if exists k :: 0 <= k < |pages| && s in links(pages[k]) {
        var k :| 0 <= k < |pages| && s in links(pages[k]);
        if k > 0 { assert pages[1..][k - 1] == pages[k]; }
      }
    }
  }

  lemma FlattenCons(r: seq<string>, rs: seq<seq<string>>)
    ensures Flatten([r] + rs) == r + Flatten(rs)
  {
    assert ([r] + rs)[1..] == rs;
  }

  /** The final `seen` is what was seen at the start plus everything the
      fetched pages contributed. */
  lemma {:induction false} CrawlFromSeen(links: Links, f: Frontier, depth: int, maxDepth: int)
    ensures var o := CrawlFrom(links, f, depth, maxDepth);
      o.seen == f.seen + DiscoveredBy(links, Flatten(o.rounds))
    decreases maxDepth - depth
  {
    if depth < maxDepth {
      var g := Round(links, f.seen, f.next);
      RoundFreshKeys(links, f.seen, f.next);
      if g.next == [] {
        FlattenCons(f.next, []);
        assert f.next + [] == f.next;
      } else {
        var o := CrawlFrom(links, g, depth + 1, maxDepth);
        CrawlFromSeen(links, g, depth + 1, maxDepth);
        FlattenCons(f.next, o.rounds);
        DiscoveredByAppend(links, f.next, Flatten(o.rounds));
      }
    }
  }

  /** Once the queue is made of seen keys without repetition, every key
      fetched from here on is fetched once, is seen, and (beyond the current
      queue) was not seen when this round began. */
  lemma {:induction false} CrawlFromQueuedOnce(links: Links, f: Frontier, depth: int, maxDepth: int)
    requires NoDuplicates(f.next) && Elems(f.next) <= f.seen
    ensures var o := CrawlFrom(links, f, depth, maxDepth);
      && NoDuplicates(Flatten(o.rounds))
      && Elems(Flatten(o.rounds)) <= o.seen
      && Elems(Flatten(o.rounds)) * f.seen <= Elems(f.next)
    decreases maxDepth - depth
  {
    if depth < maxDepth {
      var g := Round(links, f.seen, f.next);
      RoundFreshKeys(links, f.seen, f.next);
      if g.next == [] {
        FlattenCons(f.next, []);
        assert f.next + [] == f.next;
      } else {
        var o := CrawlFrom(links, g, depth + 1, maxDepth);
        CrawlFromQueuedOnce(links, g, depth + 1, maxDepth);
        CrawlFromSeen(links, g, depth + 1, maxDepth);
        FlattenCons(f.next, o.rounds);
        ElemsAppend(f.next, Flatten(o.rounds));
        assert Elems(Flatten(o.rounds)) * f.seen == {};
        NoDuplicatesAppend(f.next, Flatten(o.rounds));
      }
    }
  }

  /** When the crawl ends before its last allowed round, everything newly
      seen has also been fetched. */
  lemma {:induction false} CrawlFromEarlyStop(links: Links, f: Frontier, depth: int, maxDepth: int)
    ensures var o := CrawlFrom(links, f, depth, maxDepth);
      |o.rounds| < maxDepth - depth ==> o.seen - f.seen <= Elems(Flatten(o.rounds))
    decreases maxDepth - depth
  {
    if depth < maxDepth {
      var g := Round(links, f.seen, f.next);
      RoundFreshKeys(links, f.seen, f.next);
      if g.next != [] {
        var o := CrawlFrom(links, g, depth + 1, maxDepth);
        CrawlFromEarlyStop(links, g, depth + 1, maxDepth);
        FlattenCons(f.next, o.rounds);
        ElemsAppend(f.next, Flatten(o.rounds));
        if |o.rounds| > 0 {
          assert o.rounds == [o.rounds[0]] + o.rounds[1..];
          FlattenCons(o.rounds[0], o.rounds[1..]);
          ElemsAppend(o.rounds[0], Flatten(o.rounds[1..]));
        }
      }
    }
  }

  /** Every round after the first has a non-empty queue. */
  ghost predicate LaterRoundsNonEmpty(rounds: seq<seq<string>>)
  {
    forall k :: 0 < k < |rounds| ==> |rounds[k]| > 0
  }

  /** The depth loop breaks as soon as a round queues nothing, so no later
      round starts with an empty queue. */
  lemma {:induction false} CrawlFromLaterRoundsNonEmpty(links: Links, f: Frontier, depth: int, maxDepth: int)
    ensures LaterRoundsNonEmpty(CrawlFrom(links, f, depth, maxDepth).rounds)
    decreases maxDepth - depth
  {
    if depth < maxDepth {
      var g := Round(links, f.seen, f.next);
      RoundFreshKeys(links, f.seen, f.next);
      if g.next != [] {
        var o := CrawlFrom(links, g, depth + 1, maxDepth);
        CrawlFromLaterRoundsNonEmpty(links, g, depth + 1, maxDepth);
        var rounds := [f.next] + o.rounds;
        assert CrawlFrom(links, f, depth, maxDepth).rounds == rounds;
        forall k | 0 < k < |rounds|
          ensures |rounds[k]| > 0
        {
          assert rounds[k] == o.rounds[k - 1];
        }
      }
    }
  }

  // ---------------------------------------------------------------------
  // Lemmas: the whole crawl

  /** The result is exactly the set of keys the fetched pages contributed. */
  lemma CrawlSeenIsDiscovered(client: Client, filter: FilterFunc, root: string, maxDepth: int)
    ensures var o := Crawl(client, filter, root, maxDepth);
      o.seen == DiscoveredBy(LinksOf(client, filter), Fetched(o))
  {
    CrawlFromSeen(LinksOf(client, filter), Frontier({}, [root]), 0, maxDepth);
  }

  /** Round 0 fetches the root; after it, no URL is fetched twice, and every
      URL fetched after round 0 is in the result. */
  lemma CrawlQueuedOnce(client: Client, filter: FilterFunc, root: string, maxDepth: int)
    requires maxDepth > 0
    ensures var o := Crawl(client, filter, root, maxDepth);
      && |Fetched(o)| > 0 && Fetched(o)[0] == root
      && NoDuplicates(Fetched(o)[1..])
      && Elems(Fetched(o)[1..]) <= o.seen
  {
    var f := Frontier({}, [root]);
    var g := Round(LinksOf(client, filter), {}, [root]);
    RoundFreshKeys(LinksOf(client, filter), {}, [root]);
    var o := Crawl(client, filter, root, maxDepth);
    if g.next == [] {
      assert o.rounds == [[root]];
      FlattenCons([root], []);
      assert [[root]] + [] == [[root]];
      assert Fetched(o) == [root];
    } else {
      var o' := CrawlFrom(LinksOf(client, filter), g, 1, maxDepth);
      CrawlFromQueuedOnce(LinksOf(client, filter), g, 1, maxDepth);
      FlattenCons([root], o'.rounds);
      assert Fetched(o)[1..] == Flatten(o'.rounds);
    }
  }

  /** A crawl that stops before `maxDepth` rounds is complete: every key in
      the result has been fetched. */
  lemma CrawlEarlyStopFetchedAll(client: Client, filter: FilterFunc, root: string, maxDepth: int)
    ensures var o := Crawl(client, filter, root, maxDepth);
      |o.rounds| < maxDepth ==> o.seen <= Elems(Fetched(o))
  {
    CrawlFromEarlyStop(LinksOf(client, filter), Frontier({}, [root]), 0, maxDepth);
  }

  /** No round of the crawl has an empty queue. */
  lemma CrawlRoundsNonEmpty(client: Client, filter: FilterFunc, root: string, maxDepth: int)
    ensures var o := Crawl(client, filter, root, maxDepth);
      forall k :: 0 <= k < |o.rounds| ==> |o.rounds[k]| > 0
  {
    var o := Crawl(client, filter, root, maxDepth);
    CrawlFromLaterRoundsNonEmpty(LinksOf(client, filter), Frontier({}, [root]), 0, maxDepth);
    assert o.rounds != [] ==> o.rounds[0] == [root];
  }

  /** Every key in the result is the string form of a URL that the filter
      accepted for a link of some page the crawl fetched. */
  lemma CrawlResultAccepted(client: Client, filter: FilterFunc, root: string, maxDepth: int, s: string)
    requires s in Crawl(client, filter, root, maxDepth).seen
    ensures var o := Crawl(client, filter, root, maxDepth);
      exists k :: 0 <= k < |Fetched(o)| && FindURLsOf(client, Fetched(o)[k]).Found?
                  && s in Accepted(filter, FindURLsOf(client, Fetched(o)[k]).base, FindURLsOf(client, Fetched(o)[k]).urls)
  {
    var o := Crawl(client, filter, root, maxDepth);
    CrawlSeenIsDiscovered(client, filter, root, maxDepth);
    DiscoveredByMembers(LinksOf(client, filter), Fetched(o), s);
    var k :| 0 <= k < |Fetched(o)| && s in LinksOf(client, filter)(Fetched(o)[k]);
    assert FindURLsOf(client, Fetched(o)[k]).Found?;
  }

  /** With the default filter every key in the result is an http or https URL
      on the host of the final URL of some page the crawl fetched. */
  lemma CrawlDefaultOnSite(client: Client, root: string, maxDepth: int, s: string)
    requires s in Crawl(client, DefaultFilter, root, maxDepth).seen
    ensures var o := Crawl(client, DefaultFilter, root, maxDepth);
      exists k :: 0 <= k < |Fetched(o)| && FindURLsOf(client, Fetched(o)[k]).Found?
                  && OnSite(s, FindURLsOf(client, Fetched(o)[k]).base.host)
  {
    var o := Crawl(client, DefaultFilter, root, maxDepth);
    CrawlSeenIsDiscovered(client, DefaultFilter, root, maxDepth);
    DiscoveredByMembers(LinksOf(client, DefaultFilter), Fetched(o), s);
    var k :| 0 <= k < |Fetched(o)| && s in LinksOf(client, DefaultFilter)(Fetched(o)[k]);
    DefaultDiscoverOnSite(client, Fetched(o)[k], s);
  }
}
