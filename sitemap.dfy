/** The sitemap builder of pkg/sitemap/builder.go and its options from
    pkg/sitemap/options.go. `Builder` keeps the four fields of the Go struct;
    `Build` is the breadth-first crawl, written as the Go code writes it and
    proved equal to `Crawler.Crawl`. */
module Sitemap {
  import opened Wrappers
  import opened NetUrl
  import opened Crawler

  /** The options `NewBuilder` takes. Each stands for the closure that the
      Go function of the same name returns. */
  datatype OptionFunc =
    | WithClient(client: Client)
    | WithFilter(filter: FilterFunc)
    | WithMaxDepth(maxDepth: int)
    | WithConcurrentRequests(concurrentRequests: int)

  /** Why `Build` refuses a root URL. */
  datatype BuildError =
    | ParseError                        // `url.Parse` failed
    | UnsupportedScheme(scheme: string) // "rootURL schema is not supported"

  /** The value an option sets for one field, if the option is about that field. */
  function ClientOf(opt: OptionFunc): (r: Option<Client>) { if opt.WithClient? then Some(opt.client) else None }
  function FilterOf(opt: OptionFunc): (r: Option<FilterFunc>) { if opt.WithFilter? then Some(opt.filter) else None }
  function MaxDepthOf(opt: OptionFunc): (r: Option<int>) { if opt.WithMaxDepth? then Some(opt.maxDepth) else None }
  function ConcurrentRequestsOf(opt: OptionFunc): (r: Option<int>)
  {
    if opt.WithConcurrentRequests? then Some(opt.concurrentRequests) else None
  }

  /** The value set by the last option that `pick` recognises, or `default`
      when none does. */
  function Last<T>(opts: seq<OptionFunc>, pick: OptionFunc -> Option<T>, default: T): (r: T)
  {
    if opts == [] then default
    else
      match pick(opts[|opts| - 1])
      case Some(v) => v
      case None => Last(opts[..|opts| - 1], pick, default)
  }

  /** A field no option mentions keeps its default. */
  lemma {:induction false} LastWithoutOption<T>(opts: seq<OptionFunc>, pick: OptionFunc -> Option<T>, default: T)
    requires forall i :: 0 <= i < |opts| ==> pick(opts[i]).None?
    ensures Last(opts, pick, default) == default
  {
    if opts != [] {
      var init := opts[..|opts| - 1];
      assert forall i :: 0 <= i < |init| ==> init[i] == opts[i];
      LastWithoutOption(init, pick, default);
    }
  }

  /** A field ends up with its default or with a value one of the options gave. */
  lemma {:induction false} LastComesFromAnOption<T>(opts: seq<OptionFunc>, pick: OptionFunc -> Option<T>, default: T)
    ensures || Last(opts, pick, default) == default
            || exists i :: 0 <= i < |opts| && pick(opts[i]) == Some(Last(opts, pick, default))
  {
    if opts != [] && pick(opts[|opts| - 1]).None? {
      var init := opts[..|opts| - 1];
      LastComesFromAnOption(init, pick, default);
      if Last(init, pick, default) != default {
        var i :| 0 <= i < |init| && pick(init[i]) == Some(Last(init, pick, default));
        assert opts[i] == init[i];
      }
    }
  }

  /** Options about other fields, given later, do not change a field. */
  lemma {:induction false} LastIgnoresOtherOptions<T>(opts: seq<OptionFunc>, more: seq<OptionFunc>, pick: OptionFunc -> Option<T>, default: T)
    requires forall i :: 0 <= i < |more| ==> pick(more[i]).None?
    ensures Last(opts + more, pick, default) == Last(opts, pick, default)
    decreases |more|
  {
    if more == [] {
      assert opts + more == opts;
    } else {
      var init := more[..|more| - 1];
      assert (opts + more)[|opts + more| - 1] == more[|more| - 1];
      assert (opts + more)[..|opts + more| - 1] == opts + init;
      assert forall i :: 0 <= i < |init| ==> init[i] == more[i];
      LastIgnoresOtherOptions(opts, init, pick, default);
    }
  }

  /** The sitemap builder. */
  class Builder {
    var client: Client
    var filter: FilterFunc
    var maxDepth: int
    /** Stored but never read by `Build`. */
    var concurrentRequests: int

    /** `NewBuilder`: the defaults (the default client, `DefaultFilter`, depth
        3, one request per CPU), then every option in order. `defaultClient`
        stands for `http.DefaultClient` and `numCPU` for `runtime.NumCPU()`. */
    constructor (defaultClient: Client, numCPU: int, opts: seq<OptionFunc>)
      ensures client == Last(opts, ClientOf, defaultClient)
      ensures filter == Last(opts, FilterOf, DefaultFilter)
      ensures maxDepth == Last(opts, MaxDepthOf, 3)
      ensures concurrentRequests == Last(opts, ConcurrentRequestsOf, numCPU)
    {
      client := defaultClient;
      filter := DefaultFilter;
      maxDepth := 3;
      concurrentRequests := numCPU;
      new;
      for i := 0 to |opts|
        invariant client == Last(opts[..i], ClientOf, defaultClient)
        invariant filter == Last(opts[..i], FilterOf, DefaultFilter)
        invariant maxDepth == Last(opts[..i], MaxDepthOf, 3)
        invariant concurrentRequests == Last(opts[..i], ConcurrentRequestsOf, numCPU)
      {
        Apply(opts[i]);
        assert opts[..i + 1][..i] == opts[..i];
      }
      assert opts[..|opts|] == opts;
    }

    /** The closure returned by `WithClient`: sets `client` only. */
    method SetClient(c: Client)
      modifies this
      ensures client == c
      ensures filter == old(filter) && maxDepth == old(maxDepth) && concurrentRequests == old(concurrentRequests)
    {
      client := c;
    }

    /** The closure returned by `WithFilter`: sets `filter` only. */
    method SetFilter(f: FilterFunc)
      modifies this
      ensures filter == f
      ensures client == old(client) && maxDepth == old(maxDepth) && concurrentRequests == old(concurrentRequests)
    {
      filter := f;
    }

    /** The closure returned by `WithMaxDepth`: sets `maxDepth` only. */
    method SetMaxDepth(d: int)
      modifies this
      ensures maxDepth == d
      ensures client == old(client) && filter == old(filter) && concurrentRequests == old(concurrentRequests)
    {
      maxDepth := d;
    }

    /** The closure returned by `WithConcurrentRequests`: sets
        `concurrentRequests` only. */
    method SetConcurrentRequests(n: int)
      modifies this
      ensures concurrentRequests == n
      ensures client == old(client) && filter == old(filter) && maxDepth == old(maxDepth)
    {
      concurrentRequests := n;
    }

    /** `opt(b)`: the field the option is about takes its value, the others
        are unchanged. */
    method Apply(opt: OptionFunc)
      modifies this
      ensures client == (match ClientOf(opt) case Some(c) => c case None => old(client))
      ensures filter == (match FilterOf(opt) case Some(f) => f case None => old(filter))
      ensures maxDepth == (match MaxDepthOf(opt) case Some(d) => d case None => old(maxDepth))
      ensures concurrentRequests
              == (match ConcurrentRequestsOf(opt) case Some(n) => n case None => old(concurrentRequests))
    {
      match opt {
        case WithClient(c) => SetClient(c);
        case WithFilter(f) => SetFilter(f);
        case WithMaxDepth(d) => SetMaxDepth(d);
        case WithConcurrentRequests(n) => SetConcurrentRequests(n);
      }
    }

    /** `findURLs`: fetches `rawurl` and parses the hrefs of the page, dropping
        those `url.Parse` rejects; the base is the final request URL. */
    method FindURLs(rawurl: string) returns (r: FindResult)
      ensures r == FindURLsOf(client, rawurl)
    {
      match client(rawurl) {
        case GetFailed =>
          r := GetError;
        case FindFailed(request) =>
          r := FindError(request);
        case Fetched(request, hrefs) =>
          var found := ParseHrefs(Parse, hrefs);
          r := Found(request, found);
      }
    }

    /** `Build`: validates the root, runs the rounds of fetching, and returns
        the keys of `seen`, each once, in an arbitrary order. `rounds` records
        the queue fetched in each round. */
    method Build(rootURL: string) returns (r: Result<seq<string>, BuildError>, ghost rounds: seq<seq<string>>)
      ensures Parse(rootURL).None? ==> r == Failure(ParseError)
      ensures Parse(rootURL).Some? && !IsWebScheme(Parse(rootURL).value.scheme)
              ==> r == Failure(UnsupportedScheme(Parse(rootURL).value.scheme))
      ensures Parse(rootURL).Some? && IsWebScheme(Parse(rootURL).value.scheme) ==>
                var o := Crawl(client, filter, Parse(rootURL).value.String(), maxDepth);
                r.Success? && NoDuplicates(r.value) && Elems(r.value) == o.seen && rounds == o.rounds
    {
      rounds := [];
      var parsed := Parse(rootURL);
      if parsed.None? {
        return Failure(ParseError), rounds;
      }
      var root := parsed.value;
      if root.scheme != "http" && root.scheme != "https" {
        return Failure(UnsupportedScheme(root.scheme)), rounds;
      }
      var seen;
      seen, rounds := Rounds(root.String(), LinksOf(client, filter));

      var entries := Entries(seen);
      r := Success(entries);
    }

    /** The depth loop of `Build` (builder.go lines 60-90): `seen` starts
        empty, round 0 fetches the root, and each round queues the keys it
        sees for the first time. `links` is what each page contributes. */
    method Rounds(root: string, ghost links: Links) returns (seen: set<string>, ghost rounds: seq<seq<string>>)
      requires forall p {:trigger Discover(client, filter, p)} :: links(p) == Discover(client, filter, p)
      ensures seen == CrawlFrom(links, Frontier({}, [root]), 0, maxDepth).seen
      ensures rounds == CrawlFrom(links, Frontier({}, [root]), 0, maxDepth).rounds
    {
      ghost var goal := CrawlFrom(links, Frontier({}, [root]), 0, maxDepth);
      seen := {};
      rounds := [];
      var queue: seq<string>;
      var next := [root];
      var depth := 0;
      while depth < maxDepth
        invariant goal.seen == CrawlFrom(links, Frontier(seen, next), depth, maxDepth).seen
        invariant goal.rounds == rounds + CrawlFrom(links, Frontier(seen, next), depth, maxDepth).rounds
        decreases maxDepth - depth
      {
        queue := next;
        ghost var done := rounds;
        seen, next := RunRound(queue, seen, links);
        rounds := rounds + [queue];
        if |next| == 0 {
          break;
        }
        RoundsShift(done, queue, CrawlFrom(links, Frontier(seen, next), depth + 1, maxDepth).rounds);
        depth := depth + 1;
      }
    }

    /** One round of `Build` (builder.go lines 66-86): fetches each page of
        `queue` in order and collects the keys seen for the first time in a
        fresh queue. */
    method RunRound(queue: seq<string>, seen0: set<string>, ghost links: Links) returns (seen: set<string>, next: seq<string>)
      requires forall p {:trigger Discover(client, filter, p)} :: links(p) == Discover(client, filter, p)
      ensures Frontier(seen, next) == Round(links, seen0, queue)
    {
      seen, next := seen0, [];
      var i := 0;
      while i < |queue|
        invariant 0 <= i <= |queue|
        invariant RoundFrom(links, Frontier(seen, next), queue[i..]) == Round(links, seen0, queue)
      {
        assert queue[i..][0] == queue[i] && queue[i..][1..] == queue[i + 1..];
        ghost var before := Frontier(seen, next);
        var found := FindURLs(queue[i]);
        if found.Found? {
          seen, next := Record(found.base, found.urls, seen, next);
        }
        assert Frontier(seen, next) == AddNew(before, Discover(client, filter, queue[i]));
        i := i + 1;
      }
      assert queue[i..] == [];
    }

    /** The innermost loop of `Build` (builder.go lines 73-85): every link the
        filter accepts is recorded in `seen` and queued for the next round,
        unless its string form has been seen before. */
    method Record(base: Url, urls: seq<Url>, seen0: set<string>, next0: seq<string>)
      returns (seen: set<string>, next: seq<string>)
      ensures Frontier(seen, next) == AddNew(Frontier(seen0, next0), Accepted(filter, base, urls))
    {
      seen, next := seen0, next0;
      var j := 0;
      while j < |urls|
        invariant 0 <= j <= |urls|
        invariant AddNew(Frontier(seen, next), Accepted(filter, base, urls[j..]))
                  == AddNew(Frontier(seen0, next0), Accepted(filter, base, urls))
      {
        assert urls[j..][0] == urls[j] && urls[j..][1..] == urls[j + 1..];
        var filtered := filter(base, urls[j]);
        if filtered.Some? {
          var raw := filtered.value.String();
          AddNewCons(Frontier(seen, next), raw, Accepted(filter, base, urls[j + 1..]));
          if raw !in seen {
            seen := seen + {raw};
            next := next + [raw];
          }
        } else {
          assert Accepted(filter, base, urls[j..]) == Accepted(filter, base, urls[j + 1..]);
        }
        j := j + 1;
      }
      assert urls[j..] == [];
    }
  }

  /** Appending the round just fetched to the rounds done so far, as the
      depth loop of `Builder.Rounds` does. */
  lemma RoundsShift(done: seq<seq<string>>, q: seq<string>, rest: seq<seq<string>>)
    ensures done + ([q] + rest) == (done + [q]) + rest
  {
  }

  /** The href loop of `findURLs` (builder.go lines 111-120), for any parser:
      each href the parser accepts is appended, in order. `FindURLs` runs it
      with `url.Parse`. */
  method ParseHrefs(parse: string -> Option<Url>, hrefs: seq<string>) returns (found: seq<Url>)
    ensures found == ParsedHrefs(parse, hrefs)
  {
    found := [];
    for i := 0 to |hrefs|
      invariant found == ParsedHrefs(parse, hrefs[..i])
    {
      var u := parse(hrefs[i]);
      if u.Some? {
        found := found + [u.value];
      }
      assert hrefs[..i + 1] == hrefs[..i] + [hrefs[i]];
      ParsedHrefsAppend(parse, hrefs[..i], [hrefs[i]]);
    }
    assert hrefs[..|hrefs|] == hrefs;
  }

  /** The result loop of `Build` (builder.go lines 92-95): every key of
      `seen` once, in no particular order (Go's map iteration order). */
  method Entries(seen: set<string>) returns (entries: seq<string>)
    ensures NoDuplicates(entries) && Elems(entries) == seen
  {
    entries := [];
    var rest := seen;
    while rest != {}
      invariant rest <= seen
      invariant NoDuplicates(entries) && Elems(entries) == seen - rest
      decreases |rest|
    {
      var u :| u in rest;
      NoDuplicatesAppend(entries, [u]);
      ElemsAppend(entries, [u]);
      entries := entries + [u];
      rest := rest - {u};
    }
  }
}
