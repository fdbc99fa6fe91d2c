# Sitemap crawler model

A Dafny model of the sitemap builder in `pkg/sitemap`.

`Builder.Build` starts from a root URL and crawls breadth first, up to a
maximum depth. Each round fetches every URL in the current queue. The links
found on each page go through the builder's filter, and every accepted URL
string not yet seen is added to the `seen` map and queued for the next round.
The crawl stops after `maxDepth` rounds, or earlier after a round that queues
nothing. The result is the keys of `seen`.

The project has four modules:

- `Wrappers`: `Option` and `Result`.
- `NetUrl`: a simplified model of the parts of Go's `net/url` the crawler
  uses. These are `url.Parse`, `URL.String` and `URL.ResolveReference`
  (section 5.2 of RFC 3986).
- `Crawler`: the crawl as pure definitions, with lemmas about them.
  - `FindURLsOf` is what `findURLs` returns. `Accepted` is what the filter
    keeps of one page, and `Discover` combines the two for one page.
  - `AddNew` updates `seen` and the next queue. `RoundFrom` and `Round` run
    one round, and `CrawlFrom` and `Crawl` run the depth loop.
  - `DefaultFilter` is `defaultFilter`.
  - The round-level definitions take a function `links` that gives each
    page's contribution. `LinksOf(client, filter)` is the one `Build` uses.
- `Sitemap`: the `Builder` class, with the four fields of the Go struct.
  - The constructor is `NewBuilder`.
  - `SetClient`, `SetFilter`, `SetMaxDepth` and `SetConcurrentRequests` are
    the closures returned by the `With…` options. `Apply` runs one option.
  - `FindURLs` and `Build` are imperative methods with the Go code's loops.
    They are proved equal to `FindURLsOf` and `Crawl`.

The network is a parameter. A `Client` maps a URL string to a `Page`, which
stands for the combined result of `client.Get` and `link.Find`:

- the request failed;
- the body could not be read for links (the request URL is still known);
- or the final request URL and the raw hrefs.

`http.DefaultClient` and `runtime.NumCPU()` are parameters of the
constructor.

Some behaviour of the code worth knowing:

- `seen` starts empty (builder.go line 60). The root is fetched in round 0
  but is not marked as seen, so it is in the result only if some fetched
  page links to it. It can also be fetched a second time, if a page links
  back to it.
- When `maxDepth <= 0` nothing is fetched and the result is empty; see the
  ensures of `Crawler.Crawl`.
- A failure to fetch the root is not an error. The crawl just returns an
  empty set, because `Build` fails only on parsing and on the scheme.
- The filter compares the link's host with the host of the page's final
  request URL, not with the root's host.
- `FilterFunc` is declared at options.go line 28 with three arguments
  `(base, request, foundLink)`. That is the type of the `filter` field
  (builder.go line 29) and of `WithFilter`'s parameter (options.go line 19).
  But `NewBuilder` stores the two-argument `defaultFilter` in the field
  (builder.go lines 38 and 125), and `Build` calls `b.filter(base, found)`
  with two arguments (builder.go line 74). The package as written therefore
  does not type-check. The model follows `builder.go`: a filter is a function
  of `(base, u)`.
- The crawl is sequential; `concurrentRequests` is stored but never read.

## Model

| member | source | states |
|---|---|---|
| Sitemap.Builder.constructor | pkg/sitemap/builder.go:35-46 | each field is its default (`http.DefaultClient`, `defaultFilter`, depth 3, the CPU count) unless an option sets it, and then the value given by the last option that sets it |
| Sitemap.Builder.SetClient | pkg/sitemap/options.go:12-16 | `client` takes the given value and the other three fields are unchanged |
| Sitemap.Builder.SetFilter | pkg/sitemap/options.go:19-23 | `filter` takes the given value and the other three fields are unchanged |
| Sitemap.Builder.SetMaxDepth | pkg/sitemap/options.go:31-35 | `maxDepth` takes the given value and the other three fields are unchanged |
| Sitemap.Builder.SetConcurrentRequests | pkg/sitemap/options.go:39-43 | `concurrentRequests` takes the given value and the other three fields are unchanged |
| Sitemap.Builder.Apply | pkg/sitemap/builder.go:42-44 | applying one option changes only the field that option is about |
| Sitemap.Last | pkg/sitemap/builder.go:42-44 | the value a field has after the options run in order: the one the last option about it gives; its properties are `LastWithoutOption`, `LastComesFromAnOption` and `LastIgnoresOtherOptions` |
| Sitemap.LastWithoutOption | pkg/sitemap/builder.go:36-44 | a field that no option mentions keeps its `NewBuilder` default |
| Sitemap.LastComesFromAnOption | pkg/sitemap/builder.go:36-44 | every field ends up with its default or with a value that one of the options gave |
| Sitemap.LastIgnoresOtherOptions | pkg/sitemap/builder.go:42-44 | options about other fields, given later, do not change a field |
| Sitemap.Builder.Build | pkg/sitemap/builder.go:51-97 | an unparsable root gives the parse error, and a scheme other than http or https gives the "not supported" error with that scheme; otherwise the result is a success whose entries are exactly the keys of `Crawl` from `root.String()`, each once, and the rounds fetched are `Crawl`'s |
| Sitemap.Builder.Rounds | pkg/sitemap/builder.go:60-90 | the depth loop, with its swap of `queue` and `next` and its `break`, ends with the `seen` set and the sequence of round queues of `CrawlFrom` from an empty `seen` and the queue `[root]` |
| Sitemap.Builder.RunRound | pkg/sitemap/builder.go:66-86 | one pass over the queue, skipping pages whose `findURLs` fails, ends with `Round`'s `seen` set and next queue |
| Sitemap.Builder.Record | pkg/sitemap/builder.go:73-85 | the loop over one page's links gives `AddNew` of the keys the filter accepts: a key is added to `seen` and appended to `next` only when it was not seen before |
| Sitemap.Entries | pkg/sitemap/builder.go:92-95 | the entries are the keys of `seen`, each exactly once |
| Sitemap.Builder.FindURLs | pkg/sitemap/builder.go:99-123 | a failed `Get` gives an error; a failed `link.Find` gives the request URL with the error; otherwise it gives the final request URL and the hrefs that parse |
| Sitemap.ParseHrefs | pkg/sitemap/builder.go:111-120 | the loop appends each href that parses, in order, and gives `ParsedHrefs` |
| Crawler.FindURLsOf | pkg/sitemap/builder.go:99-123 | a failed `Get` gives an error, a failed `link.Find` gives the request URL with an error, and otherwise the final request URL and the hrefs that parse; `FindURLs` is proved to return it, and `ParsedHrefsMembers` and `ParsedHrefsAppend` state which URLs come out and in what order |
| Crawler.ParsedHrefs | pkg/sitemap/builder.go:111-120 | no more URLs than hrefs come out |
| Crawler.ParsedHrefsAppend | pkg/sitemap/builder.go:113-120 | hrefs keep their order: parsing `a + b` is parsing `a` followed by parsing `b` |
| Crawler.ParsedHrefsMembers | pkg/sitemap/builder.go:113-120 | a URL is in the result exactly when some href parses to it |
| Crawler.Accepted | pkg/sitemap/builder.go:73-79 | a page contributes at most one key per link |
| Crawler.AcceptedMembers | pkg/sitemap/builder.go:73-79 | a key comes from a page exactly when the filter accepts one of its links and the key is the accepted URL's string form |
| Crawler.Discover | pkg/sitemap/builder.go:68-79 | a page whose `findURLs` fails contributes nothing, and any other page contributes its accepted keys; `AcceptedMembers` states which keys those are, and `DefaultDiscoverOnSite` states where they point under the default filter |
| Crawler.DefaultFilter | pkg/sitemap/builder.go:125-134 | a link whose string form starts with `#` is rejected; an accepted result is `base.ResolveReference(u)`, is http or https, and is on `base`'s host; and every link that passes those three tests is accepted |
| Crawler.HashLinkRejected | pkg/sitemap/builder.go:126-128 | an href `#name` parses to a fragment-only reference and is rejected |
| Crawler.BareHashKeepsPage | pkg/sitemap/builder.go:126-133 | a bare `#` parses to the empty reference, whose string form is empty, so it passes the `#` test and resolves to the page itself |
| Crawler.OtherHostRejected | pkg/sitemap/builder.go:129-132 | a link that names another host is never kept |
| Crawler.RelativeLinkKeptOnWebPage | pkg/sitemap/builder.go:129-133 | a relative link is kept exactly when the page is http or https |
| Crawler.DefaultDiscoverOnSite | pkg/sitemap/builder.go:68-84 | with the default filter, every key a page contributes is an http or https URL on the host of that page's final request URL |
| Crawler.AddNew | pkg/sitemap/builder.go:79-84 | the links loop's update of `seen` and `next`; `AddNewKeepsFresh` states that every key ends up in `seen` and that `next` gains exactly the newly seen keys, each once |
| Crawler.AddNewKeepsFresh | pkg/sitemap/builder.go:79-84 | recording keys adds them all to `seen`, and `next` still holds exactly the keys newly seen, each once |
| Crawler.RoundFrom | pkg/sitemap/builder.go:66-86 | the queue loop from some point of the queue on; `RoundFromFresh` states what it adds to `seen` and to `next` |
| Crawler.RoundFromFresh | pkg/sitemap/builder.go:66-86 | processing the rest of a queue keeps `next` equal to the newly seen keys, without repetition, and adds to `seen` everything the pages contribute |
| Crawler.Round | pkg/sitemap/builder.go:66-86 | one round, from the `seen` set and an empty `next`; `RoundFreshKeys` states its result |
| Crawler.RoundFreshKeys | pkg/sitemap/builder.go:66-86 | after a round, `seen` is the old `seen` plus everything the round's pages contribute, and the next queue holds exactly the newly seen keys, each once |
| Crawler.DiscoveredByAppend | pkg/sitemap/builder.go:67-86 | what two lists of pages contribute is the union of what each contributes |
| Crawler.DiscoveredByMembers | pkg/sitemap/builder.go:67-86 | a key is contributed by a list of pages exactly when one of the pages contributes it |
| Crawler.CrawlFrom | pkg/sitemap/builder.go:65-90 | from round `depth` at most `maxDepth - depth` rounds run, and the first one fetches the current queue |
| Crawler.CrawlFromSeen | pkg/sitemap/builder.go:65-90 | the final `seen` is the starting `seen` plus everything the fetched pages contribute |
| Crawler.CrawlFromQueuedOnce | pkg/sitemap/builder.go:79-89 | from a seen queue without repetition, no URL is fetched twice, every fetched URL is seen, and none beyond the current queue was seen at the start |
| Crawler.CrawlFromEarlyStop | pkg/sitemap/builder.go:87-89 | when fewer rounds run than allowed, every newly seen key has been fetched |
| Crawler.CrawlFromLaterRoundsNonEmpty | pkg/sitemap/builder.go:87-89 | no round after the first starts with an empty queue |
| Crawler.Crawl | pkg/sitemap/builder.go:60-90 | with `maxDepth <= 0` nothing is fetched and `seen` is empty; otherwise between 1 and `maxDepth` rounds run, and round 0 fetches the root alone |
| Crawler.CrawlSeenIsDiscovered | pkg/sitemap/builder.go:60-90 | the result is exactly the set of keys the fetched pages contribute |
| Crawler.CrawlResultAccepted | pkg/sitemap/builder.go:68-84 | every key in the result is the string form of a URL the filter accepted for a link of some fetched page whose `findURLs` succeeded |
| Crawler.CrawlQueuedOnce | pkg/sitemap/builder.go:79-84 | round 0 fetches the root; after round 0 no URL is fetched twice, and every URL fetched after round 0 is in the result |
| Crawler.CrawlEarlyStopFetchedAll | pkg/sitemap/builder.go:87-89 | a crawl that stops before `maxDepth` rounds has fetched every key in its result |
| Crawler.CrawlRoundsNonEmpty | pkg/sitemap/builder.go:87-89 | no round of the crawl fetches an empty queue |
| Crawler.CrawlDefaultOnSite | pkg/sitemap/builder.go:125-134 | with the default filter, every key in the result is an http or https URL on the host of the final URL of some fetched page |
| NetUrl.Parse | pkg/sitemap/builder.go:52-54 | `url.Parse` rejects control characters in the text before the first `#` (the fragment is checked only for its `%` escapes); the fragment of the result is the text after the first `#`, and its `%` escapes are well formed |
| NetUrl.ValidHostAllowed | pkg/sitemap/builder.go:52-54 | a host that passes the host test contains no space, backslash, caret, backquote, brace or vertical bar |
| NetUrl.ParsedHostAllowed | pkg/sitemap/builder.go:52-54 | the host of every URL that `url.Parse` returns, and so of every root that `Build` crawls, passes the host test of `unescape(host, encodeHost)` and is free of those characters |
| NetUrl.ParseFragmentOnly | pkg/sitemap/builder.go:114 | an href that is `#` followed by a well-escaped fragment parses to the empty URL carrying that fragment |
| NetUrl.ParseBareHash | pkg/sitemap/builder.go:114 | a bare `#` parses to the empty URL |
| NetUrl.ResolveEmptyReference | pkg/sitemap/builder.go:129 | resolving the empty reference against a page that is not opaque, has no bare `?` and has a rooted or empty path gives the page back unchanged |
| NetUrl.Url.String | pkg/sitemap/builder.go:79 | a fragment-only URL prints as `#` and the fragment (or as nothing when the fragment is empty), and a URL with a scheme prints starting with `scheme:` |
| NetUrl.ResolveReference | pkg/sitemap/builder.go:129 | the result takes the reference's scheme when it has one and the base's otherwise; the reference's host when it has a scheme or a host; and the base's host when it is relative |
| NetUrl.ResolvePath | pkg/sitemap/builder.go:129 | a merged path is empty or starts with `/` |
| NetUrl.CutAtFirst | pkg/sitemap/builder.go:114 | `strings.Cut`, which `url.Parse` uses, splits at the first occurrence and reports whether there is one |
| NetUrl.ColonInFirstSegmentIsCut | pkg/sitemap/builder.go:114 | the test "a colon in the first path segment" that `url.Parse` and `URL.String` use is `strings.Contains` applied to the text that `strings.Cut(path, "/")` returns before the first `/` |

## Left out

- The network and HTML parsing: `http.Client.Get`, closing the body, redirects, timeouts and `link.Find` become the `Client` function. It is deterministic, so a URL fetched twice returns the same page both times.
- `net/url` is simplified. User information and ports are not split off or checked: the model's host is the whole authority, and only the part after its last `@` goes through the host test. IPv6 hosts and zones are not parsed. Dot segments are not removed during resolution, and escapes are checked but not decoded, so paths and hosts stay in escaped form. `Url.String` does not re-escape.
- NetUrl.ResolveReference: leaves out Go's branch for an opaque base. When the reference's path is empty and the base is opaque (such as `http:foo`), Go keeps the base's opaque part, and the model gives an empty path instead. The request URL of a fetched page is never opaque, so the crawl does not reach this case.
- Logging (`log.Printf`) is left out: it has no effect on the result.
- Concurrency: `concurrentRequests` is kept as a field but, as in the code, never used.
- The order of the result entries comes from Go's map iteration, which is unspecified. `Sitemap.Entries` picks keys in an arbitrary order, and its contract states only set equality and no duplicates.
- XML encoding of the URL set (models.go), the package-level `Build` wrapper (builder.go lines 21-24, sitemap.go) and the command line (main.go) are not part of this model.
- `Build` returns the entries as a sequence of strings rather than a `URLSet` of `URLEntry` records.
