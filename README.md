# Sitemap uptime monitor: a Dafny model

This project models the core of a small command-line uptime checker. The checker is given one or more sitemap URLs. For each sitemap it does four things:
- fetches the sitemap;
- pulls the page URLs out of its `<loc>` elements;
- probes every page that is not on the ignore list;
- summarises the outcome in a `SiteCheckResult`.

Each result goes to a notification webhook. It also goes to a critical webhook when it lists unreachable pages.

There are three modules:

- `Wrappers` (`wrappers.dfy`): the `Option` type.
- `SiteCheck` (`site_check.dfy`): `handle_sitemap` from `src/lib.rs`.
  - `SiteCheckStatus` and `SiteCheckResult` are datatypes.
  - The outside world is an `Environment` value:
    - the sitemap GET gives a transport error or a response, and the response body decodes to text or not;
    - XML parsing gives an error or the document's nodes in descendant order. Each node has a local tag name and an optional first child, reduced to what the XML library's `text()` yields for it;
    - a page GET gives a transport error or a status code.
  - `HandleSitemap` is the imperative method. It has the early returns and delegates to two loops:
    - `CollectUrls` is the `descendants().filter().for_each()` push loop;
    - `ProbePages` is the probing `for` loop with its `continue`s.
  - The methods are proved equal to the specification functions `CheckSitemap`, `ExtractUrls`, `UnreachablePages` and `ProbedUrls`. The lemmas state what the source promises about those functions.
  - The panic of `.text().unwrap()` on a `loc` element whose first child has no text becomes the task outcome `Panicked`.
- `Monitor` (`monitor.dfy`): the body of `main` in `src/main.rs`.
  - `SpawnChecks` spawns one check per sitemap, each with the same ignore list.
  - `Drain` is the `while let Some(res) = handles.join_next()` loop. It records each `post_results` call as a `Post` event.
  - The `JoinSet` is a class holding the tasks not yet joined. Which pending task `join_next` returns depends on the runtime, so it is an input (`pick`, drawn from a `schedule`). The properties therefore hold for every completion order.

## Model

| member | source | states |
|---|---|---|
| `SiteCheck.CheckSitemap` | src/lib.rs:50-141 | Every completed result carries the input sitemap URL and is well-formed. A non-Success result has all three optional fields absent. On Success, `unreachable_total <= page_total`, and `unreachable_pages` is present iff `unreachable_total > 0`. Status is `UnreachableSitemap` iff the fetch failed. Status is `InvalidSitemap` iff the fetch succeeded and then the body did not decode or did not parse. The task panics iff some `loc` entry's first child has no text. |
| `SiteCheck.HandleSitemap` | src/lib.rs:50-141 | The imperative `handle_sitemap` returns exactly `CheckSitemap`'s outcome. It probes exactly the pages in `ProbeLog`: none when it stops early, else the non-ignored URLs in order. |
| `SiteCheck.CollectUrls` | src/lib.rs:96-100 | The push loop over the descendants yields exactly `ExtractUrls` of the nodes. That includes the panic, shown as None. |
| `SiteCheck.ProbePages` | src/lib.rs:103-128 | The probing loop with its `continue`s collects exactly `UnreachablePages` and probes exactly `ProbedUrls`. |
| `SiteCheck.ExtractUrls` | src/lib.rs:96-100 | Extraction fails iff some node named `loc` with a child has a first child without text. On success it yields at most one URL per node. |
| `SiteCheck.ExtractUrlsAppend` | src/lib.rs:96-100 | Extraction works node by node and keeps document order: the URLs of `a + b` are those of `a` followed by those of `b`. It fails iff either half fails. |
| `SiteCheck.ExtractUrlsSingle` | src/lib.rs:99-100 | A single node contributes its first child's text if its local name is `loc` and it has a child. A childless or non-`loc` node contributes nothing. A `loc` node whose first child has no text makes extraction fail. |
| `SiteCheck.ExtractUrlsMembership` | src/lib.rs:96-100 | A URL is extracted iff it is the first child's text of some `loc` node that has a child. |
| `SiteCheck.ProbedUrls` | src/lib.rs:103-112 | The probed URLs are a subsequence of the extracted URLs, in extraction order. |
| `SiteCheck.ProbedUrlsMembership` | src/lib.rs:104-112 | A URL is probed iff it was extracted and is not on the ignore list (exact match). |
| `SiteCheck.ProbedUrlsAppend` | src/lib.rs:103-112 | Probing is sequential: the URLs probed for `a + b` are those for `a`, then those for `b`. |
| `SiteCheck.UnreachablePages` | src/lib.rs:103-128 | The unreachable list is a subsequence of the extracted URLs, so it is no longer than them. |
| `SiteCheck.UnreachablePagesMembership` | src/lib.rs:112-127 | A URL is listed as unreachable iff three things hold: it was extracted, it is not ignored, and its probe failed in transport or answered with a status other than 200. |
| `SiteCheck.UnreachablePagesAppend` | src/lib.rs:103-128 | The unreachable list for `a + b` is the list for `a` followed by the list for `b`, so the list follows extraction order. |
| `SiteCheck.UnreachableAreProbed` | src/lib.rs:103-128 | The unreachable list is a subsequence of the probed list: a page is only listed after it was probed, and in probe order. |
| `SiteCheck.SubsequenceLength` | src/lib.rs:133-134 | A subsequence is no longer than the sequence it comes from. This is why `unreachable_total <= page_total`. |
| `SiteCheck.Join` | src/lib.rs:138 | A join of one or more parts starts with the first part and ends with the last. |
| `SiteCheck.JoinAppend` | src/lib.rs:138 | Joining `a + b` (both non-empty) gives the join of `a`, one separator, then the join of `b`. |
| `SiteCheck.JoinLength` | src/lib.rs:138 | A join is as long as all its parts plus one separator between each pair of neighbours. |
| `SiteCheck.SuccessCounts` | src/lib.rs:130-140 | On Success, `page_total` counts every extracted URL, ignored ones included. `unreachable_total` counts the unreachable list. `unreachable_pages`, when present, is that list joined with `", "`. |
| `SiteCheck.IgnoredUrlNeverProbed` | src/lib.rs:104-109 | An ignored URL is never probed and never listed as unreachable. |
| `SiteCheck.ThreePageExample` | src/lib.rs:96-140 | Example: three `loc` entries `a`, `b`, `c`. `b` is ignored, `a` answers 200 and `c` fails in transport. The result is Success, with `page_total` 3, `unreachable_total` 1 and `unreachable_pages` `"c"`. |
| `Monitor.JoinSet.constructor` | src/main.rs:11 | A new join set holds no tasks. |
| `Monitor.JoinSet.Spawn` | src/main.rs:18-22 | Spawning adds the task's outcome to the pending tasks and changes nothing else. |
| `Monitor.JoinSet.JoinNext` | src/main.rs:25 | Gives None once every task has been joined. Otherwise it gives one pending task and removes it from the set. |
| `Monitor.SpawnChecks` | src/main.rs:13-23 | One task per configured sitemap, in order. Each task is the check of that sitemap with the same, unmodified ignore list. |
| `Monitor.Drain` | src/main.rs:25-33 | The loop joins every task. The joined order is a permutation of the pending tasks. The posts are exactly `Posts` of that order: no post for a failed task; for a completed one, a notification post, then a critical post iff `unreachable_pages` is present. |
| `Monitor.Run` | src/main.rs:7-34 | For every completion order, each completed check's result is posted to the notification URL exactly once. The multiset of results sent there equals that of the completed checks. The results sent to the critical URL are exactly the completed ones with `unreachable_pages` present. Every critical post carries a Success result with at least one unreachable page, goes to the critical URL, and directly follows the notification post of the same result. |
| `Monitor.PostsRouted` | src/main.rs:25-32 | Every notification post goes to the notification URL. Every critical post goes to the critical URL and comes directly after the notification post of the same result. |
| `Monitor.PostsSnoc` | src/main.rs:26-31 | Joining one more task adds nothing if it panicked. If it completed, it adds its notification post, then a critical post iff `unreachable_pages` is present. |
| `Monitor.JoinStep` | src/main.rs:25 | After the task just received is counted as joined and `join_next` takes the next pending one, every spawned task is, as a multiset, either joined, still pending, or the one now held. |
| `Monitor.PostsAppend` | src/main.rs:25-33 | All posts for one joined task come before any post for the next. |
| `Monitor.NotifiedExactlyOnce` | src/main.rs:25-27 | The results sent to the notification URL are exactly the completed tasks' results, once each, in join order. A failed task sends nothing. |
| `Monitor.CriticalOnlyWhenFlagged` | src/main.rs:29-31 | The results sent to the critical URL are exactly the completed results with `unreachable_pages` present, once each, in join order. |
| `Monitor.FailedSitemapsNotCritical` | src/main.rs:29-31 | When every completed result is well-formed, every critical post goes to the critical URL and carries a Success result with `unreachable_total > 0`. So `UnreachableSitemap` and `InvalidSitemap` results reach only the notification URL. |
| `Monitor.CompletedResultsPermutation` | src/main.rs:25 | The multiset of completed results does not depend on the order the tasks are joined in. |
| `Monitor.FlaggedPermutation` | src/main.rs:29 | The multiset of flagged results does not depend on the order of the results. |

## Extraction and failed sitemaps

- Extraction (src/lib.rs:99-100) looks only at a `loc` element's first child:
  - every `loc` element that has a first child is kept, whatever that child is;
  - that child's text is pushed even when it is empty;
  - when the first child has no text, `unwrap` panics (src/lib.rs:100). That ends the whole task, and `main` then drops it without a post (src/main.rs:26). `ExtractUrls` returns None in this case, and `CheckSitemap` gives `Panicked`.
- Results from a sitemap that could not be fetched or parsed never reach the critical endpoint, because `unreachable_pages` is absent on them. `FailedSitemapsNotCritical` states this.

## Left out

- HTTP transport is not modelled. This covers the sitemap GET and its `.text()` (src/lib.rs:58, src/lib.rs:70), the page GET (src/lib.rs:112) and the POST in `post_results` (src/lib.rs:153-168). The GETs are outcomes supplied by `Environment`. A POST is an event in the `posts` trace.
- `post_results` only logs when its reply is not 200, so the model has no branch for that.
- A transport failure in `post_results` hits `.expect` (src/lib.rs:162) and aborts the run. The model treats every post as delivered and does not model this abort.
- Probes are a function of the URL, and so are the sitemap fetch and the XML parse. One `Environment` is shared by every task. So if a URL appears twice in a sitemap, both probes get the same answer; a page listed in two sitemaps gets the same answer in both; and two configured copies of the same sitemap always get the same outcome. The real network could answer differently each time.
- XML parsing (`roxmltree::Document::parse`, src/lib.rs:84) is a foreign library. Only its success or failure and the resulting descendant nodes are modelled. A node keeps only its local name and what `text()` yields for its first child.
- JSON serialisation through `serde` (src/lib.rs:27, src/lib.rs:37) is generated library code and is not modelled.
- Command-line parsing with clap (src/lib.rs:6-24, src/main.rs:10) is not modelled. `Args` is an input value.
- Logging (`info!`, `debug!`, `error!`, `pretty_env_logger::init`) has side effects only and is not modelled.
- Tokio tasks, `Arc` sharing and true concurrency are not modelled. Each check runs to completion when it is spawned, and only the order in which results are joined varies. Probes of different sitemaps therefore do not interleave in the model, and the model keeps no global order of probes across sitemaps.
- `page_total` and `unreachable_total` are `usize` in the source and `nat` here. The counts are bounded by the length of an in-memory vector, so they cannot overflow.
