/**
 * The program's entry point (src/main.rs): spawn one check task per sitemap,
 * all sharing the one ignore list, then drain the tasks in completion order,
 * posting each result to the notification endpoint and, when it lists
 * unreachable pages, to the critical endpoint as well.
 *
 * A post is recorded as an event; the HTTP request it makes is not modelled.
 */
module Monitor {
  import opened Wrappers
  import opened SiteCheck

  /** The command-line configuration. */
  datatype Args = Args(
    sitemaps: seq<string>,
    notificationUrl: string,
    criticalUrl: string,
    ignore: Option<seq<string>>)

  /** Which of the two `post_results` calls in the drain loop issued a post. */
  datatype Channel = NotificationChannel | CriticalChannel

  /** One call of `post_results`: the endpoint and the result sent to it. */
  datatype Post = Post(channel: Channel, url: string, result: SiteCheckResult)

  /**
   * The set of spawned tasks not yet joined. `JoinNext` hands out whichever
   * task finishes next; which one that is, is chosen by the runtime and is an
   * input here (`pick`).
   */
  class JoinSet {
    var pending: seq<TaskOutcome>

    constructor ()
      ensures pending == []
    {
      pending := [];
    }

    method Spawn(outcome: TaskOutcome)
      modifies this
      ensures pending == old(pending) + [outcome]
    {
      pending := pending + [outcome];
    }

    /** None once every task has been joined; otherwise some pending task, removed from the set. */
    method JoinNext(pick: nat) returns (next: Option<TaskOutcome>)
      modifies this
      ensures old(pending) == [] ==> next.None? && pending == []
      ensures old(pending) != [] ==>
        var k := pick % |old(pending)|;
        next == Some(old(pending)[k]) && pending == old(pending)[..k] + old(pending)[k + 1..]
    {
      if pending == [] {
        return None;
      }
      var k := pick % |pending|;
      next := Some(pending[k]);
      pending := pending[..k] + pending[k + 1..];
    }
  }

  /** The posts for one joined task: none for a failed task, else notification then, if flagged, critical. */
  function PostsFor(outcome: TaskOutcome, notificationUrl: string, criticalUrl: string): seq<Post> {
    match outcome
    case Panicked => []
    case Completed(r) =>
      [Post(NotificationChannel, notificationUrl, r)] +
      (if r.unreachablePages.Some? then [Post(CriticalChannel, criticalUrl, r)] else [])
  }

  /** The posts issued while draining the joined tasks in the given order. */
  function Posts(joined: seq<TaskOutcome>, notificationUrl: string, criticalUrl: string): seq<Post> {
    if joined == [] then []
    else PostsFor(joined[0], notificationUrl, criticalUrl) + Posts(joined[1..], notificationUrl, criticalUrl)
  }

  /** The results of the tasks that completed, in order. */
  function CompletedResults(outcomes: seq<TaskOutcome>): seq<SiteCheckResult> {
    if outcomes == [] then []
    else (if outcomes[0].Completed? then [outcomes[0].result] else []) + CompletedResults(outcomes[1..])
  }

  /** The results that list unreachable pages, in order. */
  function Flagged(results: seq<SiteCheckResult>): seq<SiteCheckResult> {
    if results == [] then []
    else (if results[0].unreachablePages.Some? then [results[0]] else []) + Flagged(results[1..])
  }

  /** The results sent on one channel, in order. */
  function SentOn(posts: seq<Post>, channel: Channel): seq<SiteCheckResult> {
    if posts == [] then []
    else (if posts[0].channel == channel then [posts[0].result] else []) + SentOn(posts[1..], channel)
  }

  /** The outcomes of the spawned tasks, in spawn order: every check gets the same ignore list. */
  function CheckAll(sitemaps: seq<string>, ignore: Option<seq<string>>, env: Environment): (outcomes: seq<TaskOutcome>)
  {
    seq(|sitemaps|, i requires 0 <= i < |sitemaps| => CheckSitemap(sitemaps[i], ignore, env))
  }

  // ---------------------------------------------------------------------------
  // Properties of the drain loop
  // ---------------------------------------------------------------------------

  /** Draining a then b posts a's posts, then b's: all posts for one task precede the next task's. */
  lemma {:induction false} PostsAppend(a: seq<TaskOutcome>, b: seq<TaskOutcome>, notificationUrl: string, criticalUrl: string)
    ensures Posts(a + b, notificationUrl, criticalUrl) == Posts(a, notificationUrl, criticalUrl) + Posts(b, notificationUrl, criticalUrl)
  {
    if a == [] {
      assert a + b == b;
    } else {
      assert (a + b)[0] == a[0];
      assert (a + b)[1..] == a[1..] + b;
      PostsAppend(a[1..], b, notificationUrl, criticalUrl);
    }
  }

  /**
   * Where each post goes and in which order: a notification post goes to the
   * notification URL; a critical post goes to the critical URL and directly
   * follows the notification post of the same result.
   */
  predicate Routed(posts: seq<Post>, notificationUrl: string, criticalUrl: string) {
    forall j {:trigger posts[j]} :: 0 <= j < |posts| ==>
      && (posts[j].channel == NotificationChannel ==> posts[j].url == notificationUrl)
      && (posts[j].channel == CriticalChannel ==>
            posts[j].url == criticalUrl && 0 < j &&
            posts[j - 1] == Post(NotificationChannel, notificationUrl, posts[j].result))
  }

  /** Every drain posts to the right endpoints, notification before critical for each result. */
  lemma {:induction false} PostsRouted(joined: seq<TaskOutcome>, notificationUrl: string, criticalUrl: string)
    ensures Routed(Posts(joined, notificationUrl, criticalUrl), notificationUrl, criticalUrl)
  {
    if joined != [] {
      PostsRouted(joined[1..], notificationUrl, criticalUrl);
      var head := PostsFor(joined[0], notificationUrl, criticalUrl);
      var tail := Posts(joined[1..], notificationUrl, criticalUrl);
      var posts := head + tail;
      if joined[0].Completed? {
        var r := joined[0].result;
        if r.unreachablePages.Some? {
          assert head == [Post(NotificationChannel, notificationUrl, r), Post(CriticalChannel, criticalUrl, r)];
        } else {
          assert head == [Post(NotificationChannel, notificationUrl, r)];
        }
      }
      forall j | 0 <= j < |posts| && posts[j].channel == CriticalChannel
        ensures 0 < j && posts[j - 1] == Post(NotificationChannel, notificationUrl, posts[j].result)
      {
        if j < |head| {
          assert posts[j] == head[j] && j == 1 && posts[0] == head[0];
        } else {
          var t := j - |head|;
          assert posts[j] == tail[t];
          assert posts[j - 1] == tail[t - 1];
        }
      }
      assert Posts(joined, notificationUrl, criticalUrl) == posts;
    }
  }

  lemma {:induction false} SentOnAppend(a: seq<Post>, b: seq<Post>, channel: Channel)
    ensures SentOn(a + b, channel) == SentOn(a, channel) + SentOn(b, channel)
  {
    if a == [] {
      assert a + b == b;
    } else {
      assert (a + b)[0] == a[0];
      assert (a + b)[1..] == a[1..] + b;
      SentOnAppend(a[1..], b, channel);
    }
  }

  /**
   * Every completed task's result is posted to the notification endpoint
   * exactly once, in join order, and a failed task posts nothing.
   */
  lemma {:induction false} NotifiedExactlyOnce(joined: seq<TaskOutcome>, notificationUrl: string, criticalUrl: string)
    ensures SentOn(Posts(joined, notificationUrl, criticalUrl), NotificationChannel) == CompletedResults(joined)
  {
    if joined != [] {
      var head := PostsFor(joined[0], notificationUrl, criticalUrl);
      SentOnAppend(head, Posts(joined[1..], notificationUrl, criticalUrl), NotificationChannel);
      NotifiedExactlyOnce(joined[1..], notificationUrl, criticalUrl);
      if joined[0].Completed? {
        var r := joined[0].result;
        assert head[0] == Post(NotificationChannel, notificationUrl, r);
        if r.unreachablePages.Some? {
          assert head == [head[0]] + [head[1]];
          SentOnAppend([head[0]], [head[1]], NotificationChannel);
        } else {
          assert head == [head[0]];
        }
      }
    }
  }

  /**
   * A completed result is posted to the critical endpoint iff it lists
   * unreachable pages, and then exactly once.
   */
  lemma {:induction false} CriticalOnlyWhenFlagged(joined: seq<TaskOutcome>, notificationUrl: string, criticalUrl: string)
    ensures SentOn(Posts(joined, notificationUrl, criticalUrl), CriticalChannel) == Flagged(CompletedResults(joined))
  {
    if joined != [] {
      var head := PostsFor(joined[0], notificationUrl, criticalUrl);
      SentOnAppend(head, Posts(joined[1..], notificationUrl, criticalUrl), CriticalChannel);
      CriticalOnlyWhenFlagged(joined[1..], notificationUrl, criticalUrl);
      var first := if joined[0].Completed? then [joined[0].result] else [];
      FlaggedAppend(first, CompletedResults(joined[1..]));
      if joined[0].Completed? {
        var r := joined[0].result;
        assert [r][1..] == [];
        if r.unreachablePages.Some? {
          assert head == [head[0]] + [head[1]];
          SentOnAppend([head[0]], [head[1]], CriticalChannel);
        } else {
          assert head == [head[0]];
        }
      }
    }
  }

  lemma {:induction false} FlaggedAppend(a: seq<SiteCheckResult>, b: seq<SiteCheckResult>)
    ensures Flagged(a + b) == Flagged(a) + Flagged(b)
  {
    if a == [] {
      assert a + b == b;
    } else {
      assert (a + b)[0] == a[0];
      assert (a + b)[1..] == a[1..] + b;
      FlaggedAppend(a[1..], b);
    }
  }

  /**
   * Every post to the critical endpoint carries a successful check with at
   * least one unreachable page: a sitemap that could not be fetched or parsed
   * is reported to the notification endpoint only.
   */
  lemma {:induction false} FailedSitemapsNotCritical(joined: seq<TaskOutcome>, notificationUrl: string, criticalUrl: string)
    requires forall i :: 0 <= i < |joined| && joined[i].Completed? ==> WellFormed(joined[i].result)
    ensures forall p :: p in Posts(joined, notificationUrl, criticalUrl) && p.channel == CriticalChannel ==>
      p.url == criticalUrl && p.result.status == Success &&
      p.result.unreachableTotal.Some? && p.result.unreachableTotal.value > 0
  {
    if joined != [] {
      assert forall i :: 1 <= i < |joined| ==> joined[1..][i - 1] == joined[i];
      FailedSitemapsNotCritical(joined[1..], notificationUrl, criticalUrl);
    }
  }

  /** The number of times an element occurs in the completed results is its number of Completed outcomes. */
  lemma {:induction false} CompletedResultsCount(outcomes: seq<TaskOutcome>, r: SiteCheckResult)
    ensures multiset(CompletedResults(outcomes))[r] == multiset(outcomes)[Completed(r)]
  {
    if outcomes != [] {
      assert outcomes == [outcomes[0]] + outcomes[1..];
      CompletedResultsCount(outcomes[1..], r);
    }
  }

  /** The completed results do not depend on the order the tasks are joined in. */
  lemma CompletedResultsPermutation(a: seq<TaskOutcome>, b: seq<TaskOutcome>)
    requires multiset(a) == multiset(b)
    ensures multiset(CompletedResults(a)) == multiset(CompletedResults(b))
  {
    forall r: SiteCheckResult
      ensures multiset(CompletedResults(a))[r] == multiset(CompletedResults(b))[r]
    {
      CompletedResultsCount(a, r);
      CompletedResultsCount(b, r);
    }
  }

  lemma {:induction false} FlaggedCount(results: seq<SiteCheckResult>, r: SiteCheckResult)
    ensures multiset(Flagged(results))[r] == if r.unreachablePages.Some? then multiset(results)[r] else 0
  {
    if results != [] {
      assert results == [results[0]] + results[1..];
      FlaggedCount(results[1..], r);
    }
  }

  lemma FlaggedPermutation(a: seq<SiteCheckResult>, b: seq<SiteCheckResult>)
    requires multiset(a) == multiset(b)
    ensures multiset(Flagged(a)) == multiset(Flagged(b))
  {
    forall r: SiteCheckResult
      ensures multiset(Flagged(a))[r] == multiset(Flagged(b))[r]
    {
      FlaggedCount(a, r);
      FlaggedCount(b, r);
    }
  }

  // ---------------------------------------------------------------------------
  // The program
  // ---------------------------------------------------------------------------

  /** The spawning loop: one task per sitemap, in order, each handed the same ignore list. */
  method SpawnChecks(args: Args, env: Environment) returns (handles: JoinSet)
    ensures fresh(handles)
    ensures handles.pending == CheckAll(args.sitemaps, args.ignore, env)
  {
    ghost var spawned := CheckAll(args.sitemaps, args.ignore, env);
    handles := new JoinSet();
    for i := 0 to |args.sitemaps|
      invariant handles.pending == spawned[..i]
    {
      var outcome, probed := HandleSitemap(args.sitemaps[i], args.ignore, env);
      handles.Spawn(outcome);
      assert spawned[..i + 1] == spawned[..i] + [outcome];
    }
    assert spawned[..|args.sitemaps|] == spawned;
  }

  /** The outcome held between a join and its processing, as a multiset. */
  function Held(next: Option<TaskOutcome>): multiset<TaskOutcome> {
    if next.Some? then multiset{next.value} else multiset{}
  }

  /** Taking out the k-th pending task leaves the multiset of tasks unchanged overall. */
  lemma RemoveAt(s: seq<TaskOutcome>, k: nat)
    requires k < |s|
    ensures multiset(s) == multiset(s[..k] + s[k + 1..]) + multiset{s[k]}
  {
    assert s == s[..k] + [s[k]] + s[k + 1..];
  }

  /**
   * One join of the drain loop keeps every spawned task accounted for: the
   * processed outcome moves to the joined ones, and the next join moves one
   * pending task into the hand.
   */
  lemma JoinStep(
    spawned: seq<TaskOutcome>, joined: seq<TaskOutcome>, res: TaskOutcome,
    pending: seq<TaskOutcome>, k: nat, next: Option<TaskOutcome>, rest: seq<TaskOutcome>)
    requires multiset(joined) + multiset(pending) + multiset{res} == multiset(spawned)
    requires pending == [] ==> next.None? && rest == []
    requires pending != [] ==> k < |pending| && next == Some(pending[k]) && rest == pending[..k] + pending[k + 1..]
    ensures multiset(joined + [res]) + multiset(rest) + Held(next) == multiset(spawned)
  {
    if pending != [] {
      RemoveAt(pending, k);
    }
  }

  /** The posts a step appends: nothing for a failed task, the notification post, then the critical one if flagged. */
  lemma PostsSnoc(joined: seq<TaskOutcome>, res: TaskOutcome, posts: seq<Post>, notificationUrl: string, criticalUrl: string)
    requires posts == Posts(joined, notificationUrl, criticalUrl)
    ensures Posts(joined + [res], notificationUrl, criticalUrl) ==
      match res
      case Panicked => posts
      case Completed(r) =>
        if r.unreachablePages.Some?
        then posts + [Post(NotificationChannel, notificationUrl, r)] + [Post(CriticalChannel, criticalUrl, r)]
        else posts + [Post(NotificationChannel, notificationUrl, r)]
  {
    PostsAppend(joined, [res], notificationUrl, criticalUrl);
    assert [res][1..] == [];
    assert Posts([res], notificationUrl, criticalUrl) == PostsFor(res, notificationUrl, criticalUrl) + [];
  }

  /**
   * The `while let Some(res) = handles.join_next()` loop. `schedule(step)`
   * picks which pending task the runtime hands out at the step-th join; the
   * ghost `joined` is the completion order that results.
   */
  method Drain(handles: JoinSet, schedule: nat -> nat, notificationUrl: string, criticalUrl: string)
    returns (posts: seq<Post>, ghost joined: seq<TaskOutcome>)
    modifies handles
    ensures handles.pending == []
    ensures multiset(joined) == multiset(old(handles.pending))
    ensures posts == Posts(joined, notificationUrl, criticalUrl)
  {
    ghost var spawned := handles.pending;
    posts, joined := [], [];
    var step := 0;
    var next := handles.JoinNext(schedule(step));
    if next.Some? {
      RemoveAt(spawned, schedule(step) % |spawned|);
    }
    while next.Some?
      invariant next.None? ==> handles.pending == []
      invariant multiset(joined) + multiset(handles.pending) + Held(next) == multiset(spawned)
      invariant posts == Posts(joined, notificationUrl, criticalUrl)
      decreases |handles.pending| + (if next.Some? then 1 else 0)
    {
      var res := next.value;
      PostsSnoc(joined, res, posts, notificationUrl, criticalUrl);
      if res.Completed? {
        var siteCheckResult := res.result;
        posts := posts + [Post(NotificationChannel, notificationUrl, siteCheckResult)];
        if siteCheckResult.unreachablePages.Some? {
          posts := posts + [Post(CriticalChannel, criticalUrl, siteCheckResult)];
        }
      }
      ghost var pending := handles.pending;
      step := step + 1;
      next := handles.JoinNext(schedule(step));
      JoinStep(spawned, joined, res, pending, if pending == [] then 0 else schedule(step) % |pending|, next, handles.pending);
      joined := joined + [res];
    }
  }

  /**
   * `main` after argument parsing: spawn, then drain. Whatever the completion
   * order, every completed check is posted to the notification endpoint
   * exactly once, and exactly the flagged ones to the critical endpoint.
   */
  method Run(args: Args, env: Environment, schedule: nat -> nat) returns (posts: seq<Post>, ghost joined: seq<TaskOutcome>)
    ensures multiset(joined) == multiset(CheckAll(args.sitemaps, args.ignore, env))
    ensures posts == Posts(joined, args.notificationUrl, args.criticalUrl)
    ensures multiset(SentOn(posts, NotificationChannel)) == multiset(CompletedResults(CheckAll(args.sitemaps, args.ignore, env)))
    ensures multiset(SentOn(posts, CriticalChannel)) == multiset(Flagged(CompletedResults(CheckAll(args.sitemaps, args.ignore, env))))
    ensures forall p :: p in posts && p.channel == CriticalChannel ==>
      p.url == args.criticalUrl && p.result.status == Success &&
      p.result.unreachableTotal.Some? && p.result.unreachableTotal.value > 0
    ensures Routed(posts, args.notificationUrl, args.criticalUrl)
  {
    var handles := SpawnChecks(args, env);
    ghost var spawned := handles.pending;
    posts, joined := Drain(handles, schedule, args.notificationUrl, args.criticalUrl);
    NotifiedExactlyOnce(joined, args.notificationUrl, args.criticalUrl);
    CriticalOnlyWhenFlagged(joined, args.notificationUrl, args.criticalUrl);
    PostsRouted(joined, args.notificationUrl, args.criticalUrl);
    CompletedResultsPermutation(joined, spawned);
    FlaggedPermutation(CompletedResults(joined), CompletedResults(spawned));
    forall i | 0 <= i < |joined| && joined[i].Completed?
      ensures WellFormed(joined[i].result)
    {
      assert joined[i] in multiset(spawned);
    }
    FailedSitemapsNotCritical(joined, args.notificationUrl, args.criticalUrl);
  }
}
