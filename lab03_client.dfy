/**
 * Lab03/src/repositories_adapter.py, `make_github_request`: one GraphQL query
 * sent up to `max_retries` times. A 200 answer returns its body; a 502
 * answer waits `2 ** retries` seconds and tries again; any other status
 * gives up at once with `None`.
 *
 * Every Lab03 request goes to one scripted server, whose answers carry one
 * of the three body shapes the module reads (or no `data` at all). The
 * requests sent and the waits taken so far are threaded through every
 * operation as an `Io` value.
 */
module Lab03Client {
  import opened Wrappers
  import opened Api

  /** A repository edge's node, as the Lab03 search selects it. */
  datatype RepoNode = RepoNode(name: string, ownerLogin: string, stargazerCount: int,
                               primaryLanguage: Option<string>, url: string)

  /** A pull request in a `pullRequests` page: its number, title and review count. */
  datatype PrNode = PrNode(number: int, title: string, reviewCount: int)

  /** One changed file of a pull request. */
  datatype FileNode = FileNode(additions: int, deletions: int)

  /** The `pullRequest` object of the detail query. */
  datatype PrData = PrData(
    number: int,
    title: string,
    state: string,
    bodyText: Option<string>,
    createdAt: string,
    closedAt: Option<string>,
    mergedAt: Option<string>,
    comments: int,          // `comments { totalCount }`
    participants: int,      // `participants { totalCount }`
    reviews: int,           // `reviews { totalCount }`
    totalFiles: int,        // `files { totalCount }`
    files: seq<FileNode>)   // `files(first: 100) { nodes }`

  /**
   * A decoded JSON body: `data.search`, `data.repository.pullRequests`,
   * `data.repository.pullRequest` (each of which may be null), or a body
   * that is empty or has no `data` member.
   */
  datatype Body =
    | SearchBody(search: Option<Page<RepoNode>>)
    | RepositoryBody(pullRequests: Option<Page<PrNode>>)
    | PullRequestBody(pullRequest: Option<PrData>)
    | NoData

  /** The query text, reduced to what varies between requests. */
  datatype Query =
    | SearchQuery(first: nat, after: Option<string>)
    | PullRequestsQuery(owner: string, name: string, after: Option<string>)
    | PullRequestQuery(owner: string, name: string, number: int)

  /** Every request sent so far, in order, and every `time.sleep` taken. */
  datatype Io = Io(sent: seq<Query>, waits: seq<nat>)

  /** What `make_github_request` returns, with the requests and waits after it. */
  datatype Reply = Reply(data: Option<Body>, io: Io)

  /** `max_retries=5` */
  const MaxRetries := 5

  const StatusBadGateway := 502

  function Pow2(n: nat): (p: nat)
    ensures p >= 1
  {
    if n == 0 then 1 else 2 * Pow2(n - 1)
  }

  /** The waits after `n` consecutive 502 answers: 1, 2, 4, ... seconds. */
  function Backoff(from: nat, n: nat): (waits: seq<nat>)
    ensures |waits| == n
    ensures forall i :: 0 <= i < n ==> waits[i] == Pow2(from + i)
    decreases n
  {
    if n == 0 then [] else [Pow2(from)] + Backoff(from + 1, n - 1)
  }

  /** The `while retries < max_retries` loop from `retries` on. */
  function Retry(server: Server<Body>, query: Query, maxRetries: nat, retries: nat, io: Io): Reply
    decreases maxRetries - retries
  {
    if retries >= maxRetries then Reply(None, io)
    else
      var response := server(|io.sent|);
      var io' := io.(sent := io.sent + [query]);
      if response.status == StatusOk then Reply(Some(response.body), io')
      else if response.status == StatusBadGateway then
        Retry(server, query, maxRetries, retries + 1, io'.(waits := io.waits + [Pow2(retries)]))
      else Reply(None, io')
  }

  /** One call of `make_github_request(query, max_retries)`. */
  function Request(server: Server<Body>, query: Query, maxRetries: nat, io: Io): Reply {
    Retry(server, query, maxRetries, 0, io)
  }

  method MakeGithubRequest(server: Server<Body>, query: Query, maxRetries: nat, io: Io)
    returns (data: Option<Body>, next: Io)
    ensures Reply(data, next) == Request(server, query, maxRetries, io)
  {
    var retries := 0;
    next := io;
    ghost var target := Request(server, query, maxRetries, io);
    while retries < maxRetries
      invariant Retry(server, query, maxRetries, retries, next) == target
      decreases maxRetries - retries
    {
      var response := server(|next.sent|);
      var waits := next.waits;
      next := next.(sent := next.sent + [query]);
      if response.status == StatusOk {
        return Some(response.body), next;
      } else if response.status == StatusBadGateway {
        var waitTime := Pow2(retries);
        next := next.(waits := waits + [waitTime]);
        retries := retries + 1;
      } else {
        break;
      }
    }
    data := None;
  }

  // ----- What one call consumed -----

  /** `n` copies of `q`. */
  function Repeat(q: Query, n: nat): (s: seq<Query>)
    ensures |s| == n && forall i :: 0 <= i < n ==> s[i] == q
  {
    seq(n, (i: int) => q)
  }

  /** The number of 502 answers among `k` answers that end a call. */
  function BadGateways(server: Server<Body>, start: nat, k: nat): nat {
    if k > 0 && server(start + k - 1).status != StatusBadGateway then k - 1 else k
  }

  /**
   * A call that began with `io` and ended with `reply` read the `k` answers
   * after `start` as the source does: it sent the query `k` times
   * (at most `maxRetries`, at least once when retrying is allowed), every
   * answer but the last was a 502, a 502 last answer means the retries ran
   * out, the call returned a body exactly when the last answer was a 200
   * (and returned that body), and it waited 1, 2, 4, ... seconds after
   * each 502.
   */
  ghost predicate CallExplained(server: Server<Body>, query: Query, maxRetries: nat, io: Io, reply: Reply)
  {
    var start := |io.sent|;
    && |reply.io.sent| >= start
    && var k := |reply.io.sent| - start;
    && reply.io.sent == io.sent + Repeat(query, k)
    && k <= maxRetries
    && (maxRetries > 0 ==> k > 0)
    && (forall i :: start <= i < start + k - 1 ==> server(i).status == StatusBadGateway)
    && (k > 0 && server(start + k - 1).status == StatusBadGateway ==> k == maxRetries)
    && (reply.data.Some? <==> k > 0 && server(start + k - 1).status == StatusOk)
    && (reply.data.Some? ==> reply.data.value == server(start + k - 1).body)
    && reply.io.waits == io.waits + Backoff(0, BadGateways(server, start, k))
  }

  /** The requests and the answer of `Retry` from `retries` on, as in `CallExplained`. */
  lemma {:induction false} RetrySent(server: Server<Body>, query: Query, maxRetries: nat, retries: nat, io: Io)
    requires retries <= maxRetries
    ensures var reply := Retry(server, query, maxRetries, retries, io);
      var start := |io.sent|;
      && |reply.io.sent| >= start
      && var k := |reply.io.sent| - start;
      && reply.io.sent == io.sent + Repeat(query, k)
      && k <= maxRetries - retries
      && (retries < maxRetries ==> k > 0)
      && (forall i :: start <= i < start + k - 1 ==> server(i).status == StatusBadGateway)
      && (k > 0 && server(start + k - 1).status == StatusBadGateway ==> k == maxRetries - retries)
      && (reply.data.Some? <==> k > 0 && server(start + k - 1).status == StatusOk)
      && (reply.data.Some? ==> reply.data.value == server(start + k - 1).body)
    decreases maxRetries - retries
  {
    var start := |io.sent|;
    if retries < maxRetries {
      var response := server(start);
      var io' := io.(sent := io.sent + [query]);
      if response.status == StatusBadGateway {
        var io'' := io'.(waits := io.waits + [Pow2(retries)]);
        assert Retry(server, query, maxRetries, retries, io) == Retry(server, query, maxRetries, retries + 1, io'');
        RetrySent(server, query, maxRetries, retries + 1, io'');
        var reply := Retry(server, query, maxRetries, retries + 1, io'');
        var k' := |reply.io.sent| - (start + 1);
        assert Repeat(query, k' + 1) == [query] + Repeat(query, k');
      } else {
        assert Repeat(query, 1) == [query];
      }
    } else {
      assert Repeat(query, 0) == [];
    }
  }

  /** A wait of `2 ** from` followed by the waits after it. */
  lemma WaitsStep(before: seq<nat>, from: nat, bad: nat, after: seq<nat>)
    requires after == (before + [Pow2(from)]) + Backoff(from + 1, bad)
    ensures after == before + Backoff(from, bad + 1)
  {
    assert Backoff(from, bad + 1) == [Pow2(from)] + Backoff(from + 1, bad);
  }

  /** The waits of `Retry` from `retries` on: `2 ** retries`, doubling, one per 502 answer. */
  lemma {:induction false} RetryWaits(server: Server<Body>, query: Query, maxRetries: nat, retries: nat, io: Io)
    requires retries <= maxRetries
    ensures var reply := Retry(server, query, maxRetries, retries, io);
      var start := |io.sent|;
      && |reply.io.sent| >= start
      && reply.io.waits == io.waits + Backoff(retries, BadGateways(server, start, |reply.io.sent| - start))
    decreases maxRetries - retries
  {
    var start := |io.sent|;
    if retries < maxRetries {
      var response := server(start);
      var io' := io.(sent := io.sent + [query]);
      if response.status == StatusBadGateway {
        var io'' := io'.(waits := io.waits + [Pow2(retries)]);
        assert Retry(server, query, maxRetries, retries, io) == Retry(server, query, maxRetries, retries + 1, io'');
        RetryWaits(server, query, maxRetries, retries + 1, io'');
        var reply := Retry(server, query, maxRetries, retries + 1, io'');
        var k' := |reply.io.sent| - (start + 1);
        var bad := BadGateways(server, start + 1, k');
        assert BadGateways(server, start, k' + 1) == bad + 1;
        WaitsStep(io.waits, retries, bad, reply.io.waits);
      } else {
        assert Backoff(retries, 0) == [];
      }
    } else {
      assert Backoff(retries, 0) == [];
    }
  }

  /** `Retry` from `retries` on, as in `CallExplained` with the waits starting at `2 ** retries`. */
  lemma RetryExplained(server: Server<Body>, query: Query, maxRetries: nat, retries: nat, io: Io)
    requires retries <= maxRetries
    ensures var reply := Retry(server, query, maxRetries, retries, io);
      var start := |io.sent|;
      && |reply.io.sent| >= start
      && var k := |reply.io.sent| - start;
      && reply.io.sent == io.sent + Repeat(query, k)
      && k <= maxRetries - retries
      && (retries < maxRetries ==> k > 0)
      && (forall i :: start <= i < start + k - 1 ==> server(i).status == StatusBadGateway)
      && (k > 0 && server(start + k - 1).status == StatusBadGateway ==> k == maxRetries - retries)
      && (reply.data.Some? <==> k > 0 && server(start + k - 1).status == StatusOk)
      && (reply.data.Some? ==> reply.data.value == server(start + k - 1).body)
      && reply.io.waits == io.waits + Backoff(retries, BadGateways(server, start, k))
  {
    RetrySent(server, query, maxRetries, retries, io);
    RetryWaits(server, query, maxRetries, retries, io);
  }

  /**
   * A call that returns data sent at least one request, and the data is the
   * body of its last answer, a 200; a call that returns `None` after a
   * request ended at an answer that is not a 200; every answer but the last
   * is a 502.
   */
  lemma RequestAnswer(server: Server<Body>, query: Query, maxRetries: nat, io: Io)
    ensures var reply := Request(server, query, maxRetries, io);
      var hi := |reply.io.sent|;
      && (reply.data.Some? ==>
            && hi > |io.sent|
            && server(hi - 1).status == StatusOk
            && reply.data.value == server(hi - 1).body)
      && (reply.data.None? && hi > |io.sent| ==> server(hi - 1).status != StatusOk)
      && (maxRetries > 0 ==> hi > |io.sent|)
      && (forall j :: |io.sent| <= j < hi - 1 ==> server(j).status == StatusBadGateway)
  {
    RetrySent(server, query, maxRetries, 0, io);
  }

  /** Every call of `make_github_request` is explained by the answers it read. */
  lemma RequestExplained(server: Server<Body>, query: Query, maxRetries: nat, io: Io)
    ensures CallExplained(server, query, maxRetries, io, Request(server, query, maxRetries, io))
  {
    RetryExplained(server, query, maxRetries, 0, io);
  }

  /**
   * Five 502 answers in a row: the default call sends five requests, waits
   * 1, 2, 4, 8 and 16 seconds (the last wait comes after the last attempt),
   * and returns `None`.
   */
  lemma FiveBadGateways(server: Server<Body>, query: Query, io: Io)
    requires forall i :: |io.sent| <= i < |io.sent| + MaxRetries ==> server(i).status == StatusBadGateway
    ensures var reply := Request(server, query, MaxRetries, io);
      && reply.data.None?
      && reply.io.sent == io.sent + [query, query, query, query, query]
      && reply.io.waits == io.waits + [1, 2, 4, 8, 16]
  {
    RequestExplained(server, query, MaxRetries, io);
    var reply := Request(server, query, MaxRetries, io);
    var k := |reply.io.sent| - |io.sent|;
    assert server(|io.sent| + k - 1).status == StatusBadGateway;
    assert k == MaxRetries;
    assert Repeat(query, 5) == [query, query, query, query, query];
    assert Backoff(0, 5) == [1, 2, 4, 8, 16];
  }

  /**
   * A status other than 200 and 502 ends the call at once: one request, no
   * wait, no body.
   */
  lemma OtherErrorGivesUp(server: Server<Body>, query: Query, maxRetries: nat, io: Io)
    requires maxRetries > 0
    requires server(|io.sent|).status != StatusOk && server(|io.sent|).status != StatusBadGateway
    ensures Request(server, query, maxRetries, io) == Reply(None, io.(sent := io.sent + [query]))
  {
  }

  // ----- What a sequence of answers delivered -----

  /**
   * `f` of the body of every 200 answer among the answers `lo` to `hi - 1`,
   * concatenated in order.
   */
  function Gathered<T>(server: Server<Body>, f: Body -> seq<T>, lo: nat, hi: nat): seq<T>
    decreases hi
  {
    if hi <= lo then []
    else Gathered(server, f, lo, hi - 1) + (if server(hi - 1).status == StatusOk then f(server(hi - 1).body) else [])
  }

  /** The number of 200 answers among the answers `lo` to `hi - 1`. */
  function Successes(server: Server<Body>, lo: nat, hi: nat): nat
    decreases hi
  {
    if hi <= lo then 0
    else Successes(server, lo, hi - 1) + (if server(hi - 1).status == StatusOk then 1 else 0)
  }

  lemma {:induction false} GatheredSplit<T>(server: Server<Body>, f: Body -> seq<T>, lo: nat, mid: nat, hi: nat)
    requires lo <= mid <= hi
    ensures Gathered(server, f, lo, mid) + Gathered(server, f, mid, hi) == Gathered(server, f, lo, hi)
    ensures Successes(server, lo, mid) + Successes(server, mid, hi) == Successes(server, lo, hi)
    decreases hi
  {
    if mid < hi {
      GatheredSplit(server, f, lo, mid, hi - 1);
    }
  }

  /** Answers that are all 502 deliver nothing. */
  lemma {:induction false} GatheredBadGateways<T>(server: Server<Body>, f: Body -> seq<T>, lo: nat, hi: nat)
    requires forall i :: lo <= i < hi ==> server(i).status == StatusBadGateway
    ensures Gathered(server, f, lo, hi) == []
    ensures Successes(server, lo, hi) == 0
    decreases hi
  {
    if lo < hi {
      GatheredBadGateways(server, f, lo, hi - 1);
    }
  }

  /**
   * One call delivers `f` of the body it returned, or nothing when it
   * returned `None`; it read at most one 200 answer.
   */
  lemma CallGathered<T>(server: Server<Body>, f: Body -> seq<T>, query: Query, io: Io)
    ensures var reply := Request(server, query, MaxRetries, io);
      && |reply.io.sent| > |io.sent|
      && Gathered(server, f, |io.sent|, |reply.io.sent|) == (if reply.data.Some? then f(reply.data.value) else [])
      && Successes(server, |io.sent|, |reply.io.sent|) == (if reply.data.Some? then 1 else 0)
  {
    RequestExplained(server, query, MaxRetries, io);
    var reply := Request(server, query, MaxRetries, io);
    var lo := |io.sent|;
    var hi := |reply.io.sent|;
    GatheredBadGateways(server, f, lo, hi - 1);
  }

  /**
   * A loop that started from `acc` at answer `lo` and ended with `items`
   * after answer `hi - 1` added `f` of every 200 answer, in order, and gave
   * up with `None` exactly at a 200 answer whose body `raises`, which is
   * then its last answer: no earlier 200 answer raises.
   */
  ghost predicate GathersUntil<T>(server: Server<Body>, f: Body -> seq<T>, raises: Body -> bool, acc: seq<T>,
                                  lo: nat, items: Option<seq<T>>, hi: nat)
  {
    && lo <= hi
    && (items.Some? ==> items.value == acc + Gathered(server, f, lo, hi))
    && (forall j :: lo <= j < hi - 1 ==> server(j).status != StatusOk || !raises(server(j).body))
    && (items.None? <==> hi > lo && server(hi - 1).status == StatusOk && raises(server(hi - 1).body))
  }

  /** The answers `lo` to `m - 1` of a call that did not raise, followed by the rest of the loop. */
  lemma GathersUntilJoin<T>(server: Server<Body>, f: Body -> seq<T>, raises: Body -> bool, acc: seq<T>,
                            extra: seq<T>, lo: nat, m: nat, items: Option<seq<T>>, hi: nat)
    requires lo < m
    requires forall j :: lo <= j < m - 1 ==> server(j).status == StatusBadGateway
    requires server(m - 1).status != StatusOk || !raises(server(m - 1).body)
    requires Gathered(server, f, lo, m) == extra
    requires GathersUntil(server, f, raises, acc + extra, m, items, hi)
    ensures GathersUntil(server, f, raises, acc, lo, items, hi)
  {
    GatheredSplit(server, f, lo, m, hi);
    if items.Some? {
      calc {
        items.value;
        (acc + extra) + Gathered(server, f, m, hi);
        acc + (Gathered(server, f, lo, m) + Gathered(server, f, m, hi));
        acc + Gathered(server, f, lo, hi);
      }
    }
    forall j | lo <= j < hi - 1 ensures server(j).status != StatusOk || !raises(server(j).body) {
      if j < m - 1 {
        assert server(j).status == StatusBadGateway;
      }
    }
  }

  // ----- The calls a sequence of answers splits into -----

  /**
   * Where a call of `make_github_request(query)` whose `k`-th attempt reads
   * answer `lo + k` ends: after its first answer that is not a 502, or after
   * its fifth answer.
   */
  function CallEndFrom(server: Server<Body>, lo: nat, k: nat): (hi: nat)
    requires k < MaxRetries
    ensures lo + k < hi <= lo + MaxRetries
    decreases MaxRetries - k
  {
    if k + 1 == MaxRetries || server(lo + k).status != StatusBadGateway then lo + k + 1
    else CallEndFrom(server, lo, k + 1)
  }

  /** From its `k`-th attempt on, a call reads 502s until its last answer, and a last 502 is its fifth. */
  lemma {:induction false} CallEndFromShape(server: Server<Body>, lo: nat, k: nat)
    requires k < MaxRetries
    ensures var hi := CallEndFrom(server, lo, k);
      && (forall j :: lo + k <= j < hi - 1 ==> server(j).status == StatusBadGateway)
      && (server(hi - 1).status == StatusBadGateway ==> hi == lo + MaxRetries)
    decreases MaxRetries - k
  {
    if !(k + 1 == MaxRetries || server(lo + k).status != StatusBadGateway) {
      CallEndFromShape(server, lo, k + 1);
    }
  }

  /** Where a call that reads answer `lo` first ends (see `CallEndIs`). */
  function CallEnd(server: Server<Body>, lo: nat): (hi: nat)
    ensures lo < hi <= lo + MaxRetries
  {
    CallEndFrom(server, lo, 0)
  }

  /**
   * A call ends where every answer before its last is a 502 and a last 502
   * is its fifth answer, and nowhere else.
   */
  lemma CallEndIs(server: Server<Body>, lo: nat, hi: nat)
    requires lo < hi <= lo + MaxRetries
    ensures hi == CallEnd(server, lo) <==>
      && (forall j :: lo <= j < hi - 1 ==> server(j).status == StatusBadGateway)
      && (server(hi - 1).status == StatusBadGateway ==> hi == lo + MaxRetries)
  {
    CallEndFromShape(server, lo, 0);
  }

  /** The body the call that reads answer `lo` first returns: that of its last answer, when it is a 200. */
  function CallData(server: Server<Body>, lo: nat): Option<Body> {
    var last := server(CallEnd(server, lo) - 1);
    if last.status == StatusOk then Some(last.body) else None
  }

  /** The waits of the call that reads answer `lo` first: 1, 2, 4, ... seconds, one per 502. */
  function CallWaits(server: Server<Body>, lo: nat): seq<nat> {
    Backoff(0, BadGateways(server, lo, CallEnd(server, lo) - lo))
  }

  /** One call of `make_github_request(query)` reads the answers of the call that starts where it starts. */
  lemma RequestCall(server: Server<Body>, query: Query, io: Io)
    ensures var reply := Request(server, query, MaxRetries, io);
      && |reply.io.sent| == CallEnd(server, |io.sent|)
      && reply.io.sent == io.sent + Repeat(query, CallEnd(server, |io.sent|) - |io.sent|)
      && reply.data == CallData(server, |io.sent|)
      && reply.io.waits == io.waits + CallWaits(server, |io.sent|)
  {
    var reply := Request(server, query, MaxRetries, io);
    RequestExplained(server, query, MaxRetries, io);
    CallEndIs(server, |io.sent|, |reply.io.sent|);
  }

  /** The `n`-th of `lo`, `next(lo)`, `next(next(lo))`, ... */
  function Chain(next: nat -> nat, lo: nat, n: nat): nat
    decreases n
  {
    if n == 0 then lo else Chain(next, next(lo), n - 1)
  }

  /** `each` of the first `n` of `lo`, `next(lo)`, ..., concatenated in order. */
  function ChainConcat<T>(next: nat -> nat, each: nat -> seq<T>, lo: nat, n: nat): seq<T>
    decreases n
  {
    if n == 0 then [] else each(lo) + ChainConcat(next, each, next(lo), n - 1)
  }

  /** `a + b` steps are `a` steps followed by `b` steps. */
  lemma {:induction false} ChainSplit<T>(next: nat -> nat, each: nat -> seq<T>, lo: nat, a: nat, b: nat)
    ensures Chain(next, lo, a + b) == Chain(next, Chain(next, lo, a), b)
    ensures ChainConcat(next, each, lo, a + b) == ChainConcat(next, each, lo, a) + ChainConcat(next, each, Chain(next, lo, a), b)
    decreases a
  {
    if a > 0 {
      ChainSplit(next, each, next(lo), a - 1, b);
      assert a + b - 1 == (a - 1) + b;
    } else {
      assert ChainConcat(next, each, lo, 0) == [];
    }
  }

  /** The ends of the calls: the call that reads answer `lo` first ends at `CallEnd(server, lo)`. */
  function CallEnds(server: Server<Body>): nat -> nat {
    (lo: nat) => CallEnd(server, lo)
  }

  /** The waits of the call that reads answer `lo` first. */
  function CallWaitsAt(server: Server<Body>): nat -> seq<nat> {
    (lo: nat) => CallWaits(server, lo)
  }

  /** The answer that the `n`-th of consecutive calls, the first reading answer `lo` first, reads first. */
  function CallStart(server: Server<Body>, lo: nat, n: nat): nat {
    Chain(CallEnds(server), lo, n)
  }

  /** The waits of `n` consecutive calls from answer `lo` on, call after call. */
  function CallsWaits(server: Server<Body>, lo: nat, n: nat): seq<nat> {
    ChainConcat(CallEnds(server), CallWaitsAt(server), lo, n)
  }

  /** No call starts where the calls start; one more call comes first. */
  lemma CallStartStep(server: Server<Body>, lo: nat, n: nat)
    ensures CallStart(server, lo, 0) == lo
    ensures CallStart(server, lo, n + 1) == CallStart(server, CallEnd(server, lo), n)
  {
  }

  /** No call takes no waits; one more call's waits come first. */
  lemma CallsStep(server: Server<Body>, lo: nat, n: nat)
    ensures CallStart(server, lo, 0) == lo && CallsWaits(server, lo, 0) == []
    ensures CallStart(server, lo, n + 1) == CallStart(server, CallEnd(server, lo), n)
    ensures CallsWaits(server, lo, n + 1) == CallWaits(server, lo) + CallsWaits(server, CallEnd(server, lo), n)
  {
  }

  /** The calls start no earlier than the first, and each call reads at least one answer. */
  lemma {:induction false} CallStartAtLeast(server: Server<Body>, lo: nat, n: nat)
    ensures lo + n <= CallStart(server, lo, n)
    decreases n
  {
    if n > 0 {
      CallStartAtLeast(server, CallEnd(server, lo), n - 1);
      CallStartStep(server, lo, n - 1);
    }
  }

  /** `a + b` consecutive calls are `a` calls followed by `b` calls, for their starts and their waits. */
  lemma CallsSplit(server: Server<Body>, lo: nat, a: nat, b: nat)
    ensures CallStart(server, lo, a + b) == CallStart(server, CallStart(server, lo, a), b)
    ensures CallsWaits(server, lo, a + b) == CallsWaits(server, lo, a) + CallsWaits(server, CallStart(server, lo, a), b)
  {
    ChainSplit(CallEnds(server), CallWaitsAt(server), lo, a, b);
  }

  /** `a + b` consecutive calls start where `b` calls after the first `a` start. */
  lemma CallStartSplit(server: Server<Body>, lo: nat, a: nat, b: nat)
    ensures CallStart(server, lo, a + b) == CallStart(server, CallStart(server, lo, a), b)
  {
    ChainSplit(CallEnds(server), CallWaitsAt(server), lo, a, b);
  }

  lemma Associative<T>(x: seq<T>, y: seq<T>, z: seq<T>)
    ensures x + (y + z) == (x + y) + z
  {
  }
}
