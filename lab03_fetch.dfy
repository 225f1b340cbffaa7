/**
 * Lab03/src/repositories_adapter.py, `fetch_repositories` and
 * `fetch_pull_requests`: the two cursor loops of Lab03. Neither retries by
 * itself (retrying is `make_github_request`'s job); both stop at the first
 * call that brings no usable page and return what they have gathered, never
 * `None`.
 */
module Lab03Fetch {
  import opened Wrappers
  import opened Api
  import opened Lab03Client
  import Paginator

  /** A list gathered by a loop, with the requests and waits after it. */
  datatype Fetched<T> = Fetched(items: seq<T>, io: Io)

  /**
   * The cursor a loop that started from `start` at request `lo` holds when
   * it sends request `i`: `cursorOf` the body of the latest 200 answer
   * before `i`, or `start` when there is none.
   */
  function LastCursor(server: Server<Body>, cursorOf: Body -> Cursor, start: Cursor, lo: nat, i: nat): Cursor
    decreases i
  {
    if i <= lo then start
    else if server(i - 1).status == StatusOk then cursorOf(server(i - 1).body)
    else LastCursor(server, cursorOf, start, lo, i - 1)
  }

  /** Answers that are not 200 leave the cursor as it was. */
  lemma {:induction false} LastCursorSkips(server: Server<Body>, cursorOf: Body -> Cursor, start: Cursor, lo: nat, i: nat)
    requires forall j :: lo <= j < i ==> server(j).status != StatusOk
    ensures LastCursor(server, cursorOf, start, lo, i) == start
    decreases i
  {
    if i > lo {
      LastCursorSkips(server, cursorOf, start, lo, i - 1);
    }
  }

  /** The cursor at `i` is the cursor at `i` of a loop restarted at `mid` from the cursor held there. */
  lemma {:induction false} LastCursorSplit(server: Server<Body>, cursorOf: Body -> Cursor, start: Cursor,
                                           lo: nat, mid: nat, i: nat)
    requires lo <= mid <= i
    ensures LastCursor(server, cursorOf, start, lo, i)
         == LastCursor(server, cursorOf, LastCursor(server, cursorOf, start, lo, mid), mid, i)
    decreases i
  {
    if i > mid {
      LastCursorSplit(server, cursorOf, start, lo, mid, i - 1);
    }
  }

  /**
   * The call that reads answer `start` first lets the loop go on: it ends
   * at a 200 answer after which the loop `continues`.
   */
  ghost predicate GoesOn(server: Server<Body>, continues: Response<Body> -> bool, start: nat) {
    var last := server(CallEnd(server, start) - 1);
    last.status == StatusOk && continues(last)
  }

  /** The `m` calls from the one that reads answer `lo` on all let the loop go on. */
  ghost predicate AllGoOn(server: Server<Body>, continues: Response<Body> -> bool, lo: nat, m: nat)
    decreases m
  {
    m == 0 || (GoesOn(server, continues, lo) && AllGoOn(server, continues, CallEnd(server, lo), m - 1))
  }

  /** `AllGoOn` says of each of the `m` calls that it went on. */
  lemma {:induction false} AllGoOnEach(server: Server<Body>, continues: Response<Body> -> bool, lo: nat, m: nat)
    ensures AllGoOn(server, continues, lo, m)
        <==> forall k :: 0 <= k < m ==> GoesOn(server, continues, CallStart(server, lo, k))
    decreases m
  {
    CallStartStep(server, lo, 0);
    if m > 0 {
      var next := CallEnd(server, lo);
      AllGoOnEach(server, continues, next, m - 1);
      forall k | 0 < k < m ensures CallStart(server, lo, k) == CallStart(server, next, k - 1) {
        CallStartStep(server, lo, k - 1);
      }
      if forall k :: 0 <= k < m ==> GoesOn(server, continues, CallStart(server, lo, k)) {
        forall k | 0 <= k < m - 1 ensures GoesOn(server, continues, CallStart(server, next, k)) {
          assert CallStart(server, lo, k + 1) == CallStart(server, next, k);
        }
      }
    }
  }

  /** `a` calls that went on, then `b` calls after them that went on, are `a + b` calls that went on. */
  lemma {:induction false} AllGoOnJoin(server: Server<Body>, continues: Response<Body> -> bool, lo: nat, a: nat, b: nat)
    requires AllGoOn(server, continues, lo, a)
    requires AllGoOn(server, continues, CallStart(server, lo, a), b)
    ensures AllGoOn(server, continues, lo, a + b)
    decreases a
  {
    CallStartStep(server, lo, 0);
    if a > 0 {
      CallStartStep(server, lo, a - 1);
      AllGoOnJoin(server, continues, CallEnd(server, lo), a - 1, b);
    }
  }

  /**
   * The answers from `io` to `io'` are `n` whole calls of
   * `make_github_request`, no more than `calls`, and the waits are theirs;
   * every call but the last let the loop go on, and a loop of fewer than
   * `calls` calls ended with a call that did not.
   */
  ghost predicate InCalls(server: Server<Body>, continues: Response<Body> -> bool, calls: nat,
                          io: Io, io': Io, n: nat)
  {
    var lo := |io.sent|;
    && n <= calls
    && |io'.sent| == CallStart(server, lo, n)
    && io'.waits == io.waits + CallsWaits(server, lo, n)
    && (n > 0 ==> AllGoOn(server, continues, lo, n - 1))
    && (n < calls ==> n > 0 && !GoesOn(server, continues, CallStart(server, lo, n - 1)))
  }

  /** A loop of no calls reads nothing. */
  lemma InCallsNone(server: Server<Body>, continues: Response<Body> -> bool, io: Io)
    ensures InCalls(server, continues, 0, io, io, 0)
  {
    CallsStep(server, |io.sent|, 0);
    assert io.waits + [] == io.waits;
  }

  /** One call of `make_github_request` is a loop of one call. */
  lemma InCallsOne(server: Server<Body>, continues: Response<Body> -> bool, query: Query, io: Io)
    ensures InCalls(server, continues, 1, io, Request(server, query, MaxRetries, io).io, 1)
  {
    var lo := |io.sent|;
    RequestCall(server, query, io);
    CallsStep(server, lo, 0);
    CallsStep(server, CallEnd(server, lo), 0);
    assert CallWaits(server, lo) + [] == CallWaits(server, lo);
  }

  /** The answer before the end of the `n`-th call ends the last of the first `n` calls. */
  lemma LastCallEnds(server: Server<Body>, lo: nat, n: nat)
    requires n > 0
    ensures CallStart(server, lo, n) == CallEnd(server, CallStart(server, lo, n - 1))
  {
    CallStartSplit(server, lo, n - 1, 1);
    CallStartStep(server, CallStart(server, lo, n - 1), 0);
  }

  /** A loop that stopped at an answer after which it does not go on is a loop of any larger budget. */
  lemma InCallsWeaken(server: Server<Body>, continues: Response<Body> -> bool, io: Io, io': Io,
                      c1: nat, c2: nat, n: nat)
    requires InCalls(server, continues, c1, io, io', n) && c1 <= c2
    requires |io'.sent| > |io.sent|
    requires server(|io'.sent| - 1).status != StatusOk || !continues(server(|io'.sent| - 1))
    ensures InCalls(server, continues, c2, io, io', n)
  {
    var lo := |io.sent|;
    CallStartStep(server, lo, 0);
    if n > 0 {
      LastCallEnds(server, lo, n);
    }
  }

  /** A loop whose last answer went on used up its budget, and its last call went on. */
  lemma InCallsFull(server: Server<Body>, continues: Response<Body> -> bool, c1: nat, io: Io, mid: Io, n1: nat)
    requires InCalls(server, continues, c1, io, mid, n1)
    requires |mid.sent| > |io.sent|
    requires server(|mid.sent| - 1).status == StatusOk && continues(server(|mid.sent| - 1))
    ensures n1 == c1 && n1 > 0
    ensures GoesOn(server, continues, CallStart(server, |io.sent|, n1 - 1))
  {
    var lo := |io.sent|;
    CallStartStep(server, lo, 0);
    assert n1 > 0;
    LastCallEnds(server, lo, n1);
  }

  /** The starts and waits of `n1` calls, then `n2` calls, are those of `n1 + n2` calls. */
  lemma CallsJoin(server: Server<Body>, io: Io, mid: Io, io': Io, n1: nat, n2: nat)
    requires |mid.sent| == CallStart(server, |io.sent|, n1) && mid.waits == io.waits + CallsWaits(server, |io.sent|, n1)
    requires |io'.sent| == CallStart(server, |mid.sent|, n2) && io'.waits == mid.waits + CallsWaits(server, |mid.sent|, n2)
    ensures |io'.sent| == CallStart(server, |io.sent|, n1 + n2)
    ensures io'.waits == io.waits + CallsWaits(server, |io.sent|, n1 + n2)
  {
    var lo, m := |io.sent|, |mid.sent|;
    CallsSplit(server, lo, n1, n2);
    Associative(io.waits, CallsWaits(server, lo, n1), CallsWaits(server, m, n2));
  }

  /** A loop whose last call went on, followed by the loop after it, is one loop. */
  lemma InCallsCompose(server: Server<Body>, continues: Response<Body> -> bool, io: Io, mid: Io, io': Io,
                       c1: nat, c2: nat, n1: nat, n2: nat)
    requires InCalls(server, continues, c1, io, mid, n1)
    requires InCalls(server, continues, c2, mid, io', n2)
    requires |mid.sent| > |io.sent|
    requires server(|mid.sent| - 1).status == StatusOk && continues(server(|mid.sent| - 1))
    ensures InCalls(server, continues, c1 + c2, io, io', n1 + n2)
  {
    var lo, m := |io.sent|, |mid.sent|;
    InCallsFull(server, continues, c1, io, mid, n1);
    CallsJoin(server, io, mid, io', n1, n2);
    if n2 > 0 {
      AllGoOnLast(server, continues, lo, n1);
      LaterCalls(server, continues, lo, n1, n2);
    }
  }

  /** The calls after the first `n1` calls, as the calls of the loop that started there. */
  lemma LaterCalls(server: Server<Body>, continues: Response<Body> -> bool, lo: nat, n1: nat, n2: nat)
    requires n2 > 0
    requires AllGoOn(server, continues, lo, n1)
    ensures AllGoOn(server, continues, CallStart(server, lo, n1), n2 - 1) ==> AllGoOn(server, continues, lo, n1 + n2 - 1)
    ensures CallStart(server, lo, n1 + n2 - 1) == CallStart(server, CallStart(server, lo, n1), n2 - 1)
  {
    if AllGoOn(server, continues, CallStart(server, lo, n1), n2 - 1) {
      AllGoOnJoin(server, continues, lo, n1, n2 - 1);
    }
    CallStartSplit(server, lo, n1, n2 - 1);
  }

  /** Calls that went on, then one more that went on, all went on. */
  lemma AllGoOnLast(server: Server<Body>, continues: Response<Body> -> bool, lo: nat, n: nat)
    requires n > 0
    requires AllGoOn(server, continues, lo, n - 1)
    requires GoesOn(server, continues, CallStart(server, lo, n - 1))
    ensures AllGoOn(server, continues, lo, n)
  {
    CallStartStep(server, CallStart(server, lo, n - 1), 0);
    AllGoOnJoin(server, continues, lo, n - 1, 1);
  }

  /** The answers from `io` to `io'` split into the whole calls of a loop of at most `calls` calls. */
  ghost predicate SplitsIntoCalls(server: Server<Body>, continues: Response<Body> -> bool, calls: nat, io: Io, io': Io) {
    exists n: nat :: InCalls(server, continues, calls, io, io', n)
  }

  /** A first call that stops the loop is all of it, within any budget of at least one call. */
  lemma CallsStop(server: Server<Body>, continues: Response<Body> -> bool, query: Query, io: Io, calls: nat)
    requires calls > 0
    requires var reply := Request(server, query, MaxRetries, io);
      reply.data.None? || !continues(Response(StatusOk, reply.data.value))
    ensures InCalls(server, continues, calls, io, Request(server, query, MaxRetries, io).io, 1)
  {
    var reply := Request(server, query, MaxRetries, io);
    LastAnswer(server, continues, query, io);
    InCallsOne(server, continues, query, io);
    InCallsWeaken(server, continues, io, reply.io, 1, calls, 1);
  }

  /** The last answer of a call is its body's 200 when it returned one, and not a 200 otherwise. */
  lemma LastAnswer(server: Server<Body>, continues: Response<Body> -> bool, query: Query, io: Io)
    ensures var reply := Request(server, query, MaxRetries, io);
      var last := server(|reply.io.sent| - 1);
      && |reply.io.sent| > |io.sent|
      && (last.status == StatusOk && continues(last)
          <==> reply.data.Some? && continues(Response(StatusOk, reply.data.value)))
  {
    var reply := Request(server, query, MaxRetries, io);
    RequestAnswer(server, query, MaxRetries, io);
    if reply.data.Some? {
      assert server(|reply.io.sent| - 1) == Response(StatusOk, reply.data.value);
    }
  }

  /** A first call after which the loop goes on, followed by the rest of the loop. */
  lemma FirstCallGoesOn(server: Server<Body>, continues: Response<Body> -> bool, query: Query, io: Io)
    requires var reply := Request(server, query, MaxRetries, io);
      reply.data.Some? && continues(Response(StatusOk, reply.data.value))
    ensures var mid := Request(server, query, MaxRetries, io).io;
      && InCalls(server, continues, 1, io, mid, 1) && |mid.sent| > |io.sent|
      && server(|mid.sent| - 1).status == StatusOk && continues(server(|mid.sent| - 1))
  {
    LastAnswer(server, continues, query, io);
    InCallsOne(server, continues, query, io);
  }

  /** One call that goes on, then a run split into calls, is a run with one call more. */
  lemma InCallsPrepend(server: Server<Body>, continues: Response<Body> -> bool, io: Io, mid: Io, io': Io,
                       rest: nat, n: nat)
    requires InCalls(server, continues, 1, io, mid, 1) && |mid.sent| > |io.sent|
    requires server(|mid.sent| - 1).status == StatusOk && continues(server(|mid.sent| - 1))
    requires InCalls(server, continues, rest, mid, io', n)
    ensures InCalls(server, continues, rest + 1, io, io', n + 1)
  {
    InCallsCompose(server, continues, io, mid, io', 1, rest, 1, n);
  }

  lemma CallsGoOn(server: Server<Body>, continues: Response<Body> -> bool, query: Query, io: Io, io': Io,
                  rest: nat, n: nat)
    requires var reply := Request(server, query, MaxRetries, io);
      && reply.data.Some? && continues(Response(StatusOk, reply.data.value))
      && InCalls(server, continues, rest, reply.io, io', n)
    ensures InCalls(server, continues, rest + 1, io, io', n + 1)
  {
    FirstCallGoesOn(server, continues, query, io);
    InCallsPrepend(server, continues, io, Request(server, query, MaxRetries, io).io, io', rest, n);
  }

  /** `SplitsIntoCalls` spelled out call by call. */
  lemma CallsSpelled(server: Server<Body>, continues: Response<Body> -> bool, calls: nat, io: Io, io': Io)
    requires SplitsIntoCalls(server, continues, calls, io, io')
    ensures exists n: nat ::
        && n <= calls
        && |io'.sent| == CallStart(server, |io.sent|, n)
        && io'.waits == io.waits + CallsWaits(server, |io.sent|, n)
        && (forall k :: 0 <= k < n - 1 ==> GoesOn(server, continues, CallStart(server, |io.sent|, k)))
        && (n < calls ==> n > 0 && !GoesOn(server, continues, CallStart(server, |io.sent|, n - 1)))
  {
    var n: nat :| InCalls(server, continues, calls, io, io', n);
    var lo := |io.sent|;
    GoOnBeforeLast(server, continues, lo, n);
    assert n <= calls;
    assert |io'.sent| == CallStart(server, lo, n);
    assert io'.waits == io.waits + CallsWaits(server, lo, n);
    assert n < calls ==> n > 0 && !GoesOn(server, continues, CallStart(server, lo, n - 1));
  }

  /** Every call but the last of `n` went on, when the first `n - 1` did. */
  lemma GoOnBeforeLast(server: Server<Body>, continues: Response<Body> -> bool, lo: nat, n: nat)
    requires n > 0 ==> AllGoOn(server, continues, lo, n - 1)
    ensures forall k :: 0 <= k < n - 1 ==> GoesOn(server, continues, CallStart(server, lo, k))
  {
    if n > 0 {
      AllGoOnEach(server, continues, lo, n - 1);
    }
  }

  /**
   * The requests from `io` to `r.io` as a loop of at most
   * `calls` calls of `make_github_request` reads them: `io`'s log is kept;
   * each new request is `queryAt` the cursor left by the 200 answers before
   * it (`start` before the first); the list grew by `f` of every 200 answer
   * in order; at most `calls` answers were 200 and at most five requests
   * were sent per call; every answer but the last was a 502 or one after
   * which the loop `continues`; a loop that read fewer than `calls` 200
   * answers stopped at an answer that is not a 200 or after which it does
   * not go on. How the answers split into calls is `InCalls`.
   */
  ghost predicate Explained<T>(server: Server<Body>, f: Body -> seq<T>, continues: Response<Body> -> bool,
                            queryAt: Cursor -> Query, cursorOf: Body -> Cursor, start: Cursor,
                            io: Io, before: seq<T>, r: Fetched<T>, calls: nat)
  {
    var lo := |io.sent|;
    var hi := |r.io.sent|;
    && io.sent <= r.io.sent && io.waits <= r.io.waits
    && (forall i :: lo <= i < hi ==> r.io.sent[i] == queryAt(LastCursor(server, cursorOf, start, lo, i)))
    && r.items == before + Gathered(server, f, lo, hi)
    && Successes(server, lo, hi) <= calls
    && hi - lo <= MaxRetries * calls
    && (forall i :: lo <= i < hi - 1 ==> server(i).status == StatusBadGateway || continues(server(i)))
    && (Successes(server, lo, hi) < calls ==>
          hi > lo && (server(hi - 1).status != StatusOk || !continues(server(hi - 1))))
  }

  /** One call of `make_github_request` is a loop of one call. */
  lemma OneCall<T>(server: Server<Body>, f: Body -> seq<T>, continues: Response<Body> -> bool,
                   queryAt: Cursor -> Query, cursorOf: Body -> Cursor, start: Cursor, io: Io, before: seq<T>)
    ensures var reply := Request(server, queryAt(start), MaxRetries, io);
      Explained(server, f, continues, queryAt, cursorOf, start, io, before,
                Fetched(before + (if reply.data.Some? then f(reply.data.value) else []), reply.io), 1)
  {
    var query := queryAt(start);
    var reply := Request(server, query, MaxRetries, io);
    RequestExplained(server, query, MaxRetries, io);
    CallGathered(server, f, query, io);
    var lo, hi := |io.sent|, |reply.io.sent|;
    assert forall i :: lo <= i < hi ==> reply.io.sent[i] == queryAt(LastCursor(server, cursorOf, start, lo, i)) by {
      assert reply.io.sent == io.sent + Repeat(query, hi - lo);
      forall i | lo <= i < hi ensures reply.io.sent[i] == queryAt(LastCursor(server, cursorOf, start, lo, i)) {
        assert reply.io.sent[i] == Repeat(query, hi - lo)[i - lo];
        LastCursorSkips(server, cursorOf, start, lo, i);
      }
    }
  }

  /**
   * A loop explained within `c1` calls is explained within a larger budget
   * when it stopped at an answer after which it does not go on.
   */
  lemma Weaken<T>(server: Server<Body>, f: Body -> seq<T>, continues: Response<Body> -> bool,
                  queryAt: Cursor -> Query, cursorOf: Body -> Cursor, start: Cursor,
                  io: Io, before: seq<T>, r: Fetched<T>, c1: nat, c2: nat)
    requires Explained(server, f, continues, queryAt, cursorOf, start, io, before, r, c1) && c1 <= c2
    requires |r.io.sent| > |io.sent|
    requires server(|r.io.sent| - 1).status != StatusOk || !continues(server(|r.io.sent| - 1))
    ensures Explained(server, f, continues, queryAt, cursorOf, start, io, before, r, c2)
  {
    assert MaxRetries * c1 <= MaxRetries * c2;
  }

  /**
   * A call that read `c1` 200 answers and after which the loop goes on,
   * followed by the rest of the loop, started from the cursor that call left.
   */
  lemma Compose<T>(server: Server<Body>, f: Body -> seq<T>, continues: Response<Body> -> bool,
                   queryAt: Cursor -> Query, cursorOf: Body -> Cursor, start: Cursor, start': Cursor,
                   io: Io, before: seq<T>, mid: Fetched<T>, r: Fetched<T>, c1: nat, c2: nat)
    requires Explained(server, f, continues, queryAt, cursorOf, start, io, before, mid, c1)
    requires Explained(server, f, continues, queryAt, cursorOf, start', mid.io, mid.items, r, c2)
    requires |mid.io.sent| > |io.sent| && continues(server(|mid.io.sent| - 1))
    requires Successes(server, |io.sent|, |mid.io.sent|) == c1
    requires start' == LastCursor(server, cursorOf, start, |io.sent|, |mid.io.sent|)
    ensures Explained(server, f, continues, queryAt, cursorOf, start, io, before, r, c1 + c2)
  {
    var lo, m, hi := |io.sent|, |mid.io.sent|, |r.io.sent|;
    GatheredSplit(server, f, lo, m, hi);
    assert r.items == before + Gathered(server, f, lo, hi) by {
      assert r.items == (before + Gathered(server, f, lo, m)) + Gathered(server, f, m, hi);
    }
    forall i | lo <= i < hi ensures r.io.sent[i] == queryAt(LastCursor(server, cursorOf, start, lo, i)) {
      if i < m {
        assert r.io.sent[..m] == mid.io.sent;
        assert r.io.sent[..m][i] == r.io.sent[i];
      } else {
        LastCursorSplit(server, cursorOf, start, lo, m, i);
      }
    }
    forall i | lo <= i < hi - 1 ensures server(i).status == StatusBadGateway || continues(server(i)) {
      if i < m - 1 {
        assert lo <= i < m - 1;
      } else if i >= m {
        assert m <= i < hi - 1;
      }
    }
    if Successes(server, lo, hi) < c1 + c2 {
      assert Successes(server, m, hi) < c2;
    }
    assert MaxRetries * (c1 + c2) == MaxRetries * c1 + MaxRetries * c2;
  }

  /**
   * A call that returned a body after which the loop goes on, followed by the
   * rest of the loop started from the cursor of that body.
   */
  lemma CallThen<T>(server: Server<Body>, f: Body -> seq<T>, continues: Response<Body> -> bool,
                    queryAt: Cursor -> Query, cursorOf: Body -> Cursor, start: Cursor,
                    io: Io, before: seq<T>, r: Fetched<T>, c: nat)
    requires var reply := Request(server, queryAt(start), MaxRetries, io);
      && reply.data.Some?
      && continues(Response(StatusOk, reply.data.value))
      && Explained(server, f, continues, queryAt, cursorOf, cursorOf(reply.data.value), reply.io,
                   before + f(reply.data.value), r, c)
    ensures Explained(server, f, continues, queryAt, cursorOf, start, io, before, r, 1 + c)
  {
    var query := queryAt(start);
    var reply := Request(server, query, MaxRetries, io);
    OneCall(server, f, continues, queryAt, cursorOf, start, io, before);
    RequestAnswer(server, query, MaxRetries, io);
    CallGathered(server, f, query, io);
    var hi := |reply.io.sent|;
    assert server(hi - 1) == Response(StatusOk, reply.data.value);
    Compose(server, f, continues, queryAt, cursorOf, start, cursorOf(reply.data.value),
            io, before, Fetched(before + f(reply.data.value), reply.io), r, 1, c);
  }

  // ----- fetch_repositories -----

  /** `data["data"].get("search")` when it is present and not null. */
  function SearchPage(data: Option<Body>): Option<Page<RepoNode>> {
    if data.Some? && data.value.SearchBody? then data.value.search else None
  }

  /** The edges a body carries for the search loop. */
  function SearchEdges(body: Body): seq<RepoNode> {
    if body.SearchBody? && body.search.Some? then body.search.value.items else []
  }

  /** The batch loop from batch `batch` on, with `cursor` and `repos` as left by the earlier batches. */
  function SearchFrom(server: Server<Body>, numBatches: nat, batchSize: nat, batch: nat, cursor: Cursor,
                      repos: seq<RepoNode>, io: Io): Fetched<RepoNode>
    decreases numBatches - batch
  {
    if batch >= numBatches then Fetched(repos, io)
    else
      var reply := Request(server, SearchQuery(batchSize, AfterArg(cursor)), MaxRetries, io);
      var page := SearchPage(reply.data);
      if page.None? || page.value.items == [] then Fetched(repos, reply.io)
      else SearchFrom(server, numBatches, batchSize, batch + 1, NextCursor(page.value.pageInfo),
                      repos + page.value.items, reply.io)
  }

  /** `fetch_repositories(total_repos, batch_size)`: `total_repos // batch_size` batches from a null cursor. */
  function Search(server: Server<Body>, totalRepos: nat, batchSize: nat, io: Io): Fetched<RepoNode>
    requires batchSize > 0
  {
    SearchFrom(server, totalRepos / batchSize, batchSize, 0, None, [], io)
  }

  method FetchRepositories(server: Server<Body>, totalRepos: nat, batchSize: nat, io: Io)
    returns (allRepos: seq<RepoNode>, next: Io)
    requires batchSize > 0
    ensures Fetched(allRepos, next) == Search(server, totalRepos, batchSize, io)
  {
    allRepos := [];
    var cursor: Cursor := None;
    var numBatches := totalRepos / batchSize;
    next := io;
    ghost var target := Search(server, totalRepos, batchSize, io);
    for batch := 0 to numBatches
      invariant SearchFrom(server, numBatches, batchSize, batch, cursor, allRepos, next) == target
    {
      var data;
      data, next := MakeGithubRequest(server, SearchQuery(batchSize, AfterArg(cursor)), MaxRetries, next);
      var search := SearchPage(data);
      if search.Some? {
        var repositories := search.value.items;
        if repositories == [] {
          return allRepos, next;
        }
        allRepos := allRepos + repositories;
        cursor := NextCursor(search.value.pageInfo);
      } else {
        return allRepos, next;
      }
    }
  }

  /** An answer after which the search loop goes on: a 200 page with edges. */
  predicate ContinuesSearch(r: Response<Body>) {
    r.status == StatusOk && SearchEdges(r.body) != []
  }

  /** The search request for `batchSize` edges after `cursor`. */
  function SearchAt(batchSize: nat): Cursor -> Query {
    (cursor: Cursor) => SearchQuery(batchSize, AfterArg(cursor))
  }

  /** The cursor the search loop keeps after a page: the page's next cursor. */
  function SearchCursor(body: Body): Cursor {
    if body.SearchBody? && body.search.Some? then NextCursor(body.search.value.pageInfo) else None
  }

  /** A batch loop that stops after its next call: a failure, no page, or a page without edges. */
  lemma SearchStopExplained(server: Server<Body>, numBatches: nat, batchSize: nat, batch: nat,
                            cursor: Cursor, repos: seq<RepoNode>, io: Io)
    requires batch < numBatches
    requires var reply := Request(server, SearchQuery(batchSize, AfterArg(cursor)), MaxRetries, io);
      var page := SearchPage(reply.data);
      page.None? || page.value.items == []
    ensures Explained(server, SearchEdges, ContinuesSearch, SearchAt(batchSize), SearchCursor, cursor, io, repos,
                      SearchFrom(server, numBatches, batchSize, batch, cursor, repos, io), numBatches - batch)
  {
    var query := SearchQuery(batchSize, AfterArg(cursor));
    assert query == SearchAt(batchSize)(cursor);
    var reply := Request(server, query, MaxRetries, io);
    OneCall(server, SearchEdges, ContinuesSearch, SearchAt(batchSize), SearchCursor, cursor, io, repos);
    RequestAnswer(server, query, MaxRetries, io);
    CallGathered(server, SearchEdges, query, io);
    var hi := |reply.io.sent|;
    assert SearchFrom(server, numBatches, batchSize, batch, cursor, repos, io) == Fetched(repos, reply.io);
    assert reply.data.Some? ==> SearchEdges(reply.data.value) == [];
    assert !ContinuesSearch(server(hi - 1));
    assert repos + [] == repos;
    Weaken(server, SearchEdges, ContinuesSearch, SearchAt(batchSize), SearchCursor, cursor,
           io, repos, Fetched(repos, reply.io), 1, numBatches - batch);
  }

  /** A page with edges, followed by the explained rest of the loop. */
  lemma SearchGoOnExplained(server: Server<Body>, numBatches: nat, batchSize: nat, batch: nat,
                            cursor: Cursor, repos: seq<RepoNode>, io: Io)
    requires batch < numBatches
    requires var reply := Request(server, SearchQuery(batchSize, AfterArg(cursor)), MaxRetries, io);
      var page := SearchPage(reply.data);
      && page.Some? && page.value.items != []
      && Explained(server, SearchEdges, ContinuesSearch, SearchAt(batchSize), SearchCursor,
                   NextCursor(page.value.pageInfo), reply.io, repos + page.value.items,
                   SearchFrom(server, numBatches, batchSize, batch + 1, NextCursor(page.value.pageInfo),
                              repos + page.value.items, reply.io),
                   numBatches - batch - 1)
    ensures Explained(server, SearchEdges, ContinuesSearch, SearchAt(batchSize), SearchCursor, cursor, io, repos,
                      SearchFrom(server, numBatches, batchSize, batch, cursor, repos, io), numBatches - batch)
  {
    var reply := Request(server, SearchQuery(batchSize, AfterArg(cursor)), MaxRetries, io);
    var page := SearchPage(reply.data);
    assert SearchQuery(batchSize, AfterArg(cursor)) == SearchAt(batchSize)(cursor);
    assert SearchEdges(reply.data.value) == page.value.items;
    assert SearchCursor(reply.data.value) == NextCursor(page.value.pageInfo);
    assert SearchFrom(server, numBatches, batchSize, batch, cursor, repos, io)
        == SearchFrom(server, numBatches, batchSize, batch + 1, NextCursor(page.value.pageInfo),
                      repos + page.value.items, reply.io);
    CallThen(server, SearchEdges, ContinuesSearch, SearchAt(batchSize), SearchCursor, cursor, io, repos,
             SearchFrom(server, numBatches, batchSize, batch, cursor, repos, io), numBatches - batch - 1);
  }

  lemma {:induction false} SearchFromExplained(server: Server<Body>, numBatches: nat, batchSize: nat, batch: nat,
                                               cursor: Cursor, repos: seq<RepoNode>, io: Io)
    requires batch <= numBatches
    ensures Explained(server, SearchEdges, ContinuesSearch, SearchAt(batchSize), SearchCursor, cursor, io, repos,
                      SearchFrom(server, numBatches, batchSize, batch, cursor, repos, io), numBatches - batch)
    decreases numBatches - batch
  {
    if batch < numBatches {
      var reply := Request(server, SearchQuery(batchSize, AfterArg(cursor)), MaxRetries, io);
      var page := SearchPage(reply.data);
      if page.Some? && page.value.items != [] {
        SearchFromExplained(server, numBatches, batchSize, batch + 1, NextCursor(page.value.pageInfo),
                            repos + page.value.items, reply.io);
        SearchGoOnExplained(server, numBatches, batchSize, batch, cursor, repos, io);
      } else {
        SearchStopExplained(server, numBatches, batchSize, batch, cursor, repos, io);
      }
    }
  }

  /** The batch loop's answers split into whole calls, one per batch it ran. */
  lemma {:induction false} SearchFromCalls(server: Server<Body>, numBatches: nat, batchSize: nat, batch: nat,
                                           cursor: Cursor, repos: seq<RepoNode>, io: Io)
    requires batch <= numBatches
    ensures SplitsIntoCalls(server, ContinuesSearch, numBatches - batch, io,
                            SearchFrom(server, numBatches, batchSize, batch, cursor, repos, io).io)
    decreases numBatches - batch
  {
    if batch < numBatches {
      var query := SearchQuery(batchSize, AfterArg(cursor));
      var reply := Request(server, query, MaxRetries, io);
      var page := SearchPage(reply.data);
      if page.Some? && page.value.items != [] {
        var next := NextCursor(page.value.pageInfo);
        var r := SearchFrom(server, numBatches, batchSize, batch + 1, next, repos + page.value.items, reply.io);
        SearchFromCalls(server, numBatches, batchSize, batch + 1, next, repos + page.value.items, reply.io);
        var n: nat :| InCalls(server, ContinuesSearch, numBatches - batch - 1, reply.io, r.io, n);
        assert SearchEdges(reply.data.value) == page.value.items;
        CallsGoOn(server, ContinuesSearch, query, io, r.io, numBatches - batch - 1, n);
        assert InCalls(server, ContinuesSearch, numBatches - batch, io, r.io, n + 1);
      } else {
        CallsStop(server, ContinuesSearch, query, io, numBatches - batch);
        assert InCalls(server, ContinuesSearch, numBatches - batch, io, reply.io, 1);
      }
    } else {
      InCallsNone(server, ContinuesSearch, io);
      assert InCalls(server, ContinuesSearch, numBatches - batch, io, io, 0);
    }
  }

  /**
   * `fetch_repositories` returns, in order, the edges of every 200 answer it
   * read, never `None`. It reads at most `total_repos // batch_size` 200
   * answers (the remainder of the division is never fetched) and at most
   * five requests per batch. Every request is a search for `batch_size`
   * edges after the next cursor of the latest page before it (null before
   * the first). Only its last answer can stop it early, and a run that read
   * fewer pages than batches ended at an answer that stops it: a failure or
   * a page without edges.
   */
  lemma FetchRepositoriesExplained(server: Server<Body>, totalRepos: nat, batchSize: nat, io: Io)
    requires batchSize > 0
    ensures var r := Search(server, totalRepos, batchSize, io);
      var lo := |io.sent|;
      var hi := |r.io.sent|;
      && io.sent <= r.io.sent && io.waits <= r.io.waits
      && (forall i :: lo <= i < hi ==>
            r.io.sent[i] == SearchQuery(batchSize, AfterArg(LastCursor(server, SearchCursor, None, lo, i))))
      && r.items == Gathered(server, SearchEdges, lo, hi)
      && Successes(server, lo, hi) <= totalRepos / batchSize
      && hi - lo <= MaxRetries * (totalRepos / batchSize)
      && (forall i :: lo <= i < hi - 1 ==> server(i).status == StatusBadGateway || ContinuesSearch(server(i)))
      && (Successes(server, lo, hi) < totalRepos / batchSize ==> hi > lo && !ContinuesSearch(server(hi - 1)))
  {
    SearchFromExplained(server, totalRepos / batchSize, batchSize, 0, None, [], io);
    var r := Search(server, totalRepos, batchSize, io);
    forall i | |io.sent| <= i < |r.io.sent|
      ensures r.io.sent[i] == SearchQuery(batchSize, AfterArg(LastCursor(server, SearchCursor, None, |io.sent|, i)))
    {
      assert r.io.sent[i] == SearchAt(batchSize)(LastCursor(server, SearchCursor, None, |io.sent|, i));
    }
  }

  /**
   * `fetch_repositories`'s answers split into whole calls of
   * `make_github_request`, at most one per batch: each call ends at its first
   * answer that is not a 502 or at its fifth 502, every call but the last
   * brought a page with edges, a loop of fewer calls than batches ended with
   * a call that brought none, and the waits are each call's backoffs.
   */
  lemma FetchRepositoriesCalls(server: Server<Body>, totalRepos: nat, batchSize: nat, io: Io)
    requires batchSize > 0
    ensures SplitsIntoCalls(server, ContinuesSearch, totalRepos / batchSize, io, Search(server, totalRepos, batchSize, io).io)
  {
    SearchFromCalls(server, totalRepos / batchSize, batchSize, 0, None, [], io);
  }

  // ----- fetch_pull_requests -----

  /** `{"number": pr['number'], "title": pr['title']}` */
  datatype PrRef = PrRef(number: int, title: string)

  /** The pull requests of a page with at least one review, as `{number, title}`, in page order. */
  function Reviewed(nodes: seq<PrNode>): (refs: seq<PrRef>)
    ensures |refs| <= |nodes|
    ensures forall r :: r in refs <==> exists n :: n in nodes && n.reviewCount > 0 && r == PrRef(n.number, n.title)
  {
    if nodes == [] then []
    else
      var rest := Reviewed(nodes[1..]);
      assert forall n :: n in nodes <==> n == nodes[0] || n in nodes[1..];
      (if nodes[0].reviewCount > 0 then [PrRef(nodes[0].number, nodes[0].title)] else []) + rest
  }

  /** Keeping the reviewed pull requests of two pages is keeping those of each, in turn. */
  lemma {:induction false} ReviewedAppend(a: seq<PrNode>, b: seq<PrNode>)
    ensures Reviewed(a + b) == Reviewed(a) + Reviewed(b)
  {
    if a != [] {
      ReviewedAppend(a[1..], b);
      assert (a + b)[1..] == a[1..] + b;
    } else {
      assert a + b == b;
    }
  }

  /** `pr['reviews']['totalCount'] > 0` */
  predicate IsReviewed(node: PrNode) {
    node.reviewCount > 0
  }

  /** Each pull request reduced to `{number, title}`, in order. */
  function RefsOf(nodes: seq<PrNode>): (refs: seq<PrRef>)
    ensures |refs| == |nodes|
    ensures forall i :: 0 <= i < |nodes| ==> refs[i] == PrRef(nodes[i].number, nodes[i].title)
  {
    seq(|nodes|, (i: int) requires 0 <= i < |nodes| => PrRef(nodes[i].number, nodes[i].title))
  }

  /** Keeping the reviewed pull requests is filtering them and reducing each. */
  lemma {:induction false} ReviewedIsRefs(nodes: seq<PrNode>)
    ensures Reviewed(nodes) == RefsOf(Paginator.Filter(IsReviewed, nodes))
  {
    if nodes != [] {
      ReviewedIsRefs(nodes[1..]);
      var head := if IsReviewed(nodes[0]) then [nodes[0]] else [];
      var rest := Paginator.Filter(IsReviewed, nodes[1..]);
      assert Paginator.Filter(IsReviewed, nodes) == head + rest;
      assert Reviewed(nodes) == RefsOf(head) + RefsOf(rest);
      assert RefsOf(head + rest) == RefsOf(head) + RefsOf(rest);
    }
  }

  /**
   * The kept pull requests are the reviewed ones of the page, in page order
   * and each as often as it occurs there, reduced to `{number, title}`.
   */
  lemma ReviewedIsFilter(nodes: seq<PrNode>)
    ensures Reviewed(nodes) == RefsOf(Paginator.Filter(IsReviewed, nodes))
    ensures Paginator.IsSubsequence(Paginator.Filter(IsReviewed, nodes), nodes)
    ensures forall i :: 0 <= i < |nodes| ==>
      multiset(Paginator.Filter(IsReviewed, nodes))[nodes[i]] == if IsReviewed(nodes[i]) then multiset(nodes)[nodes[i]] else 0
  {
    ReviewedIsRefs(nodes);
    Paginator.FilterIsSubsequence(IsReviewed, nodes);
    Paginator.FilterKeepsPassing(IsReviewed, nodes);
  }

  /** `data["data"].get("repository")`'s `pullRequests` page, when the repository is present. */
  function PrPage(data: Option<Body>): Option<Page<PrNode>> {
    if data.Some? && data.value.RepositoryBody? then data.value.pullRequests else None
  }

  /** The reviewed pull requests a body carries for the pull-request loop. */
  function ReviewedOf(body: Body): seq<PrRef> {
    if body.RepositoryBody? && body.pullRequests.Some? then Reviewed(body.pullRequests.value.items) else []
  }

  /** The `while page_count < max_pages` loop from page `pageCount` on. */
  function PullRequestsFrom(server: Server<Body>, owner: string, name: string, maxPages: nat, pageCount: nat,
                            cursor: Cursor, reviewed: seq<PrRef>, io: Io): Fetched<PrRef>
    decreases maxPages - pageCount
  {
    if pageCount >= maxPages then Fetched(reviewed, io)
    else
      var reply := Request(server, PullRequestsQuery(owner, name, AfterArg(cursor)), MaxRetries, io);
      var page := PrPage(reply.data);
      if page.None? then Fetched(reviewed, reply.io)
      else
        var reviewed' := reviewed + Reviewed(page.value.items);
        var cursor' := NextCursor(page.value.pageInfo);
        if !Truthy(cursor') then Fetched(reviewed', reply.io)
        else PullRequestsFrom(server, owner, name, maxPages, pageCount + 1, cursor', reviewed', reply.io)
  }

  /** `fetch_pull_requests(repository, max_pages)` from a null cursor. */
  function PullRequests(server: Server<Body>, repo: RepoNode, maxPages: nat, io: Io): Fetched<PrRef> {
    PullRequestsFrom(server, repo.ownerLogin, repo.name, maxPages, 0, None, [], io)
  }

  /** `max_pages=3` */
  const MaxPages := 3

  method FetchPullRequests(server: Server<Body>, repo: RepoNode, maxPages: nat, io: Io)
    returns (reviewedPrs: seq<PrRef>, next: Io)
    ensures Fetched(reviewedPrs, next) == PullRequests(server, repo, maxPages, io)
  {
    var repoName := repo.name;
    var owner := repo.ownerLogin;
    var cursor: Cursor := None;
    reviewedPrs := [];
    var pageCount := 0;
    next := io;
    ghost var target := PullRequests(server, repo, maxPages, io);
    while pageCount < maxPages
      invariant PullRequestsFrom(server, owner, repoName, maxPages, pageCount, cursor, reviewedPrs, next) == target
      decreases maxPages - pageCount
    {
      var data;
      data, next := MakeGithubRequest(server, PullRequestsQuery(owner, repoName, AfterArg(cursor)), MaxRetries, next);
      var page := PrPage(data);
      if page.Some? {
        reviewedPrs := reviewedPrs + Reviewed(page.value.items);
        cursor := NextCursor(page.value.pageInfo);
        if !Truthy(cursor) {
          return reviewedPrs, next;
        }
      } else {
        return reviewedPrs, next;
      }
      pageCount := pageCount + 1;
    }
  }

  /** An answer after which the pull-request loop goes on: a 200 page with a next cursor. */
  predicate ContinuesPullRequests(r: Response<Body>) {
    && r.status == StatusOk
    && r.body.RepositoryBody? && r.body.pullRequests.Some?
    && Truthy(NextCursor(r.body.pullRequests.value.pageInfo))
  }

  /** The request for the pull requests of `owner/name` after `cursor`. */
  function PullRequestsAt(owner: string, name: string): Cursor -> Query {
    (cursor: Cursor) => PullRequestsQuery(owner, name, AfterArg(cursor))
  }

  /** The cursor the pull-request loop keeps after a page: the page's next cursor. */
  function PrCursor(body: Body): Cursor {
    if body.RepositoryBody? && body.pullRequests.Some? then NextCursor(body.pullRequests.value.pageInfo) else None
  }

  /** A page loop that stops after its next call: a failure, no page, or no next cursor. */
  lemma PullRequestsStopExplained(server: Server<Body>, owner: string, name: string, maxPages: nat, pageCount: nat,
                                  cursor: Cursor, reviewed: seq<PrRef>, io: Io)
    requires pageCount < maxPages
    requires var reply := Request(server, PullRequestsQuery(owner, name, AfterArg(cursor)), MaxRetries, io);
      var page := PrPage(reply.data);
      page.None? || !Truthy(NextCursor(page.value.pageInfo))
    ensures Explained(server, ReviewedOf, ContinuesPullRequests, PullRequestsAt(owner, name), PrCursor, cursor,
                      io, reviewed, PullRequestsFrom(server, owner, name, maxPages, pageCount, cursor, reviewed, io),
                      maxPages - pageCount)
  {
    var query := PullRequestsQuery(owner, name, AfterArg(cursor));
    assert query == PullRequestsAt(owner, name)(cursor);
    var reply := Request(server, query, MaxRetries, io);
    OneCall(server, ReviewedOf, ContinuesPullRequests, PullRequestsAt(owner, name), PrCursor, cursor, io, reviewed);
    RequestAnswer(server, query, MaxRetries, io);
    CallGathered(server, ReviewedOf, query, io);
    var hi := |reply.io.sent|;
    var page := PrPage(reply.data);
    var r := Fetched(reviewed + (if reply.data.Some? then ReviewedOf(reply.data.value) else []), reply.io);
    if page.Some? {
      assert ReviewedOf(reply.data.value) == Reviewed(page.value.items);
    } else {
      assert reply.data.Some? ==> ReviewedOf(reply.data.value) == [];
      assert reviewed + [] == reviewed;
    }
    assert PullRequestsFrom(server, owner, name, maxPages, pageCount, cursor, reviewed, io) == r;
    assert !ContinuesPullRequests(server(hi - 1));
    Weaken(server, ReviewedOf, ContinuesPullRequests, PullRequestsAt(owner, name), PrCursor, cursor,
           io, reviewed, r, 1, maxPages - pageCount);
  }

  /** A page with a next cursor, followed by the explained rest of the loop. */
  lemma PullRequestsGoOnExplained(server: Server<Body>, owner: string, name: string, maxPages: nat, pageCount: nat,
                                  cursor: Cursor, reviewed: seq<PrRef>, io: Io)
    requires pageCount < maxPages
    requires var reply := Request(server, PullRequestsQuery(owner, name, AfterArg(cursor)), MaxRetries, io);
      var page := PrPage(reply.data);
      && page.Some? && Truthy(NextCursor(page.value.pageInfo))
      && Explained(server, ReviewedOf, ContinuesPullRequests, PullRequestsAt(owner, name), PrCursor,
                   NextCursor(page.value.pageInfo), reply.io, reviewed + Reviewed(page.value.items),
                   PullRequestsFrom(server, owner, name, maxPages, pageCount + 1, NextCursor(page.value.pageInfo),
                                    reviewed + Reviewed(page.value.items), reply.io),
                   maxPages - pageCount - 1)
    ensures Explained(server, ReviewedOf, ContinuesPullRequests, PullRequestsAt(owner, name), PrCursor, cursor,
                      io, reviewed, PullRequestsFrom(server, owner, name, maxPages, pageCount, cursor, reviewed, io),
                      maxPages - pageCount)
  {
    var reply := Request(server, PullRequestsQuery(owner, name, AfterArg(cursor)), MaxRetries, io);
    var page := PrPage(reply.data);
    assert PullRequestsQuery(owner, name, AfterArg(cursor)) == PullRequestsAt(owner, name)(cursor);
    assert ReviewedOf(reply.data.value) == Reviewed(page.value.items);
    assert PrCursor(reply.data.value) == NextCursor(page.value.pageInfo);
    assert PullRequestsFrom(server, owner, name, maxPages, pageCount, cursor, reviewed, io)
        == PullRequestsFrom(server, owner, name, maxPages, pageCount + 1, NextCursor(page.value.pageInfo),
                            reviewed + Reviewed(page.value.items), reply.io);
    CallThen(server, ReviewedOf, ContinuesPullRequests, PullRequestsAt(owner, name), PrCursor, cursor, io, reviewed,
             PullRequestsFrom(server, owner, name, maxPages, pageCount, cursor, reviewed, io), maxPages - pageCount - 1);
  }

  lemma {:induction false} PullRequestsFromExplained(server: Server<Body>, owner: string, name: string,
                                                     maxPages: nat, pageCount: nat, cursor: Cursor,
                                                     reviewed: seq<PrRef>, io: Io)
    requires pageCount <= maxPages
    ensures Explained(server, ReviewedOf, ContinuesPullRequests, PullRequestsAt(owner, name), PrCursor, cursor,
                      io, reviewed, PullRequestsFrom(server, owner, name, maxPages, pageCount, cursor, reviewed, io),
                      maxPages - pageCount)
    decreases maxPages - pageCount
  {
    if pageCount < maxPages {
      var reply := Request(server, PullRequestsQuery(owner, name, AfterArg(cursor)), MaxRetries, io);
      var page := PrPage(reply.data);
      if page.Some? && Truthy(NextCursor(page.value.pageInfo)) {
        PullRequestsFromExplained(server, owner, name, maxPages, pageCount + 1, NextCursor(page.value.pageInfo),
                                  reviewed + Reviewed(page.value.items), reply.io);
        PullRequestsGoOnExplained(server, owner, name, maxPages, pageCount, cursor, reviewed, io);
      } else {
        PullRequestsStopExplained(server, owner, name, maxPages, pageCount, cursor, reviewed, io);
      }
    }
  }

  /** The page loop's answers split into whole calls, one per page it asked for. */
  lemma {:induction false} PullRequestsFromCalls(server: Server<Body>, owner: string, name: string,
                                                 maxPages: nat, pageCount: nat, cursor: Cursor,
                                                 reviewed: seq<PrRef>, io: Io)
    requires pageCount <= maxPages
    ensures SplitsIntoCalls(server, ContinuesPullRequests, maxPages - pageCount, io,
                            PullRequestsFrom(server, owner, name, maxPages, pageCount, cursor, reviewed, io).io)
    decreases maxPages - pageCount
  {
    if pageCount < maxPages {
      var query := PullRequestsQuery(owner, name, AfterArg(cursor));
      var reply := Request(server, query, MaxRetries, io);
      var page := PrPage(reply.data);
      if page.Some? && Truthy(NextCursor(page.value.pageInfo)) {
        var next := NextCursor(page.value.pageInfo);
        var r := PullRequestsFrom(server, owner, name, maxPages, pageCount + 1, next,
                                  reviewed + Reviewed(page.value.items), reply.io);
        PullRequestsFromCalls(server, owner, name, maxPages, pageCount + 1, next,
                              reviewed + Reviewed(page.value.items), reply.io);
        var n: nat :| InCalls(server, ContinuesPullRequests, maxPages - pageCount - 1, reply.io, r.io, n);
        CallsGoOn(server, ContinuesPullRequests, query, io, r.io, maxPages - pageCount - 1, n);
        assert InCalls(server, ContinuesPullRequests, maxPages - pageCount, io, r.io, n + 1);
      } else {
        CallsStop(server, ContinuesPullRequests, query, io, maxPages - pageCount);
        assert InCalls(server, ContinuesPullRequests, maxPages - pageCount, io, reply.io, 1);
      }
    } else {
      InCallsNone(server, ContinuesPullRequests, io);
      assert InCalls(server, ContinuesPullRequests, maxPages - pageCount, io, io, 0);
    }
  }

  /**
   * `fetch_pull_requests` returns, in order, the reviewed pull requests of
   * every 200 answer it read. It reads at most `max_pages` 200 answers and
   * at most five requests per page. Every request asks for the pull requests
   * of this repository after the next cursor of the latest page before it
   * (null before the first). Only its last answer can stop the loop, and a
   * run that read fewer than `max_pages` pages ended at an answer that stops
   * it: a failure, or a page without a next cursor.
   */
  lemma FetchPullRequestsExplained(server: Server<Body>, repo: RepoNode, maxPages: nat, io: Io)
    ensures var r := PullRequests(server, repo, maxPages, io);
      var lo := |io.sent|;
      var hi := |r.io.sent|;
      && io.sent <= r.io.sent && io.waits <= r.io.waits
      && (forall i :: lo <= i < hi ==>
            r.io.sent[i] == PullRequestsQuery(repo.ownerLogin, repo.name, AfterArg(LastCursor(server, PrCursor, None, lo, i))))
      && r.items == Gathered(server, ReviewedOf, lo, hi)
      && Successes(server, lo, hi) <= maxPages
      && hi - lo <= MaxRetries * maxPages
      && (forall i :: lo <= i < hi - 1 ==> server(i).status == StatusBadGateway || ContinuesPullRequests(server(i)))
      && (Successes(server, lo, hi) < maxPages ==> hi > lo && !ContinuesPullRequests(server(hi - 1)))
  {
    PullRequestsFromExplained(server, repo.ownerLogin, repo.name, maxPages, 0, None, [], io);
    var r := PullRequests(server, repo, maxPages, io);
    forall i | |io.sent| <= i < |r.io.sent|
      ensures r.io.sent[i]
           == PullRequestsQuery(repo.ownerLogin, repo.name, AfterArg(LastCursor(server, PrCursor, None, |io.sent|, i)))
    {
      assert r.io.sent[i] == PullRequestsAt(repo.ownerLogin, repo.name)(LastCursor(server, PrCursor, None, |io.sent|, i));
    }
  }

  /**
   * `fetch_pull_requests`'s answers split into whole calls of
   * `make_github_request`, at most one per page: every call but the last
   * brought a repository page with a next cursor, a loop of fewer calls than
   * pages ended with a call that did not, and the waits are each call's
   * backoffs.
   */
  lemma FetchPullRequestsCalls(server: Server<Body>, repo: RepoNode, maxPages: nat, io: Io)
    ensures SplitsIntoCalls(server, ContinuesPullRequests, maxPages, io, PullRequests(server, repo, maxPages, io).io)
  {
    PullRequestsFromCalls(server, repo.ownerLogin, repo.name, maxPages, 0, None, [], io);
  }
}
