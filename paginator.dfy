/**
 * The cursor-paginated search loop with a fixed batch count and three
 * attempts per batch, shared by `fetchRepositories` in
 * Lab01/src/repositories_adapter.py, Lab01/src/main.py,
 * Lab05/src/repositories_adapter.py and (with a keyword filter)
 * Lab02/src/repositories_adapter.py.
 *
 * The loop runs `totalRepos // batchSize` batches. Each batch sends the
 * search query with the current cursor up to three times: a 200 response
 * with an empty edge list makes the whole call return `None`; a 200 response
 * with edges appends the edges the filter keeps and moves the cursor to
 * `endCursor` (or to `None` when `hasNextPage` is false); any other status
 * sleeps five seconds and tries again. A batch whose three attempts all fail
 * adds nothing and leaves the cursor where it was.
 */
module Paginator {
  import opened Wrappers
  import opened Api

  /** Attempts per batch: `for attempt in range(3)`. */
  const Attempts := 3

  /** Seconds slept after every failed attempt: `time.sleep(5)`. */
  const RetryDelay := 5

  /** What one search request asks for: `first: batchSize, after: ...`. */
  datatype SearchRequest = SearchRequest(first: nat, after: Option<string>)

  /**
   * The observable outcome of one call: the returned list (`None` when an
   * empty page was met), every request sent in order, and every sleep.
   */
  datatype Run<N> = Run(result: Option<seq<N>>, sent: seq<SearchRequest>, sleeps: seq<nat>)

  /** The state of the nested `for batch` / `for attempt` loops. */
  datatype Loop<N> = Loop(batch: nat, attempt: nat, cursor: Cursor, repos: seq<N>,
                          sent: seq<SearchRequest>, sleeps: seq<nat>)

  /** The filter of the unfiltered variants: every edge is kept. */
  function KeepAll<N>(n: N): bool {
    true
  }

  /** The items of `s` that `keep` accepts, in their original order. */
  function Filter<N>(keep: N -> bool, s: seq<N>): (r: seq<N>)
    ensures |r| <= |s|
    ensures forall i :: 0 <= i < |r| ==> keep(r[i])
  {
    if s == [] then [] else (if keep(s[0]) then [s[0]] else []) + Filter(keep, s[1..])
  }

  /**
   * The filter keeps every item that passes, as many times as it occurs, and
   * nothing else.
   */
  lemma {:induction false} FilterKeepsPassing<N>(keep: N -> bool, s: seq<N>)
    ensures multiset(Filter(keep, s)) <= multiset(s)
    ensures forall i :: 0 <= i < |s| ==>
      multiset(Filter(keep, s))[s[i]] == if keep(s[i]) then multiset(s)[s[i]] else 0
  {
    if s != [] {
      var rest := s[1..];
      FilterKeepsPassing(keep, rest);
      var head := if keep(s[0]) then [s[0]] else [];
      assert Filter(keep, s) == head + Filter(keep, rest);
      assert s == [s[0]] + rest;
      assert multiset(s) == multiset{s[0]} + multiset(rest);
      assert multiset(Filter(keep, s)) == multiset(head) + multiset(Filter(keep, rest));
      forall i | 0 <= i < |s|
        ensures multiset(Filter(keep, s))[s[i]] == if keep(s[i]) then multiset(s)[s[i]] else 0
      {
        var x := s[i];
        if j :| 0 <= j < |rest| && rest[j] == x {
          assert multiset(Filter(keep, rest))[rest[j]] == if keep(x) then multiset(rest)[x] else 0;
        } else {
          assert x !in multiset(rest);
        }
      }
    }
  }

  /** A response that ends the call with `None`: status 200 and no edges. */
  predicate EmptyPage<N>(r: Response<Page<N>>) {
    r.status == StatusOk && |r.body.items| == 0
  }

  /**
   * The loop, one request at a time, from state `s` to the end of the call.
   * This is the specification `FetchRepositories` is proved against.
   */
  function Step<N>(server: Server<Page<N>>, keep: N -> bool, batchSize: nat, numBatches: nat,
                   s: Loop<N>): Run<N>
    requires s.attempt <= Attempts
    decreases numBatches - s.batch, Attempts - s.attempt
  {
    if s.batch >= numBatches then
      Run(Some(s.repos), s.sent, s.sleeps)
    else if s.attempt == Attempts then
      Step(server, keep, batchSize, numBatches, s.(batch := s.batch + 1, attempt := 0))
    else
      var r := server(|s.sent|);
      var sent := s.sent + [SearchRequest(batchSize, AfterArg(s.cursor))];
      if r.status == StatusOk then
        if |r.body.items| == 0 then
          Run(None, sent, s.sleeps)
        else
          Step(server, keep, batchSize, numBatches,
               Loop(s.batch + 1, 0, NextCursor(r.body.pageInfo), s.repos + Filter(keep, r.body.items),
                    sent, s.sleeps))
      else
        Step(server, keep, batchSize, numBatches,
             s.(attempt := s.attempt + 1, sent := sent, sleeps := s.sleeps + [RetryDelay]))
  }

  /** The whole call: `totalRepos // batchSize` batches from a null cursor. */
  function Fetch<N>(server: Server<Page<N>>, keep: N -> bool, totalRepos: nat, batchSize: nat): Run<N>
    requires batchSize > 0
  {
    Step(server, keep, batchSize, totalRepos / batchSize, Loop(0, 0, None, [], [], []))
  }

  /**
   * The paginated fetch. `server` answers the requests in order; `keep`
   * decides which edges of a successful page are accumulated.
   */
  method FetchRepositories<N>(server: Server<Page<N>>, keep: N -> bool, totalRepos: nat, batchSize: nat)
    returns (repos: Option<seq<N>>, sent: seq<SearchRequest>, sleeps: seq<nat>)
    requires batchSize > 0
    ensures Run(repos, sent, sleeps) == Fetch(server, keep, totalRepos, batchSize)
  {
    var allRepos: seq<N> := [];
    var cursor: Cursor := None;
    var numBatches := totalRepos / batchSize;
    sent, sleeps := [], [];
    ghost var target := Fetch(server, keep, totalRepos, batchSize);
    for batch := 0 to numBatches
      invariant Step(server, keep, batchSize, numBatches, Loop(batch, 0, cursor, allRepos, sent, sleeps)) == target
    {
      for attempt := 0 to Attempts
        invariant Step(server, keep, batchSize, numBatches, Loop(batch, attempt, cursor, allRepos, sent, sleeps)) == target
      {
        var response := server(|sent|);
        sent := sent + [SearchRequest(batchSize, AfterArg(cursor))];
        if response.status == StatusOk {
          var repositories := response.body.items;
          if |repositories| == 0 {
            return None, sent, sleeps;
          }
          allRepos := allRepos + Filter(keep, repositories);
          cursor := NextCursor(response.body.pageInfo);
          assert Step(server, keep, batchSize, numBatches, Loop(batch + 1, 0, cursor, allRepos, sent, sleeps)) == target;
          break;
        } else {
          sleeps := sleeps + [RetryDelay];
        }
      }
    }
    repos := Some(allRepos);
  }

  // ----- An independent description of a run, in terms of the answers it consumed -----

  /** The response of a sequence that came last. */
  function Last<T>(s: seq<T>): T
    requires s != []
  {
    s[|s| - 1]
  }

  /** What one response adds to the list: the kept edges of a 200 page, otherwise nothing. */
  function Contribution<N>(keep: N -> bool, r: Response<Page<N>>): seq<N> {
    if r.status == StatusOk then Filter(keep, r.body.items) else []
  }

  /** The kept edges of every successful response, concatenated in order. */
  function Kept<N>(keep: N -> bool, rs: seq<Response<Page<N>>>): seq<N>
  {
    if rs == [] then [] else Kept(keep, rs[..|rs| - 1]) + Contribution(keep, Last(rs))
  }

  /** The cursor after a sequence of answers: set by the last 200 response, `None` before any. */
  function CursorAfter<N>(rs: seq<Response<Page<N>>>): Cursor
  {
    if rs == [] then None
    else if Last(rs).status == StatusOk then NextCursor(Last(rs).body.pageInfo)
    else CursorAfter(rs[..|rs| - 1])
  }

  /** The number of answers whose status is not 200. */
  function Failures<N>(rs: seq<Response<Page<N>>>): nat
  {
    if rs == [] then 0 else Failures(rs[..|rs| - 1]) + (if Last(rs).status == StatusOk then 0 else 1)
  }

  /** Request i carried the cursor left by the answers to the requests before it. */
  ghost predicate RequestsExplained<N>(server: Server<Page<N>>, batchSize: nat, sent: seq<SearchRequest>)
  {
    forall i :: 0 <= i < |sent| ==>
      sent[i] == SearchRequest(batchSize, AfterArg(CursorAfter(Responses(server, |sent|)[..i])))
  }

  /** Every sleep lasted five seconds. */
  predicate AllRetryDelays(sleeps: seq<nat>) {
    forall j :: 0 <= j < |sleeps| ==> sleeps[j] == RetryDelay
  }

  /**
   * What every call of the loop satisfies, given the answers it consumed
   * (one per request sent):
   *  - request i carries the cursor left by the answers before it;
   *  - it slept five seconds once per non-200 answer, and at no other time;
   *  - only the last answer can be an empty 200 page, and the result is
   *    `None` exactly when it is one;
   *  - otherwise the result is the kept edges of all 200 answers, in order.
   */
  ghost predicate Explains<N>(server: Server<Page<N>>, keep: N -> bool, batchSize: nat, run: Run<N>)
  {
    var n := |run.sent|;
    var rs := Responses(server, n);
    && RequestsExplained(server, batchSize, run.sent)
    && |run.sleeps| == Failures(rs)
    && AllRetryDelays(run.sleeps)
    && (forall i :: 0 <= i < n - 1 ==> !EmptyPage(server(i)))
    && (run.result.None? <==> n > 0 && EmptyPage(server(n - 1)))
    && (run.result.Some? ==> run.result.value == Kept(keep, rs))
  }

  /** The loop state agrees with the answers consumed so far. */
  ghost predicate Consistent<N>(server: Server<Page<N>>, keep: N -> bool, batchSize: nat, s: Loop<N>)
  {
    var n := |s.sent|;
    var rs := Responses(server, n);
    && s.attempt <= Attempts
    && s.repos == Kept(keep, rs)
    && s.cursor == CursorAfter(rs)
    && |s.sleeps| == Failures(rs)
    && AllRetryDelays(s.sleeps)
    && RequestsExplained(server, batchSize, s.sent)
    && (forall i :: 0 <= i < n ==> !EmptyPage(server(i)))
  }

  /** The summaries of the answers after one more answer `r`. */
  lemma SnocSummaries<N>(keep: N -> bool, rs: seq<Response<Page<N>>>, r: Response<Page<N>>)
    ensures (rs + [r])[..|rs|] == rs
    ensures Kept(keep, rs + [r]) == Kept(keep, rs) + Contribution(keep, r)
    ensures CursorAfter(rs + [r]) == if r.status == StatusOk then NextCursor(r.body.pageInfo) else CursorAfter(rs)
    ensures Failures(rs + [r]) == Failures(rs) + if r.status == StatusOk then 0 else 1
  {
    assert (rs + [r])[..|rs|] == rs;
  }

  /** Sending one more request keeps the request log explained. */
  lemma SentSnoc<N>(server: Server<Page<N>>, batchSize: nat, sent: seq<SearchRequest>, cursor: Cursor)
    requires RequestsExplained(server, batchSize, sent)
    requires cursor == CursorAfter(Responses(server, |sent|))
    ensures RequestsExplained(server, batchSize, sent + [SearchRequest(batchSize, AfterArg(cursor))])
  {
    var n := |sent|;
    var sent' := sent + [SearchRequest(batchSize, AfterArg(cursor))];
    forall i | 0 <= i < n + 1
      ensures sent'[i] == SearchRequest(batchSize, AfterArg(CursorAfter(Responses(server, n + 1)[..i])))
    {
      ResponsesPrefix(server, n + 1, i);
      if i < n {
        ResponsesPrefix(server, n, i);
      }
    }
  }

  /** One more answer `server(n)` after the first `n`, summarised. */
  lemma ConsumeOne<N>(server: Server<Page<N>>, keep: N -> bool, n: nat)
    ensures var rs := Responses(server, n + 1);
      && rs[..n] == Responses(server, n)
      && Kept(keep, rs) == Kept(keep, Responses(server, n)) + Contribution(keep, server(n))
      && CursorAfter(rs) == (if server(n).status == StatusOk then NextCursor(server(n).body.pageInfo)
                             else CursorAfter(Responses(server, n)))
      && Failures(rs) == Failures(Responses(server, n)) + (if server(n).status == StatusOk then 0 else 1)
  {
    ResponsesSnoc(server, n);
    SnocSummaries(keep, Responses(server, n), server(n));
  }

  /** An empty 200 page ends the call, and the answers explain that ending. */
  lemma EmptyPageExplained<N>(server: Server<Page<N>>, keep: N -> bool, batchSize: nat, s: Loop<N>)
    requires Consistent(server, keep, batchSize, s)
    requires EmptyPage(server(|s.sent|))
    ensures Explains(server, keep, batchSize,
                     Run(None, s.sent + [SearchRequest(batchSize, AfterArg(s.cursor))], s.sleeps))
  {
    ConsumeOne(server, keep, |s.sent|);
    SentSnoc(server, batchSize, s.sent, s.cursor);
  }

  /** A page with edges moves to the next batch, still consistent. */
  lemma PageConsistent<N>(server: Server<Page<N>>, keep: N -> bool, batchSize: nat, s: Loop<N>)
    requires Consistent(server, keep, batchSize, s)
    requires server(|s.sent|).status == StatusOk && !EmptyPage(server(|s.sent|))
    ensures var r := server(|s.sent|);
      Consistent(server, keep, batchSize,
                 Loop(s.batch + 1, 0, NextCursor(r.body.pageInfo), s.repos + Filter(keep, r.body.items),
                      s.sent + [SearchRequest(batchSize, AfterArg(s.cursor))], s.sleeps))
  {
    var n := |s.sent|;
    var r := server(n);
    var rs := Responses(server, n);
    var rs' := Responses(server, n + 1);
    ResponsesSnoc(server, n);
    SnocSummaries(keep, rs, r);
    SentSnoc(server, batchSize, s.sent, s.cursor);
    var s' := Loop(s.batch + 1, 0, NextCursor(r.body.pageInfo), s.repos + Filter(keep, r.body.items),
                   s.sent + [SearchRequest(batchSize, AfterArg(s.cursor))], s.sleeps);
    assert |s'.sent| == n + 1;
    assert Contribution(keep, r) == Filter(keep, r.body.items);
    assert s'.repos == Kept(keep, rs');
    assert s'.cursor == CursorAfter(rs');
    assert |s'.sleeps| == Failures(rs');
    assert forall i :: 0 <= i < n + 1 ==> !EmptyPage(server(i));
  }

  /** One more five-second sleep. */
  lemma RetryDelaysSnoc(sleeps: seq<nat>)
    requires AllRetryDelays(sleeps)
    ensures AllRetryDelays(sleeps + [RetryDelay])
  {
    var sleeps' := sleeps + [RetryDelay];
    forall j | 0 <= j < |sleeps'| ensures sleeps'[j] == RetryDelay {
      if j < |sleeps| {
        assert sleeps'[j] == sleeps[j];
      }
    }
  }

  /** A failed attempt counts one more attempt and one more sleep, still consistent. */
  lemma FailureConsistent<N>(server: Server<Page<N>>, keep: N -> bool, batchSize: nat, s: Loop<N>)
    requires Consistent(server, keep, batchSize, s) && s.attempt < Attempts
    requires server(|s.sent|).status != StatusOk
    ensures Consistent(server, keep, batchSize,
                       s.(attempt := s.attempt + 1, sent := s.sent + [SearchRequest(batchSize, AfterArg(s.cursor))],
                          sleeps := s.sleeps + [RetryDelay]))
  {
    var n := |s.sent|;
    var r := server(n);
    var rs := Responses(server, n);
    var rs' := Responses(server, n + 1);
    ResponsesSnoc(server, n);
    SnocSummaries(keep, rs, r);
    SentSnoc(server, batchSize, s.sent, s.cursor);
    RetryDelaysSnoc(s.sleeps);
    var s' := s.(attempt := s.attempt + 1, sent := s.sent + [SearchRequest(batchSize, AfterArg(s.cursor))],
                 sleeps := s.sleeps + [RetryDelay]);
    assert |s'.sent| == n + 1;
    assert Contribution(keep, r) == [];
    assert s'.repos == Kept(keep, rs');
    assert s'.cursor == CursorAfter(rs');
    assert |s'.sleeps| == Failures(rs');
    assert forall i :: 0 <= i < n + 1 ==> !EmptyPage(server(i));
  }

  /** From any consistent state, the rest of the loop is explained by the answers. */
  lemma {:induction false} StepExplained<N>(server: Server<Page<N>>, keep: N -> bool, batchSize: nat,
                                            numBatches: nat, s: Loop<N>)
    requires Consistent(server, keep, batchSize, s)
    ensures Explains(server, keep, batchSize, Step(server, keep, batchSize, numBatches, s))
    decreases numBatches - s.batch, Attempts - s.attempt
  {
    if s.batch >= numBatches {
      assert Step(server, keep, batchSize, numBatches, s) == Run(Some(s.repos), s.sent, s.sleeps);
    } else if s.attempt == Attempts {
      var s' := s.(batch := s.batch + 1, attempt := 0);
      assert Step(server, keep, batchSize, numBatches, s) == Step(server, keep, batchSize, numBatches, s');
      StepExplained(server, keep, batchSize, numBatches, s');
    } else {
      var r := server(|s.sent|);
      var sent := s.sent + [SearchRequest(batchSize, AfterArg(s.cursor))];
      if r.status == StatusOk {
        if |r.body.items| == 0 {
          assert Step(server, keep, batchSize, numBatches, s) == Run(None, sent, s.sleeps);
          EmptyPageExplained(server, keep, batchSize, s);
        } else {
          var s' := Loop(s.batch + 1, 0, NextCursor(r.body.pageInfo), s.repos + Filter(keep, r.body.items),
                         sent, s.sleeps);
          assert Step(server, keep, batchSize, numBatches, s) == Step(server, keep, batchSize, numBatches, s');
          PageConsistent(server, keep, batchSize, s);
          StepExplained(server, keep, batchSize, numBatches, s');
        }
      } else {
        var s' := s.(attempt := s.attempt + 1, sent := sent, sleeps := s.sleeps + [RetryDelay]);
        assert Step(server, keep, batchSize, numBatches, s) == Step(server, keep, batchSize, numBatches, s');
        FailureConsistent(server, keep, batchSize, s);
        StepExplained(server, keep, batchSize, numBatches, s');
      }
    }
  }

  /** The request budget still open in state `s`: three per batch, less the attempts already made. */
  function Budget<N>(numBatches: nat, s: Loop<N>): int {
    if s.batch >= numBatches then 0 else Attempts * (numBatches - s.batch) - s.attempt
  }

  /** The fewest requests still to come in state `s` if the call is to return a list. */
  function Floor<N>(numBatches: nat, s: Loop<N>): int {
    if s.batch >= numBatches then 0 else numBatches - s.batch - (if s.attempt == Attempts then 1 else 0)
  }

  /** The remaining loop sends at most `Budget` requests, and at least `Floor` when it returns a list. */
  lemma {:induction false} StepBounds<N>(server: Server<Page<N>>, keep: N -> bool, batchSize: nat,
                                         numBatches: nat, s: Loop<N>)
    requires s.attempt <= Attempts
    ensures var run := Step(server, keep, batchSize, numBatches, s);
      && |s.sent| <= |run.sent| <= |s.sent| + Budget(numBatches, s)
      && (run.result.Some? ==> |run.sent| >= |s.sent| + Floor(numBatches, s))
    decreases numBatches - s.batch, Attempts - s.attempt
  {
    if s.batch >= numBatches {
    } else if s.attempt == Attempts {
      StepBounds(server, keep, batchSize, numBatches, s.(batch := s.batch + 1, attempt := 0));
    } else {
      var r := server(|s.sent|);
      var sent := s.sent + [SearchRequest(batchSize, AfterArg(s.cursor))];
      if r.status == StatusOk {
        if |r.body.items| != 0 {
          StepBounds(server, keep, batchSize, numBatches,
                     Loop(s.batch + 1, 0, NextCursor(r.body.pageInfo), s.repos + Filter(keep, r.body.items),
                          sent, s.sleeps));
        }
      } else {
        StepBounds(server, keep, batchSize, numBatches,
                   s.(attempt := s.attempt + 1, sent := sent, sleeps := s.sleeps + [RetryDelay]));
      }
    }
  }

  // ----- Batches: how the answers split into the `totalRepos // batchSize` batches -----

  /** How far the call has got: the batches ended, and the failed attempts of the batch under way. */
  datatype Progress = Progress(batches: nat, attempts: nat)

  /**
   * One more answer: a 200 answer ends the batch under way, and so does its
   * third failure; any other failure counts one more attempt.
   */
  function Advance<N>(p: Progress, r: Response<Page<N>>): Progress {
    if r.status == StatusOk || p.attempts + 1 >= Attempts then Progress(p.batches + 1, 0)
    else Progress(p.batches, p.attempts + 1)
  }

  /** The progress after a sequence of answers, from the start of the call. */
  function ProgressAfter<N>(rs: seq<Response<Page<N>>>): Progress {
    if rs == [] then Progress(0, 0) else Advance(ProgressAfter(rs[..|rs| - 1]), Last(rs))
  }

  /**
   * The answers split into consecutive batches of at most three answers,
   * each ending at its first 200 answer or at its third failure. Every
   * request belongs to one of the `numBatches` batches, and a list is
   * returned only once all `numBatches` batches have ended.
   */
  ghost predicate InBatches<N>(server: Server<Page<N>>, numBatches: nat, run: Run<N>) {
    && (forall i :: 0 <= i < |run.sent| ==> ProgressAfter(Responses(server, i)).batches < numBatches)
    && (run.result.Some? ==> ProgressAfter(Responses(server, |run.sent|)) == Progress(numBatches, 0))
  }

  /** The progress a loop state stands for: a batch whose three attempts failed has ended. */
  function Position<N>(s: Loop<N>): Progress {
    if s.attempt >= Attempts then Progress(s.batch + 1, 0) else Progress(s.batch, s.attempt)
  }

  /** From a state that agrees with the answers so far, the rest of the loop keeps to the batches. */
  lemma {:induction false} StepBatches<N>(server: Server<Page<N>>, keep: N -> bool, batchSize: nat,
                                          numBatches: nat, s: Loop<N>)
    requires s.attempt <= Attempts
    requires s.batch < numBatches || (s.batch == numBatches && s.attempt == 0)
    requires Position(s) == ProgressAfter(Responses(server, |s.sent|))
    requires forall i :: 0 <= i < |s.sent| ==> ProgressAfter(Responses(server, i)).batches < numBatches
    ensures InBatches(server, numBatches, Step(server, keep, batchSize, numBatches, s))
    decreases numBatches - s.batch, Attempts - s.attempt
  {
    if s.batch >= numBatches {
    } else if s.attempt == Attempts {
      StepBatches(server, keep, batchSize, numBatches, s.(batch := s.batch + 1, attempt := 0));
    } else {
      var n := |s.sent|;
      var r := server(n);
      var sent := s.sent + [SearchRequest(batchSize, AfterArg(s.cursor))];
      assert ProgressAfter(Responses(server, n + 1)) == Advance(Position(s), r) by {
        ResponsesSnoc(server, n);
        assert Responses(server, n + 1)[..n] == Responses(server, n);
      }
      assert forall i :: 0 <= i < n + 1 ==> ProgressAfter(Responses(server, i)).batches < numBatches;
      if r.status == StatusOk {
        if |r.body.items| != 0 {
          StepBatches(server, keep, batchSize, numBatches,
                      Loop(s.batch + 1, 0, NextCursor(r.body.pageInfo), s.repos + Filter(keep, r.body.items),
                           sent, s.sleeps));
        }
      } else {
        StepBatches(server, keep, batchSize, numBatches,
                    s.(attempt := s.attempt + 1, sent := sent, sleeps := s.sleeps + [RetryDelay]));
      }
    }
  }

  /**
   * Every call is explained by the answers it consumed, and sends between
   * `totalRepos // batchSize` and three times that many requests when it
   * returns a list (at most three times that many in any case): every one of
   * the `totalRepos // batchSize` batches runs, and none more.
   */
  lemma FetchExplained<N>(server: Server<Page<N>>, keep: N -> bool, totalRepos: nat, batchSize: nat)
    requires batchSize > 0
    ensures var run := Fetch(server, keep, totalRepos, batchSize);
      && Explains(server, keep, batchSize, run)
      && InBatches(server, totalRepos / batchSize, run)
      && |run.sent| <= Attempts * (totalRepos / batchSize)
      && (run.result.Some? ==> totalRepos / batchSize <= |run.sent|)
  {
    var s0: Loop<N> := Loop(0, 0, None, [], [], []);
    assert Responses(server, 0) == [];
    StepExplained(server, keep, batchSize, totalRepos / batchSize, s0);
    StepBounds(server, keep, batchSize, totalRepos / batchSize, s0);
    StepBatches(server, keep, batchSize, totalRepos / batchSize, s0);
  }

  /**
   * A batch whose answer was not 200 does not move the cursor: the next
   * request resends the same `after:` argument.
   */
  lemma FailedAttemptResendsCursor<N>(server: Server<Page<N>>, keep: N -> bool, batchSize: nat,
                                      run: Run<N>, i: nat)
    requires Explains(server, keep, batchSize, run)
    requires i + 1 < |run.sent| && server(i).status != StatusOk
    ensures run.sent[i + 1].after == run.sent[i].after
  {
    var rs := Responses(server, |run.sent|);
    assert rs[..i + 1] == rs[..i] + [rs[i]];
    SnocSummaries(keep, rs[..i], rs[i]);
  }

  /**
   * After a successful page that says `hasNextPage: false`, the cursor is
   * reset and the next request is sent with `after: null`, so the search
   * starts again from its first page.
   */
  lemma LastPageRestartsSearch<N>(server: Server<Page<N>>, keep: N -> bool, batchSize: nat,
                                  run: Run<N>, i: nat)
    requires Explains(server, keep, batchSize, run)
    requires i + 1 < |run.sent| && server(i).status == StatusOk && !server(i).body.pageInfo.hasNextPage
    ensures run.sent[i + 1].after.None?
  {
    var rs := Responses(server, |run.sent|);
    assert rs[..i + 1] == rs[..i] + [rs[i]];
    SnocSummaries(keep, rs[..i], rs[i]);
  }

  /**
   * After a successful page that has a next page, the next request carries
   * exactly that page's (truthy) `endCursor`.
   */
  lemma NextRequestCarriesEndCursor<N>(server: Server<Page<N>>, keep: N -> bool, batchSize: nat,
                                       run: Run<N>, i: nat)
    requires Explains(server, keep, batchSize, run)
    requires i + 1 < |run.sent| && server(i).status == StatusOk && server(i).body.pageInfo.hasNextPage
    requires Truthy(server(i).body.pageInfo.endCursor)
    ensures run.sent[i + 1].after == server(i).body.pageInfo.endCursor
  {
    var rs := Responses(server, |run.sent|);
    assert rs[..i + 1] == rs[..i] + [rs[i]];
    SnocSummaries(keep, rs[..i], rs[i]);
  }

  // ----- Order: the kept edges are a subsequence of all edges received -----

  /** `a` can be obtained from `b` by deleting elements (order kept). */
  ghost predicate IsSubsequence<T>(a: seq<T>, b: seq<T>)
    decreases |b|
  {
    if b == [] then a == []
    else (a != [] && a[0] == b[0] && IsSubsequence(a[1..], b[1..])) || IsSubsequence(a, b[1..])
  }

  lemma {:induction false} FilterIsSubsequence<N>(keep: N -> bool, s: seq<N>)
    ensures IsSubsequence(Filter(keep, s), s)
  {
    if s != [] {
      FilterIsSubsequence(keep, s[1..]);
      var f := Filter(keep, s);
      if keep(s[0]) {
        assert f == [s[0]] + Filter(keep, s[1..]);
        assert f != [] && f[0] == s[0] && f[1..] == Filter(keep, s[1..]);
      } else {
        assert f == Filter(keep, s[1..]);
      }
    }
  }

  lemma {:induction false} SubsequenceConcat<T>(a1: seq<T>, b1: seq<T>, a2: seq<T>, b2: seq<T>)
    requires IsSubsequence(a1, b1) && IsSubsequence(a2, b2)
    ensures IsSubsequence(a1 + a2, b1 + b2)
    decreases |b1|
  {
    if b1 == [] {
      assert a1 + a2 == a2 && b1 + b2 == b2;
    } else {
      assert (b1 + b2)[1..] == b1[1..] + b2;
      if a1 != [] && a1[0] == b1[0] && IsSubsequence(a1[1..], b1[1..]) {
        SubsequenceConcat(a1[1..], b1[1..], a2, b2);
        assert (a1 + a2)[1..] == a1[1..] + a2;
      } else {
        SubsequenceConcat(a1, b1[1..], a2, b2);
      }
    }
  }

  lemma {:induction false} FilterAll<N>(s: seq<N>)
    ensures Filter(KeepAll, s) == s
  {
    if s != [] {
      FilterAll(s[1..]);
    }
  }

  /**
   * Whatever the filter, the accumulated edges are an order-preserving
   * subsequence of all edges of the successful pages, and each was kept.
   */
  lemma {:induction false} KeptIsSubsequence<N>(keep: N -> bool, rs: seq<Response<Page<N>>>)
    ensures IsSubsequence(Kept(keep, rs), Kept(KeepAll, rs))
    ensures forall i :: 0 <= i < |Kept(keep, rs)| ==> keep(Kept(keep, rs)[i])
  {
    if rs != [] {
      var front := rs[..|rs| - 1];
      KeptIsSubsequence(keep, front);
      var r := Last(rs);
      if r.status == StatusOk {
        FilterIsSubsequence(keep, r.body.items);
        FilterAll(r.body.items);
      }
      SubsequenceConcat(Kept(keep, front), Kept(KeepAll, front), Contribution(keep, r), Contribution(KeepAll, r));
      var k := Kept(keep, rs);
      forall i | 0 <= i < |k| ensures keep(k[i]) {
        if i >= |Kept(keep, front)| {
          assert k[i] == Contribution(keep, r)[i - |Kept(keep, front)|];
        }
      }
    }
  }

  /** Filtering a concatenation filters each part in turn. */
  lemma {:induction false} FilterAppend<N>(keep: N -> bool, a: seq<N>, b: seq<N>)
    ensures Filter(keep, a + b) == Filter(keep, a) + Filter(keep, b)
  {
    if a == [] {
      assert a + b == b;
    } else {
      var head := if keep(a[0]) then [a[0]] else [];
      FilterAppend(keep, a[1..], b);
      assert (a + b)[0] == a[0];
      assert (a + b)[1..] == a[1..] + b;
      calc {
        Filter(keep, a + b);
        head + Filter(keep, a[1..] + b);
        head + (Filter(keep, a[1..]) + Filter(keep, b));
        (head + Filter(keep, a[1..])) + Filter(keep, b);
        Filter(keep, a) + Filter(keep, b);
      }
    }
  }

  /**
   * The accumulated list is exactly the filter applied to all edges of the
   * successful pages: every edge that passes is kept, in order, and no other.
   */
  lemma {:induction false} KeptIsFilter<N>(keep: N -> bool, rs: seq<Response<Page<N>>>)
    ensures Kept(keep, rs) == Filter(keep, Kept(KeepAll, rs))
  {
    if rs != [] {
      var front := rs[..|rs| - 1];
      var r := Last(rs);
      KeptIsFilter(keep, front);
      FilterAppend(keep, Kept(KeepAll, front), Contribution(KeepAll, r));
      if r.status == StatusOk {
        FilterAll(r.body.items);
      }
    }
  }
}
