/**
 * Lab03/src/repositories_adapter.py, `calculate_pr_metrics`,
 * `fetch_pr_details`, `collect_repository_metrics` and `process_data`: the
 * metrics of one pull request, the metrics of the first reviewed pull
 * requests of a repository, and one row of averages per repository.
 *
 * `datetime.strptime` raises on a malformed timestamp, and the exception
 * leaves `process_data` altogether; so does indexing a detail body that is
 * not a pull-request body. Both are modelled: `Malformed` and `DetailsRaised`
 * below, and `None` for the whole collection or table.
 */
module Lab03Metrics {
  import opened Wrappers
  import opened Api
  import opened Lab03Client
  import opened Lab03Fetch
  import Timestamps
  import Statistics

  /** The state whose end time is `mergedAt`. */
  const MergedState := "MERGED"

  /** `if analysis_time < 1: return None`, with the hour as 3600 whole seconds. */
  const MinAnalysisSeconds := 3600

  /** `collect_repository_metrics(repo, max_prs=10)` as `process_data` calls it. */
  const MaxPrs := 10

  /** The dictionary `calculate_pr_metrics` builds; the analysis time is kept in seconds. */
  datatype PrMetrics = PrMetrics(
    prNumber: int,
    state: string,
    analysisSeconds: int,
    totalFiles: int,
    totalAdditions: int,
    totalDeletions: int,
    descriptionLength: nat,
    totalComments: int,
    totalParticipants: int,
    totalReviews: int)

  /** What `calculate_pr_metrics` does with one pull request. */
  datatype Assessment =
    | Skipped                     // returns None
    | Measured(metrics: PrMetrics)
    | Malformed                   // `strptime` raises

  /** `pr_data['mergedAt'] if pr_data['state'] == 'MERGED' else pr_data['closedAt']` */
  function EndTime(pr: PrData): Option<string> {
    if pr.state == MergedState then pr.mergedAt else pr.closedAt
  }

  function TotalAdditions(files: seq<FileNode>): int {
    if files == [] then 0 else TotalAdditions(files[..|files| - 1]) + files[|files| - 1].additions
  }

  function TotalDeletions(files: seq<FileNode>): int {
    if files == [] then 0 else TotalDeletions(files[..|files| - 1]) + files[|files| - 1].deletions
  }

  /** The totals over two lists of files are the sums of the totals over each. */
  lemma {:induction false} TotalsAppend(a: seq<FileNode>, b: seq<FileNode>)
    ensures TotalAdditions(a + b) == TotalAdditions(a) + TotalAdditions(b)
    ensures TotalDeletions(a + b) == TotalDeletions(a) + TotalDeletions(b)
    decreases |b|
  {
    if b != [] {
      TotalsAppend(a, b[..|b| - 1]);
      assert (a + b)[..|a + b| - 1] == a + b[..|b| - 1];
    } else {
      assert a + b == a;
    }
  }

  /** `len(pr_data['bodyText']) if pr_data['bodyText'] else 0` */
  function DescriptionLength(bodyText: Option<string>): (n: nat)
    ensures n == |bodyText.GetOr("")|
  {
    if Truthy(bodyText) then |bodyText.value| else 0
  }

  /** The seconds from `created` to `end`: `(end_time - created_at).total_seconds()`. */
  function ElapsedSeconds(created: Timestamps.DateTime, end: Timestamps.DateTime): int
    requires Timestamps.Valid(created) && Timestamps.Valid(end)
  {
    Timestamps.EpochSeconds(end) - Timestamps.EpochSeconds(created)
  }

  /**
   * `calculate_pr_metrics(pr_data)`. No data: skipped. Otherwise the
   * creation time is parsed first; then a null or empty end time skips the
   * pull request, an end time less than an hour after the creation skips it,
   * and anything else is measured.
   */
  function CalculatePrMetrics(pr: Option<PrData>): (a: Assessment)
    ensures pr.None? ==> a.Skipped?
    ensures a.Malformed? <==>
      pr.Some? && (Timestamps.Parse(pr.value.createdAt).None?
                   || (Truthy(EndTime(pr.value)) && Timestamps.Parse(EndTime(pr.value).value).None?))
    ensures a.Measured? <==>
      && pr.Some?
      && Timestamps.Parse(pr.value.createdAt).Some?
      && Truthy(EndTime(pr.value))
      && Timestamps.Parse(EndTime(pr.value).value).Some?
      && ElapsedSeconds(Timestamps.Parse(pr.value.createdAt).value,
                        Timestamps.Parse(EndTime(pr.value).value).value) >= MinAnalysisSeconds
    ensures a.Measured? ==>
      var p := pr.value;
      && a.metrics.analysisSeconds >= MinAnalysisSeconds
      && a.metrics.analysisSeconds == ElapsedSeconds(Timestamps.Parse(p.createdAt).value,
                                                     Timestamps.Parse(EndTime(p).value).value)
      && a.metrics.prNumber == p.number && a.metrics.state == p.state
      && a.metrics.totalFiles == p.totalFiles
      && a.metrics.totalAdditions == TotalAdditions(p.files)
      && a.metrics.totalDeletions == TotalDeletions(p.files)
      && a.metrics.descriptionLength == |p.bodyText.GetOr("")|
      && a.metrics.totalComments == p.comments
      && a.metrics.totalParticipants == p.participants
      && a.metrics.totalReviews == p.reviews
  {
    if pr.None? then Skipped
    else
      var p := pr.value;
      var createdAt := Timestamps.Parse(p.createdAt);
      if createdAt.None? then Malformed
      else
        var endText := EndTime(p);
        if !Truthy(endText) then Skipped
        else
          var endTime := Timestamps.Parse(endText.value);
          if endTime.None? then Malformed
          else
            var analysisSeconds := ElapsedSeconds(createdAt.value, endTime.value);
            if analysisSeconds < MinAnalysisSeconds then Skipped
            else Measured(PrMetrics(p.number, p.state, analysisSeconds, p.totalFiles,
                                    TotalAdditions(p.files), TotalDeletions(p.files),
                                    DescriptionLength(p.bodyText), p.comments, p.participants, p.reviews))
  }

  /**
   * A measured pull request ended after it was created, in calendar order,
   * and its analysis time is at least one hour.
   */
  lemma MeasuredEndsAfterCreation(pr: PrData)
    requires CalculatePrMetrics(Some(pr)).Measured?
    ensures var created := Timestamps.Parse(pr.createdAt).value;
      var end := Timestamps.Parse(EndTime(pr).value).value;
      && Timestamps.Before(created, end)
      && (CalculatePrMetrics(Some(pr)).metrics.analysisSeconds as real) / 3600.0 >= 1.0
  {
    var created := Timestamps.Parse(pr.createdAt).value;
    var end := Timestamps.Parse(EndTime(pr).value).value;
    Timestamps.EpochOrder(created, end);
  }

  /** A merged pull request is timed to its merge, any other to its closing. */
  lemma EndTimeByState(pr: PrData)
    ensures pr.state == MergedState ==> EndTime(pr) == pr.mergedAt
    ensures pr.state != MergedState ==> EndTime(pr) == pr.closedAt
  {
  }

  // ----- fetch_pr_details -----

  /** What `fetch_pr_details` hands on: the `pullRequest` object (possibly null), or an exception. */
  datatype Details = DetailsRaised | DetailsOf(pr: Option<PrData>)

  /**
   * `if data and "data" in data: return data["data"]["repository"]["pullRequest"]`
   * followed by `return None`: a body of another shape raises `KeyError`.
   */
  function PrDetails(data: Option<Body>): (d: Details)
    ensures d.DetailsRaised? <==> data.Some? && (data.value.SearchBody? || data.value.RepositoryBody?)
    ensures d.DetailsOf? && d.pr.Some? ==> data == Some(PullRequestBody(d.pr))
  {
    if data.None? then DetailsOf(None)
    else match data.value
      case NoData => DetailsOf(None)
      case PullRequestBody(pr) => DetailsOf(pr)
      case _ => DetailsRaised
  }

  // ----- collect_repository_metrics -----

  /** A pull request's metrics with `repo_owner` and `repo_name` added. */
  datatype TaggedMetrics = TaggedMetrics(metrics: PrMetrics, repoOwner: string, repoName: string)

  /** A list of metrics, or `None` when an exception left the collection; with the requests after it. */
  datatype Collected = Collected(metrics: Option<seq<TaggedMetrics>>, io: Io)

  /** `reviewed_prs[:max_prs]` */
  function Take<T>(s: seq<T>, n: nat): (t: seq<T>)
    ensures |t| <= n && |t| <= |s| && t == s[..|t|]
    ensures |s| >= n ==> |t| == n
    ensures |s| < n ==> t == s
  {
    if |s| <= n then s else s[..n]
  }

  /** The `for pr in reviewed_prs[:max_prs]` loop from pull request `i` on. */
  function CollectFrom(server: Server<Body>, owner: string, name: string, prs: seq<PrRef>, i: nat,
                       acc: seq<TaggedMetrics>, io: Io): Collected
    decreases |prs| - i
  {
    if i >= |prs| then Collected(Some(acc), io)
    else
      var reply := Request(server, PullRequestQuery(owner, name, prs[i].number), MaxRetries, io);
      var details := PrDetails(reply.data);
      if details.DetailsRaised? then Collected(None, reply.io)
      else
        var assessment := CalculatePrMetrics(details.pr);
        if assessment.Malformed? then Collected(None, reply.io)
        else if assessment.Measured? then
          CollectFrom(server, owner, name, prs, i + 1, acc + [TaggedMetrics(assessment.metrics, owner, name)], reply.io)
        else CollectFrom(server, owner, name, prs, i + 1, acc, reply.io)
  }

  /** `collect_repository_metrics(repository, max_prs)`: the pull requests are fetched again first. */
  function Collect(server: Server<Body>, repo: RepoNode, maxPrs: nat, io: Io): Collected {
    var reviewed := PullRequests(server, repo, MaxPages, io);
    CollectFrom(server, repo.ownerLogin, repo.name, Take(reviewed.items, maxPrs), 0, [], reviewed.io)
  }

  method CollectRepositoryMetrics(server: Server<Body>, repo: RepoNode, maxPrs: nat, io: Io)
    returns (allMetrics: Option<seq<TaggedMetrics>>, next: Io)
    ensures Collected(allMetrics, next) == Collect(server, repo, maxPrs, io)
  {
    var repoName := repo.name;
    var owner := repo.ownerLogin;
    var acc: seq<TaggedMetrics> := [];
    var reviewedPrs;
    reviewedPrs, next := FetchPullRequests(server, repo, MaxPages, io);
    var prs := Take(reviewedPrs, maxPrs);
    ghost var target := Collect(server, repo, maxPrs, io);
    for i := 0 to |prs|
      invariant CollectFrom(server, owner, repoName, prs, i, acc, next) == target
    {
      var data;
      data, next := MakeGithubRequest(server, PullRequestQuery(owner, repoName, prs[i].number), MaxRetries, next);
      var prDetails := PrDetails(data);
      if prDetails.DetailsRaised? {
        return None, next;
      }
      var metrics := CalculatePrMetrics(prDetails.pr);
      if metrics.Malformed? {
        return None, next;
      }
      if metrics.Measured? {
        acc := acc + [TaggedMetrics(metrics.metrics, owner, repoName)];
      }
    }
    allMetrics := Some(acc);
  }

  /** Every metric is tagged with `owner/name` and took at least an hour. */
  predicate WellTagged(ms: seq<TaggedMetrics>, owner: string, name: string) {
    forall k :: 0 <= k < |ms| ==>
      ms[k].repoOwner == owner && ms[k].repoName == name && ms[k].metrics.analysisSeconds >= MinAnalysisSeconds
  }

  /** Requests `lo` to `hi - 1` ask for the details of pull requests of `prs[i..]`, of `owner/name`. */
  ghost predicate DetailRequests(sent: seq<Query>, lo: int, hi: int, owner: string, name: string,
                                 prs: seq<PrRef>, i: int)
    requires 0 <= lo <= hi <= |sent| && 0 <= i
  {
    forall j :: lo <= j < hi ==>
      && sent[j].PullRequestQuery? && sent[j].owner == owner && sent[j].name == name
      && exists k :: i <= k < |prs| && sent[j].number == prs[k].number
  }

  /** One detail request: at most five attempts, every one for pull request `prs[i]`. */
  lemma DetailStep(server: Server<Body>, owner: string, name: string, prs: seq<PrRef>, i: nat, io: Io)
    requires i < |prs|
    ensures var reply := Request(server, PullRequestQuery(owner, name, prs[i].number), MaxRetries, io);
      && io.sent <= reply.io.sent
      && |reply.io.sent| - |io.sent| <= MaxRetries
      && DetailRequests(reply.io.sent, |io.sent|, |reply.io.sent|, owner, name, prs, i)
  {
    var query := PullRequestQuery(owner, name, prs[i].number);
    var reply := Request(server, query, MaxRetries, io);
    RequestExplained(server, query, MaxRetries, io);
    var lo, mid := |io.sent|, |reply.io.sent|;
    assert reply.io.sent == io.sent + Repeat(query, mid - lo);
    forall j | lo <= j < mid
      ensures reply.io.sent[j] == query
    {
      assert reply.io.sent[j] == Repeat(query, mid - lo)[j - lo];
    }
  }

  /** Detail requests for `prs[i]`, then for `prs[i + 1..]`, are for `prs[i..]`. */
  lemma DetailRequestsJoin(first: seq<Query>, all: seq<Query>, lo: nat, hi: nat, owner: string, name: string,
                           prs: seq<PrRef>, i: nat)
    requires first <= all && lo <= |first| <= hi <= |all|
    requires DetailRequests(first, lo, |first|, owner, name, prs, i)
    requires DetailRequests(all, |first|, hi, owner, name, prs, i + 1)
    ensures DetailRequests(all, lo, hi, owner, name, prs, i)
  {
    var mid := |first|;
    forall j | lo <= j < hi
      ensures all[j].PullRequestQuery? && all[j].owner == owner && all[j].name == name
      ensures exists k :: i <= k < |prs| && all[j].number == prs[k].number
    {
      if j < mid {
        assert all[j] == all[..mid][j] == first[j];
      }
    }
  }

  /** Appending the metrics of one pull request keeps the new metrics well tagged. */
  lemma TaggedJoin(ms: seq<TaggedMetrics>, acc: seq<TaggedMetrics>, extra: seq<TaggedMetrics>, owner: string, name: string)
    requires acc + extra <= ms
    requires WellTagged(extra, owner, name) && WellTagged(ms[|acc + extra|..], owner, name)
    ensures WellTagged(ms[|acc|..], owner, name)
  {
    assert ms[|acc|..] == extra + ms[|acc + extra|..];
  }

  lemma {:induction false} CollectFromExplained(server: Server<Body>, owner: string, name: string, prs: seq<PrRef>,
                                                i: nat, acc: seq<TaggedMetrics>, io: Io)
    requires i <= |prs|
    ensures var r := CollectFrom(server, owner, name, prs, i, acc, io);
      && io.sent <= r.io.sent
      && |r.io.sent| - |io.sent| <= MaxRetries * (|prs| - i)
      && DetailRequests(r.io.sent, |io.sent|, |r.io.sent|, owner, name, prs, i)
      && (r.metrics.Some? ==>
            && acc <= r.metrics.value
            && |r.metrics.value| <= |acc| + |prs| - i
            && WellTagged(r.metrics.value[|acc|..], owner, name))
    decreases |prs| - i
  {
    if i < |prs| {
      var reply := Request(server, PullRequestQuery(owner, name, prs[i].number), MaxRetries, io);
      DetailStep(server, owner, name, prs, i, io);
      CollectStep(server, owner, name, prs, i, acc, io);
      if !(reply.data.Some? && Raises(reply.data.value)) {
        var extra := if reply.data.Some? then MeasuredIn(owner, name, reply.data.value) else [];
        var r := CollectFrom(server, owner, name, prs, i + 1, acc + extra, reply.io);
        CollectFromExplained(server, owner, name, prs, i + 1, acc + extra, reply.io);
        CollectBoundsStep(io, reply.io, r, acc, extra, owner, name, prs, i);
      }
    }
  }

  /** One detail request followed by the bounded rest of the loop keeps the bounds. */
  lemma CollectBoundsStep(io: Io, mid: Io, r: Collected, acc: seq<TaggedMetrics>, extra: seq<TaggedMetrics>,
                          owner: string, name: string, prs: seq<PrRef>, i: nat)
    requires i < |prs|
    requires io.sent <= mid.sent && |mid.sent| - |io.sent| <= MaxRetries
    requires DetailRequests(mid.sent, |io.sent|, |mid.sent|, owner, name, prs, i)
    requires |extra| <= 1 && WellTagged(extra, owner, name)
    requires mid.sent <= r.io.sent && |r.io.sent| - |mid.sent| <= MaxRetries * (|prs| - (i + 1))
    requires DetailRequests(r.io.sent, |mid.sent|, |r.io.sent|, owner, name, prs, i + 1)
    requires r.metrics.Some? ==>
               && acc + extra <= r.metrics.value
               && |r.metrics.value| <= |acc + extra| + |prs| - (i + 1)
               && WellTagged(r.metrics.value[|acc + extra|..], owner, name)
    ensures io.sent <= r.io.sent
    ensures |r.io.sent| - |io.sent| <= MaxRetries * (|prs| - i)
    ensures DetailRequests(r.io.sent, |io.sent|, |r.io.sent|, owner, name, prs, i)
    ensures r.metrics.Some? ==>
              && acc <= r.metrics.value
              && |r.metrics.value| <= |acc| + |prs| - i
              && WellTagged(r.metrics.value[|acc|..], owner, name)
  {
    DetailRequestsJoin(mid.sent, r.io.sent, |io.sent|, |r.io.sent|, owner, name, prs, i);
    if r.metrics.Some? {
      TaggedJoin(r.metrics.value, acc, extra, owner, name);
    }
  }

  /** What one 200 detail answer adds to the list: its metrics, tagged, when it is measured. */
  function MeasuredIn(owner: string, name: string, body: Body): seq<TaggedMetrics> {
    var details := PrDetails(Some(body));
    if details.DetailsOf? && CalculatePrMetrics(details.pr).Measured?
    then [TaggedMetrics(CalculatePrMetrics(details.pr).metrics, owner, name)]
    else []
  }

  function MeasuredOf(owner: string, name: string): Body -> seq<TaggedMetrics> {
    (body: Body) => MeasuredIn(owner, name, body)
  }

  /** A 200 detail answer whose handling raises: a body of another shape, or a timestamp that does not parse. */
  predicate Raises(body: Body) {
    var details := PrDetails(Some(body));
    details.DetailsRaised? || CalculatePrMetrics(details.pr).Malformed?
  }

  /**
   * A detail loop that began with `acc` at answer `lo` and ended with `r`
   * kept the earlier metrics and added the measured metrics of every 200
   * detail answer, in order; it gave up with `None` exactly when its last
   * answer is a 200 whose handling raises, and no earlier 200 answer raises.
   */
  ghost predicate GathersMeasured(server: Server<Body>, owner: string, name: string, acc: seq<TaggedMetrics>,
                                  lo: nat, r: Collected)
  {
    GathersUntil(server, MeasuredOf(owner, name), Raises, acc, lo, r.metrics, |r.io.sent|)
  }

  /** A detail call whose 200 answer raises ends the loop with `None`. */
  lemma GathersMeasuredRaise(server: Server<Body>, owner: string, name: string, acc: seq<TaggedMetrics>,
                             io: Io, query: Query)
    requires var reply := Request(server, query, MaxRetries, io);
      reply.data.Some? && Raises(reply.data.value)
    ensures GathersMeasured(server, owner, name, acc, |io.sent|, Collected(None, Request(server, query, MaxRetries, io).io))
  {
    RequestAnswer(server, query, MaxRetries, io);
  }

  /** A detail call that did not raise, followed by the rest of the loop. */
  lemma GathersMeasuredStep(server: Server<Body>, owner: string, name: string, acc: seq<TaggedMetrics>,
                            io: Io, query: Query, r: Collected)
    requires var reply := Request(server, query, MaxRetries, io);
      && !(reply.data.Some? && Raises(reply.data.value))
      && GathersMeasured(server, owner, name,
                         acc + (if reply.data.Some? then MeasuredOf(owner, name)(reply.data.value) else []),
                         |reply.io.sent|, r)
    ensures GathersMeasured(server, owner, name, acc, |io.sent|, r)
  {
    var reply := Request(server, query, MaxRetries, io);
    RequestAnswer(server, query, MaxRetries, io);
    CallGathered(server, MeasuredOf(owner, name), query, io);
    var m := |reply.io.sent|;
    assert server(m - 1).status != StatusOk || !Raises(server(m - 1).body);
    GathersUntilJoin(server, MeasuredOf(owner, name), Raises, acc,
                     if reply.data.Some? then MeasuredOf(owner, name)(reply.data.value) else [],
                     |io.sent|, m, r.metrics, |r.io.sent|);
  }

  /** The detail loop from any pull request on gathers the measured metrics of its 200 answers. */
  lemma {:induction false} CollectFromGathered(server: Server<Body>, owner: string, name: string, prs: seq<PrRef>,
                                               i: nat, acc: seq<TaggedMetrics>, io: Io)
    requires i <= |prs|
    ensures GathersMeasured(server, owner, name, acc, |io.sent|, CollectFrom(server, owner, name, prs, i, acc, io))
    decreases |prs| - i
  {
    if i < |prs| {
      var query := PullRequestQuery(owner, name, prs[i].number);
      var reply := Request(server, query, MaxRetries, io);
      CollectStep(server, owner, name, prs, i, acc, io);
      if reply.data.Some? && Raises(reply.data.value) {
        GathersMeasuredRaise(server, owner, name, acc, io, query);
      } else {
        var extra := if reply.data.Some? then MeasuredOf(owner, name)(reply.data.value) else [];
        var r := CollectFrom(server, owner, name, prs, i + 1, acc + extra, reply.io);
        CollectFromGathered(server, owner, name, prs, i + 1, acc + extra, reply.io);
        GathersMeasuredStep(server, owner, name, acc, io, query, r);
      }
    }
  }

  /** One pass of the detail loop, read through `MeasuredIn` and `Raises`. */
  lemma CollectStep(server: Server<Body>, owner: string, name: string, prs: seq<PrRef>, i: nat,
                    acc: seq<TaggedMetrics>, io: Io)
    requires i < |prs|
    ensures var reply := Request(server, PullRequestQuery(owner, name, prs[i].number), MaxRetries, io);
      var r := CollectFrom(server, owner, name, prs, i, acc, io);
      if reply.data.Some? && Raises(reply.data.value) then r == Collected(None, reply.io)
      else r == CollectFrom(server, owner, name, prs, i + 1,
                            acc + (if reply.data.Some? then MeasuredOf(owner, name)(reply.data.value) else []),
                            reply.io)
  {
    var reply := Request(server, PullRequestQuery(owner, name, prs[i].number), MaxRetries, io);
    var details := PrDetails(reply.data);
    if reply.data.None? {
      assert details == DetailsOf(None);
      assert acc + [] == acc;
    } else if !Raises(reply.data.value) {
      var assessment := CalculatePrMetrics(details.pr);
      assert assessment.Skipped? ==> acc + MeasuredIn(owner, name, reply.data.value) == acc;
    }
  }

  /**
   * `collect_repository_metrics` returns, in order, the measured metrics of
   * every 200 detail answer it read after fetching the pull requests again,
   * and `None` exactly when its last answer was a 200 whose handling raised.
   */
  lemma CollectGathered(server: Server<Body>, repo: RepoNode, maxPrs: nat, io: Io)
    ensures var reviewed := PullRequests(server, repo, MaxPages, io);
      var r := Collect(server, repo, maxPrs, io);
      var lo := |reviewed.io.sent|;
      var hi := |r.io.sent|;
      && lo <= hi
      && (r.metrics.Some? ==> r.metrics.value == Gathered(server, MeasuredOf(repo.ownerLogin, repo.name), lo, hi))
      && (r.metrics.None? <==> hi > lo && server(hi - 1).status == StatusOk && Raises(server(hi - 1).body))
  {
    var reviewed := PullRequests(server, repo, MaxPages, io);
    CollectFromGathered(server, repo.ownerLogin, repo.name, Take(reviewed.items, maxPrs), 0, [], reviewed.io);
    var r := Collect(server, repo, maxPrs, io);
    assert GathersMeasured(server, repo.ownerLogin, repo.name, [], |reviewed.io.sent|, r);
    if r.metrics.Some? {
      assert [] + Gathered(server, MeasuredOf(repo.ownerLogin, repo.name), |reviewed.io.sent|, |r.io.sent|)
          == Gathered(server, MeasuredOf(repo.ownerLogin, repo.name), |reviewed.io.sent|, |r.io.sent|);
    }
  }

  /**
   * `collect_repository_metrics` looks at the first `max_prs` reviewed pull
   * requests only: it sends at most five detail requests for each, every
   * one for a pull request among them, and keeps at most one metric per pull
   * request, each tagged with the repository's owner and name and each
   * measuring at least an hour.
   */
  lemma CollectExplained(server: Server<Body>, repo: RepoNode, maxPrs: nat, io: Io)
    ensures var reviewed := PullRequests(server, repo, MaxPages, io);
      var prs := Take(reviewed.items, maxPrs);
      var r := Collect(server, repo, maxPrs, io);
      && reviewed.io.sent <= r.io.sent
      && |r.io.sent| - |reviewed.io.sent| <= MaxRetries * |prs|
      && |prs| <= maxPrs
      && DetailRequests(r.io.sent, |reviewed.io.sent|, |r.io.sent|, repo.ownerLogin, repo.name, prs, 0)
      && (r.metrics.Some? ==> |r.metrics.value| <= |prs| && WellTagged(r.metrics.value, repo.ownerLogin, repo.name))
  {
    var reviewed := PullRequests(server, repo, MaxPages, io);
    var prs := Take(reviewed.items, maxPrs);
    CollectFromExplained(server, repo.ownerLogin, repo.name, prs, 0, [], reviewed.io);
    var r := Collect(server, repo, maxPrs, io);
    if r.metrics.Some? {
      assert r.metrics.value[0..] == r.metrics.value;
    }
  }

  /** The detail call that reads answer `lo` first ends at a 200 answer whose handling raises. */
  ghost predicate RaisesAt(server: Server<Body>, lo: nat) {
    var last := server(CallEnd(server, lo) - 1);
    last.status == StatusOk && Raises(last.body)
  }

  /** None of the `m` detail calls from the one that reads answer `lo` on raises. */
  ghost predicate NoneRaise(server: Server<Body>, lo: nat, m: nat)
    decreases m
  {
    m == 0 || (!RaisesAt(server, lo) && NoneRaise(server, CallEnd(server, lo), m - 1))
  }

  /**
   * The requests of `n` detail calls from answer `lo` on, for `prs[i]` to
   * `prs[i + n - 1]`: every attempt of the `k`-th call asks for `prs[i + k]`.
   */
  function DetailQueries(server: Server<Body>, owner: string, name: string, prs: seq<PrRef>, i: nat,
                         lo: nat, n: nat): seq<Query>
    requires i + n <= |prs|
    decreases n
  {
    if n == 0 then []
    else Repeat(PullRequestQuery(owner, name, prs[i].number), CallEnd(server, lo) - lo)
         + DetailQueries(server, owner, name, prs, i + 1, CallEnd(server, lo), n - 1)
  }

  /** The `n` detail calls from answer `lo` on read the answers up to the start of the next call. */
  lemma {:induction false} DetailQueriesLength(server: Server<Body>, owner: string, name: string, prs: seq<PrRef>,
                                               i: nat, lo: nat, n: nat)
    requires i + n <= |prs|
    ensures |DetailQueries(server, owner, name, prs, i, lo, n)| == CallStart(server, lo, n) - lo
    decreases n
  {
    CallStartStep(server, lo, if n == 0 then 0 else n - 1);
    if n > 0 {
      DetailQueriesLength(server, owner, name, prs, i + 1, CallEnd(server, lo), n - 1);
    }
  }

  /** Every attempt of the `k`-th detail call asks for the details of `prs[i + k]`. */
  lemma {:induction false} DetailQueryAt(server: Server<Body>, owner: string, name: string, prs: seq<PrRef>,
                                         i: nat, lo: nat, n: nat, k: nat, j: nat)
    requires i + n <= |prs| && k < n
    requires CallStart(server, lo, k) <= j < CallStart(server, lo, k + 1)
    ensures lo <= j < lo + |DetailQueries(server, owner, name, prs, i, lo, n)|
    ensures DetailQueries(server, owner, name, prs, i, lo, n)[j - lo] == PullRequestQuery(owner, name, prs[i + k].number)
    decreases k
  {
    assert lo <= j < lo + |DetailQueries(server, owner, name, prs, i, lo, n)| by {
      DetailQueriesLength(server, owner, name, prs, i, lo, n);
      CallStartAtLeast(server, lo, k);
      MonotoneStarts(server, lo, k + 1, n);
    }
    var next := CallEnd(server, lo);
    if k > 0 {
      assert next <= j && CallStart(server, next, k - 1) <= j < CallStart(server, next, k) by {
        CallStartStep(server, lo, 0);
        CallStartStep(server, next, 0);
        CallStartStep(server, lo, k - 1);
        CallStartStep(server, lo, k);
        MonotoneStarts(server, lo, 1, k);
      }
      DetailQueryAt(server, owner, name, prs, i + 1, next, n - 1, k - 1, j);
      DetailQueriesTail(server, owner, name, prs, i, lo, n, j);
    } else {
      assert j < next by {
        CallStartStep(server, lo, 0);
        CallStartStep(server, next, 0);
      }
      DetailQueriesHead(server, owner, name, prs, i, lo, n, j);
    }
  }

  /** The answers of the first detail call are all asked for `prs[i]`. */
  lemma DetailQueriesHead(server: Server<Body>, owner: string, name: string, prs: seq<PrRef>,
                          i: nat, lo: nat, n: nat, j: nat)
    requires i + n <= |prs| && n > 0 && lo <= j < CallEnd(server, lo)
    ensures j - lo < |DetailQueries(server, owner, name, prs, i, lo, n)|
    ensures DetailQueries(server, owner, name, prs, i, lo, n)[j - lo] == PullRequestQuery(owner, name, prs[i].number)
  {
    var query := PullRequestQuery(owner, name, prs[i].number);
    var head := Repeat(query, CallEnd(server, lo) - lo);
    assert DetailQueries(server, owner, name, prs, i, lo, n)
      == head + DetailQueries(server, owner, name, prs, i + 1, CallEnd(server, lo), n - 1);
    assert head[j - lo] == query;
  }

  /** After the first detail call, the queries are those of the calls that follow it. */
  lemma DetailQueriesTail(server: Server<Body>, owner: string, name: string, prs: seq<PrRef>,
                          i: nat, lo: nat, n: nat, j: nat)
    requires i + n <= |prs| && n > 0 && CallEnd(server, lo) <= j
    requires j - CallEnd(server, lo) < |DetailQueries(server, owner, name, prs, i + 1, CallEnd(server, lo), n - 1)|
    ensures CallEnd(server, lo) >= lo
    ensures j - lo < |DetailQueries(server, owner, name, prs, i, lo, n)|
    ensures DetailQueries(server, owner, name, prs, i, lo, n)[j - lo]
            == DetailQueries(server, owner, name, prs, i + 1, CallEnd(server, lo), n - 1)[j - CallEnd(server, lo)]
  {
    var next := CallEnd(server, lo);
    CallStartStep(server, lo, 0);
    CallStartAtLeast(server, lo, 1);
    var head := Repeat(PullRequestQuery(owner, name, prs[i].number), next - lo);
    assert DetailQueries(server, owner, name, prs, i, lo, n)
      == head + DetailQueries(server, owner, name, prs, i + 1, next, n - 1);
  }

  /** Later calls start later. */
  lemma MonotoneStarts(server: Server<Body>, lo: nat, a: nat, b: nat)
    requires a <= b
    ensures CallStart(server, lo, a) <= CallStart(server, lo, b)
  {
    CallStartSplit(server, lo, a, b - a);
    CallStartAtLeast(server, CallStart(server, lo, a), b - a);
  }

  /** `NoneRaise` says of each of the `m` calls that it did not raise. */
  lemma {:induction false} NoneRaiseEach(server: Server<Body>, lo: nat, m: nat)
    ensures NoneRaise(server, lo, m) <==> forall k :: 0 <= k < m ==> !RaisesAt(server, CallStart(server, lo, k))
    decreases m
  {
    CallStartStep(server, lo, 0);
    if m > 0 {
      var next := CallEnd(server, lo);
      NoneRaiseEach(server, next, m - 1);
      forall k | 0 < k < m ensures CallStart(server, lo, k) == CallStart(server, next, k - 1) {
        CallStartStep(server, lo, k - 1);
      }
      if forall k :: 0 <= k < m ==> !RaisesAt(server, CallStart(server, lo, k)) {
        forall k | 0 <= k < m - 1 ensures !RaisesAt(server, CallStart(server, next, k)) {
          assert CallStart(server, lo, k + 1) == CallStart(server, next, k);
        }
      }
    }
  }

  /**
   * The detail loop from `prs[i]` on, between `io` and `r`, made `n` whole
   * calls of `make_github_request`, one per pull request in order, and the
   * waits are theirs. With a list, it made one call for every pull request
   * left and none raised; with `None`, the last call ended at a 200 answer
   * whose handling raised and no earlier one did.
   */
  ghost predicate DetailCalls(server: Server<Body>, owner: string, name: string, prs: seq<PrRef>, i: nat,
                              io: Io, r: Collected, n: nat)
  {
    var lo := |io.sent|;
    && i + n <= |prs|
    && r.io.sent == io.sent + DetailQueries(server, owner, name, prs, i, lo, n)
    && r.io.waits == io.waits + CallsWaits(server, lo, n)
    && (if r.metrics.Some? then i + n == |prs| && NoneRaise(server, lo, n)
        else n > 0 && NoneRaise(server, lo, n - 1) && RaisesAt(server, CallStart(server, lo, n - 1)))
  }

  /** `DetailCalls` for some number of calls. */
  ghost predicate CollectsInCalls(server: Server<Body>, owner: string, name: string, prs: seq<PrRef>, i: nat,
                                  io: Io, r: Collected)
  {
    exists n: nat :: DetailCalls(server, owner, name, prs, i, io, r, n)
  }

  /** `DetailCalls` spelled out call by call. */
  lemma DetailCallsSpelled(server: Server<Body>, owner: string, name: string, prs: seq<PrRef>, i: nat,
                           io: Io, r: Collected, n: nat)
    requires DetailCalls(server, owner, name, prs, i, io, r, n)
    ensures io.sent <= r.io.sent && |r.io.sent| == CallStart(server, |io.sent|, n)
    ensures forall k: nat :: k <= n ==> CallStart(server, |io.sent|, k) <= |r.io.sent|
    ensures forall k: nat, j: nat :: k < n && CallStart(server, |io.sent|, k) <= j < CallStart(server, |io.sent|, k + 1) ==>
              r.io.sent[j] == PullRequestQuery(owner, name, prs[i + k].number)
    ensures r.io.waits == io.waits + CallsWaits(server, |io.sent|, n)
    ensures r.metrics.Some? ==>
              && i + n == |prs|
              && forall k :: 0 <= k < n ==> !RaisesAt(server, CallStart(server, |io.sent|, k))
    ensures r.metrics.None? ==>
              && n > 0 && RaisesAt(server, CallStart(server, |io.sent|, n - 1))
              && forall k :: 0 <= k < n - 1 ==> !RaisesAt(server, CallStart(server, |io.sent|, k))
  {
    var lo := |io.sent|;
    DetailQueriesLength(server, owner, name, prs, i, lo, n);
    forall k: nat | k <= n ensures CallStart(server, lo, k) <= |r.io.sent| {
      MonotoneStarts(server, lo, k, n);
    }
    forall k: nat, j: nat | k < n && CallStart(server, lo, k) <= j < CallStart(server, lo, k + 1)
      ensures r.io.sent[j] == PullRequestQuery(owner, name, prs[i + k].number)
    {
      DetailQueryAt(server, owner, name, prs, i, lo, n, k, j);
      assert r.io.sent[j] == DetailQueries(server, owner, name, prs, i, lo, n)[j - lo];
    }
    if r.metrics.Some? {
      NoneRaiseEach(server, lo, n);
    } else {
      NoneRaiseEach(server, lo, n - 1);
    }
  }

  /** With no pull request left the loop makes no call. */
  lemma DetailCallsDone(server: Server<Body>, owner: string, name: string, prs: seq<PrRef>,
                        acc: seq<TaggedMetrics>, io: Io)
    ensures DetailCalls(server, owner, name, prs, |prs|, io, Collected(Some(acc), io), 0)
  {
    CallsStep(server, |io.sent|, 0);
    assert io.sent + [] == io.sent;
    assert io.waits + [] == io.waits;
  }

  /** A first detail call whose 200 answer raises ends the loop after one call. */
  lemma DetailCallsRaise(server: Server<Body>, owner: string, name: string, prs: seq<PrRef>, i: nat, io: Io)
    requires i < |prs|
    requires var reply := Request(server, PullRequestQuery(owner, name, prs[i].number), MaxRetries, io);
      reply.data.Some? && Raises(reply.data.value)
    ensures DetailCalls(server, owner, name, prs, i, io,
                        Collected(None, Request(server, PullRequestQuery(owner, name, prs[i].number), MaxRetries, io).io), 1)
  {
    var lo := |io.sent|;
    var query := PullRequestQuery(owner, name, prs[i].number);
    RequestCall(server, query, io);
    CallsStep(server, lo, 0);
    CallsStep(server, CallEnd(server, lo), 0);
    assert DetailQueries(server, owner, name, prs, i, lo, 1) == Repeat(query, CallEnd(server, lo) - lo) + [];
    assert CallsWaits(server, lo, 1) == CallWaits(server, lo) + [];
  }

  /** A first detail call that does not raise, followed by the rest of the loop, adds one call. */
  lemma DetailCallsStep(server: Server<Body>, owner: string, name: string, prs: seq<PrRef>, i: nat, io: Io,
                        r: Collected, n: nat)
    requires i < |prs|
    requires var reply := Request(server, PullRequestQuery(owner, name, prs[i].number), MaxRetries, io);
      && !(reply.data.Some? && Raises(reply.data.value))
      && DetailCalls(server, owner, name, prs, i + 1, reply.io, r, n)
    ensures DetailCalls(server, owner, name, prs, i, io, r, n + 1)
  {
    var lo := |io.sent|;
    var query := PullRequestQuery(owner, name, prs[i].number);
    var reply := Request(server, query, MaxRetries, io);
    RequestCall(server, query, io);
    var next := CallEnd(server, lo);
    assert !RaisesAt(server, lo);
    CallsStep(server, lo, n);
    Associative(io.sent, Repeat(query, next - lo), DetailQueries(server, owner, name, prs, i + 1, next, n));
    Associative(io.waits, CallWaits(server, lo), CallsWaits(server, next, n));
    if r.metrics.None? {
      CallStartStep(server, lo, n - 1);
    }
  }

  /** The detail loop from `prs[i]` on splits into whole calls, one per pull request it asked for. */
  lemma {:induction false} CollectFromCalls(server: Server<Body>, owner: string, name: string, prs: seq<PrRef>,
                                            i: nat, acc: seq<TaggedMetrics>, io: Io)
    requires i <= |prs|
    ensures CollectsInCalls(server, owner, name, prs, i, io, CollectFrom(server, owner, name, prs, i, acc, io))
    decreases |prs| - i
  {
    if i == |prs| {
      DetailCallsDone(server, owner, name, prs, acc, io);
    } else {
      var query := PullRequestQuery(owner, name, prs[i].number);
      var reply := Request(server, query, MaxRetries, io);
      CollectStep(server, owner, name, prs, i, acc, io);
      if reply.data.Some? && Raises(reply.data.value) {
        DetailCallsRaise(server, owner, name, prs, i, io);
      } else {
        var extra := if reply.data.Some? then MeasuredOf(owner, name)(reply.data.value) else [];
        var r := CollectFrom(server, owner, name, prs, i + 1, acc + extra, reply.io);
        CollectFromCalls(server, owner, name, prs, i + 1, acc + extra, reply.io);
        var n: nat :| DetailCalls(server, owner, name, prs, i + 1, reply.io, r, n);
        DetailCallsStep(server, owner, name, prs, i, io, r, n);
      }
    }
  }

  /**
   * `collect_repository_metrics` asks for the details of the first `max_prs`
   * reviewed pull requests one call each, in order, and stops early only at
   * a detail answer whose handling raises.
   */
  lemma CollectCalls(server: Server<Body>, repo: RepoNode, maxPrs: nat, io: Io)
    ensures var reviewed := PullRequests(server, repo, MaxPages, io);
      CollectsInCalls(server, repo.ownerLogin, repo.name, Take(reviewed.items, maxPrs), 0, reviewed.io,
                      Collect(server, repo, maxPrs, io))
  {
    var reviewed := PullRequests(server, repo, MaxPages, io);
    CollectFromCalls(server, repo.ownerLogin, repo.name, Take(reviewed.items, maxPrs), 0, [], reviewed.io);
  }

  // ----- process_data -----

  /** The averages of one repository's metrics (`avg_metrics`), before rounding. */
  datatype Averages = Averages(
    analysisHours: real,
    files: real,
    additions: real,
    deletions: real,
    description: real,
    comments: real,
    participants: real,
    reviews: real,
    mergeRate: real)

  /** The averages of a repository without metrics: all zero. */
  const ZeroAverages := Averages(0.0, 0.0, 0.0, 0.0, 0.0, 0.0, 0.0, 0.0, 0.0)

  /** One column of the metrics frame, `df_metrics[field]`. */
  function Field(ms: seq<TaggedMetrics>, field: PrMetrics -> int): (xs: seq<int>)
    ensures |xs| == |ms|
    ensures forall k :: 0 <= k < |ms| ==> xs[k] == field(ms[k].metrics)
  {
    seq(|ms|, (k: int) requires 0 <= k < |ms| => field(ms[k].metrics))
  }

  /** `df_metrics[field].mean()`, written out so that callers do not see the mean's own contract. */
  function FieldMean(ms: seq<TaggedMetrics>, field: PrMetrics -> int): real
    requires ms != []
  {
    Statistics.Sum(Field(ms, field)) as real / |ms| as real
  }

  lemma FieldMeanIsMean(ms: seq<TaggedMetrics>, field: PrMetrics -> int)
    requires ms != []
    ensures FieldMean(ms, field) == Statistics.Mean(Field(ms, field)).value
  {
  }

  /** The number of merged pull requests, `len(df_metrics[df_metrics['state'] == 'MERGED'])`. */
  function MergedCount(ms: seq<TaggedMetrics>): (n: nat)
    ensures n <= |ms|
  {
    if ms == [] then 0
    else MergedCount(ms[..|ms| - 1]) + (if ms[|ms| - 1].metrics.state == MergedState then 1 else 0)
  }

  /** The merge rate, `merged_prs / total_prs`. */
  function MergeRate(ms: seq<TaggedMetrics>): (rate: real)
    requires ms != []
    ensures 0.0 <= rate <= 1.0
    ensures rate * (|ms| as real) == MergedCount(ms) as real
  {
    var n := |ms| as real;
    var merged := MergedCount(ms) as real;
    var rate := merged / n;
    ShareAtMostOne(merged, n);
    rate
  }

  /** A part of a positive whole is at most the whole: `part / whole` lies in [0, 1]. */
  lemma ShareAtMostOne(part: real, whole: real)
    requires 0.0 <= part <= whole && whole > 0.0
    ensures 0.0 <= part / whole <= 1.0
    ensures (part / whole) * whole == part
  {
    var q := part / whole;
    assert q * whole == part;
    assert q * whole <= 1.0 * whole;
  }

  // The columns of `df_metrics` that `avg_metrics` averages.
  function AnalysisColumn(m: PrMetrics): int { m.analysisSeconds }
  function FilesColumn(m: PrMetrics): int { m.totalFiles }
  function AdditionsColumn(m: PrMetrics): int { m.totalAdditions }
  function DeletionsColumn(m: PrMetrics): int { m.totalDeletions }
  function DescriptionColumn(m: PrMetrics): int { m.descriptionLength }
  function CommentsColumn(m: PrMetrics): int { m.totalComments }
  function ParticipantsColumn(m: PrMetrics): int { m.totalParticipants }
  function ReviewsColumn(m: PrMetrics): int { m.totalReviews }

  /** The column means of `avg_metrics`, the analysis time in hours; the merge rate is left at zero. */
  function ColumnMeans(ms: seq<TaggedMetrics>): Averages
    requires ms != []
  {
    Averages(FieldMean(ms, AnalysisColumn) / 3600.0,
             FieldMean(ms, FilesColumn),
             FieldMean(ms, AdditionsColumn),
             FieldMean(ms, DeletionsColumn),
             FieldMean(ms, DescriptionColumn),
             FieldMean(ms, CommentsColumn),
             FieldMean(ms, ParticipantsColumn),
             FieldMean(ms, ReviewsColumn),
             0.0)
  }

  /** `avg_metrics`: zero without metrics, otherwise the mean of each column and the merge rate. */
  function AverageMetrics(ms: seq<TaggedMetrics>): (avg: Averages)
    ensures ms == [] ==> avg == ZeroAverages
    ensures 0.0 <= avg.mergeRate <= 1.0
    ensures ms != [] ==> avg.mergeRate == MergeRate(ms)
    ensures ms != [] ==> avg.analysisHours == Statistics.Mean(Field(ms, AnalysisColumn)).value / 3600.0
    ensures ms != [] ==> avg.files == Statistics.Mean(Field(ms, FilesColumn)).value
    ensures ms != [] ==> avg.additions == Statistics.Mean(Field(ms, AdditionsColumn)).value
    ensures ms != [] ==> avg.deletions == Statistics.Mean(Field(ms, DeletionsColumn)).value
    ensures ms != [] ==> avg.description == Statistics.Mean(Field(ms, DescriptionColumn)).value
    ensures ms != [] ==> avg.comments == Statistics.Mean(Field(ms, CommentsColumn)).value
    ensures ms != [] ==> avg.participants == Statistics.Mean(Field(ms, ParticipantsColumn)).value
    ensures ms != [] ==> avg.reviews == Statistics.Mean(Field(ms, ReviewsColumn)).value
  {
    if ms == [] then ZeroAverages else ColumnMeans(ms).(mergeRate := MergeRate(ms))
  }

  /** Metrics of at least an hour each average to at least an hour. */
  lemma AverageAnalysisAtLeastAnHour(ms: seq<TaggedMetrics>)
    requires ms != []
    requires forall k :: 0 <= k < |ms| ==> ms[k].metrics.analysisSeconds >= MinAnalysisSeconds
    ensures AverageMetrics(ms).analysisHours >= 1.0
  {
    Statistics.MeanAtLeast(Field(ms, AnalysisColumn), MinAnalysisSeconds);
  }

  /** One row of the table `process_data` returns, before rounding. */
  datatype Row = Row(
    name: string,
    owner: string,
    stars: int,
    language: string,
    reviewedPrs: nat,
    url: string,
    averages: Averages)

  function RowOf(repo: RepoNode, reviewedCount: nat, averages: Averages): Row {
    Row(repo.name, repo.ownerLogin, repo.stargazerCount, LanguageName(repo.primaryLanguage),
        reviewedCount, repo.url, averages)
  }

  /** A table, or `None` when an exception left `process_data`; with the requests after it. */
  datatype Processed = Processed(rows: Option<seq<Row>>, io: Io)

  /** The row of one repository, or `None` when an exception left `process_data`; with the requests after it. */
  datatype RowStep = RowStep(row: Option<Row>, io: Io)

  /**
   * One pass of the `for repo in repositories` loop: the reviewed pull
   * requests are fetched, and their metrics collected only when there are any.
   */
  function RepositoryRow(server: Server<Body>, repo: RepoNode, io: Io): RowStep {
    var reviewed := PullRequests(server, repo, MaxPages, io);
    var count := |reviewed.items|;
    var collected := if count > 0 then Collect(server, repo, MaxPrs, reviewed.io)
                     else Collected(Some([]), reviewed.io);
    if collected.metrics.None? then RowStep(None, collected.io)
    else RowStep(Some(RowOf(repo, count, AverageMetrics(collected.metrics.value))), collected.io)
  }

  /** The `for repo in repositories` loop from repository `i` on. */
  function ProcessFrom(server: Server<Body>, repos: seq<RepoNode>, i: nat, rows: seq<Row>, io: Io): Processed
    decreases |repos| - i
  {
    if i >= |repos| then Processed(Some(rows), io)
    else
      var step := RepositoryRow(server, repos[i], io);
      if step.row.None? then Processed(None, step.io)
      else ProcessFrom(server, repos, i + 1, rows + [step.row.value], step.io)
  }

  /** `process_data(repositories)` */
  function Process(server: Server<Body>, repos: seq<RepoNode>, io: Io): Processed {
    ProcessFrom(server, repos, 0, [], io)
  }

  method ProcessData(server: Server<Body>, repositories: seq<RepoNode>, io: Io)
    returns (repoList: Option<seq<Row>>, next: Io)
    ensures Processed(repoList, next) == Process(server, repositories, io)
  {
    var rows: seq<Row> := [];
    next := io;
    ghost var target := Process(server, repositories, io);
    for i := 0 to |repositories|
      invariant ProcessFrom(server, repositories, i, rows, next) == target
    {
      var repo := repositories[i];
      ghost var before := next;
      var reviewedPrs;
      reviewedPrs, next := FetchPullRequests(server, repo, MaxPages, next);
      var reviewedPrCount := |reviewedPrs|;
      var prMetrics: Option<seq<TaggedMetrics>> := Some([]);
      if reviewedPrCount > 0 {
        prMetrics, next := CollectRepositoryMetrics(server, repo, MaxPrs, next);
      }
      assert RepositoryRow(server, repo, before).io == next;
      if prMetrics.None? {
        return None, next;
      }
      var avgMetrics := AverageMetrics(prMetrics.value);
      rows := rows + [RowOf(repo, reviewedPrCount, avgMetrics)];
    }
    repoList := Some(rows);
  }

  /**
   * A row describes its repository: the identifying fields are copied, a
   * null language reads "Desconhecido", the merge rate lies in [0, 1], a
   * repository without reviewed pull requests has all-zero averages, a
   * repository with measured pull requests averages at least an hour of
   * analysis, and the averages are those of at most `MaxPrs` metrics of
   * this repository, none when it has no reviewed pull request.
   */
  ghost predicate Describes(repo: RepoNode, row: Row) {
    && row.name == repo.name
    && row.owner == repo.ownerLogin
    && row.stars == repo.stargazerCount
    && row.language == LanguageName(repo.primaryLanguage)
    && row.url == repo.url
    && 0.0 <= row.averages.mergeRate <= 1.0
    && (row.reviewedPrs == 0 ==> row.averages == ZeroAverages)
    && (row.averages == ZeroAverages || row.averages.analysisHours >= 1.0)
    && exists ms ::
         && |ms| <= MaxPrs
         && WellTagged(ms, repo.ownerLogin, repo.name)
         && (row.reviewedPrs == 0 ==> ms == [])
         && row.averages == AverageMetrics(ms)
  }

  /** The row built from at most `MaxPrs` well-tagged metrics describes its repository. */
  lemma RowOfDescribes(repo: RepoNode, count: nat, ms: seq<TaggedMetrics>)
    requires count == 0 ==> ms == []
    requires |ms| <= MaxPrs && WellTagged(ms, repo.ownerLogin, repo.name)
    ensures Describes(repo, RowOf(repo, count, AverageMetrics(ms)))
  {
    if ms != [] {
      AverageAnalysisAtLeastAnHour(ms);
    }
  }

  /**
   * The cost of `collect_repository_metrics` alone: it fetches the pull
   * requests again (at most five requests per page), then sends at most five
   * detail requests per pull request looked at.
   */
  lemma CollectCost(server: Server<Body>, repo: RepoNode, io: Io)
    ensures var r := Collect(server, repo, MaxPrs, io);
      io.sent <= r.io.sent && |r.io.sent| - |io.sent| <= MaxRetries * (MaxPages + MaxPrs)
  {
    var reviewed := PullRequests(server, repo, MaxPages, io);
    FetchPullRequestsExplained(server, repo, MaxPages, io);
    CollectExplained(server, repo, MaxPrs, io);
    var r := Collect(server, repo, MaxPrs, io);
    var prs := Take(reviewed.items, MaxPrs);
    assert |reviewed.io.sent| - |io.sent| <= 5 * 3;
    assert |r.io.sent| - |reviewed.io.sent| <= 5 * |prs| <= 5 * 10;
  }

  /**
   * A repository without reviewed pull requests costs only its pull-request
   * fetch; one with some costs, beyond it, at most a second pull-request fetch
   * and five detail requests for each of its first ten.
   */
  lemma RepositoryRowCost(server: Server<Body>, repo: RepoNode, io: Io)
    ensures var reviewed := PullRequests(server, repo, MaxPages, io);
      var step := RepositoryRow(server, repo, io);
      && reviewed.io.sent <= step.io.sent
      && |step.io.sent| - |reviewed.io.sent| <= MaxRetries * (MaxPages + MaxPrs)
      && (reviewed.items == [] ==> step == RowStep(Some(RowOf(repo, 0, ZeroAverages)), reviewed.io))
  {
    var reviewed := PullRequests(server, repo, MaxPages, io);
    CollectCost(server, repo, reviewed.io);
  }

  /**
   * The row of a repository describes it and counts its reviewed pull
   * requests; its averages are those of the metrics collected for it, or
   * all zero when it has no reviewed pull request; and there is no row
   * exactly when the collection gave up.
   */
  lemma RepositoryRowDescribes(server: Server<Body>, repo: RepoNode, io: Io)
    ensures var reviewed := PullRequests(server, repo, MaxPages, io);
      var count := |reviewed.items|;
      var step := RepositoryRow(server, repo, io);
      && (step.row.None? <==> count > 0 && Collect(server, repo, MaxPrs, reviewed.io).metrics.None?)
      && (step.row.Some? ==>
            && Describes(repo, step.row.value)
            && step.row.value.reviewedPrs == count
            && step.row.value.averages
               == if count > 0 then AverageMetrics(Collect(server, repo, MaxPrs, reviewed.io).metrics.value)
                  else ZeroAverages)
  {
    var reviewed := PullRequests(server, repo, MaxPages, io);
    var count := |reviewed.items|;
    if count > 0 {
      var collected := Collect(server, repo, MaxPrs, reviewed.io);
      CollectExplained(server, repo, MaxPrs, reviewed.io);
      if collected.metrics.Some? {
        RowOfDescribes(repo, count, collected.metrics.value);
      }
    } else {
      RowOfDescribes(repo, count, []);
    }
  }

  lemma {:induction false} ProcessFromExplained(server: Server<Body>, repos: seq<RepoNode>, i: nat, rows: seq<Row>,
                                                io: Io)
    requires i <= |repos| && |rows| == i
    ensures var r := ProcessFrom(server, repos, i, rows, io);
      r.rows.Some? ==>
        && |r.rows.value| == |repos|
        && r.rows.value[..i] == rows
        && forall k :: i <= k < |repos| ==> Describes(repos[k], r.rows.value[k])
    decreases |repos| - i
  {
    if i < |repos| {
      var step := RepositoryRow(server, repos[i], io);
      RepositoryRowDescribes(server, repos[i], io);
      if step.row.Some? {
        var row := step.row.value;
        var rows' := rows + [row];
        var r := ProcessFrom(server, repos, i + 1, rows', step.io);
        assert ProcessFrom(server, repos, i, rows, io) == r;
        ProcessFromExplained(server, repos, i + 1, rows', step.io);
        if r.rows.Some? {
          var all := r.rows.value;
          assert all[..i + 1] == rows';
          assert all[..i] == rows' [..i] == rows;
          assert all[i] == rows'[i] == row;
          forall k | i <= k < |repos|
            ensures Describes(repos[k], all[k])
          {
            if k == i {
              assert Describes(repos[i], row);
            }
          }
        }
      }
    }
  }

  /**
   * `process_data` gives exactly one row per repository, in order, each
   * describing its repository (unless an exception left it).
   */
  lemma ProcessExplained(server: Server<Body>, repos: seq<RepoNode>, io: Io)
    ensures var r := Process(server, repos, io);
      r.rows.Some? ==>
        && |r.rows.value| == |repos|
        && forall k :: 0 <= k < |repos| ==> Describes(repos[k], r.rows.value[k])
  {
    ProcessFromExplained(server, repos, 0, [], io);
  }
}
