/**
 * The top-level run of Lab01/src/main.py: fetch, and only when the fetch
 * returned a non-empty list, normalise it into the table that is written to
 * `repos.csv` and printed (the writing and printing are not modelled).
 */
module Lab01Main {
  import opened Wrappers
  import opened Api
  import Paginator
  import Lab01Adapter

  /**
   * `if repositories:` holds for a non-empty list only, so a call that met
   * an empty page (`None`) and a call whose every batch failed (`[]`) both
   * produce no table. Otherwise the table has one row per fetched repository.
   */
  method Run(server: Server<Page<Lab01Adapter.RepoNode>>)
    returns (table: Option<seq<Lab01Adapter.Record>>, sent: seq<Paginator.SearchRequest>, sleeps: seq<nat>)
    ensures var run := Paginator.Fetch(server, Paginator.KeepAll, Lab01Adapter.TotalRepos, Lab01Adapter.BatchSize);
      && sent == run.sent && sleeps == run.sleeps
      && (table.Some? <==> run.result.Some? && run.result.value != [])
      && (table.Some? ==> |table.value| == |run.result.value|
                          && forall i :: 0 <= i < |table.value| ==>
                               table.value[i] == Lab01Adapter.Normalize(run.result.value[i]))
  {
    var repositories;
    repositories, sent, sleeps := Lab01Adapter.FetchRepositories(server);
    if repositories.Some? && repositories.value != [] {
      var df := Lab01Adapter.ProcessData(repositories.value);
      table := Some(df);
    } else {
      table := None;
    }
  }

  /**
   * When every one of the 40 batches fails, the fetch returns an empty list
   * after 120 requests and ten minutes of sleeping, and no table is made.
   */
  lemma AllFailuresWriteNothing(server: Server<Page<Lab01Adapter.RepoNode>>)
    requires forall k: nat :: server(k).status != StatusOk
    ensures var run := Paginator.Fetch(server, Paginator.KeepAll, Lab01Adapter.TotalRepos, Lab01Adapter.BatchSize);
      && run.result == Some([])
      && |run.sent| == 120
      && |run.sleeps| == 120
  {
    var run := Paginator.Fetch(server, Paginator.KeepAll, Lab01Adapter.TotalRepos, Lab01Adapter.BatchSize);
    Paginator.FetchExplained(server, Paginator.KeepAll, Lab01Adapter.TotalRepos, Lab01Adapter.BatchSize);
    NoSuccessKeepsNothing(Responses(server, |run.sent|));
    AllFailuresCounted(Responses(server, |run.sent|));
    AllFailuresUseBudget(server, 40, Paginator.Loop(0, 0, None, [], [], []));
  }

  lemma {:induction false} NoSuccessKeepsNothing(rs: seq<Response<Page<Lab01Adapter.RepoNode>>>)
    requires forall i :: 0 <= i < |rs| ==> rs[i].status != StatusOk
    ensures Paginator.Kept(Paginator.KeepAll, rs) == []
  {
    if rs != [] {
      NoSuccessKeepsNothing(rs[..|rs| - 1]);
    }
  }

  lemma {:induction false} AllFailuresCounted(rs: seq<Response<Page<Lab01Adapter.RepoNode>>>)
    requires forall i :: 0 <= i < |rs| ==> rs[i].status != StatusOk
    ensures Paginator.Failures(rs) == |rs|
  {
    if rs != [] {
      AllFailuresCounted(rs[..|rs| - 1]);
    }
  }

  lemma {:induction false} AllFailuresUseBudget(server: Server<Page<Lab01Adapter.RepoNode>>, numBatches: nat,
                                                s: Paginator.Loop<Lab01Adapter.RepoNode>)
    requires forall k: nat :: server(k).status != StatusOk
    requires s.attempt <= Paginator.Attempts
    ensures |Paginator.Step(server, Paginator.KeepAll, Lab01Adapter.BatchSize, numBatches, s).sent|
            == |s.sent| + Paginator.Budget(numBatches, s)
    ensures Paginator.Step(server, Paginator.KeepAll, Lab01Adapter.BatchSize, numBatches, s).result.Some?
    decreases numBatches - s.batch, Paginator.Attempts - s.attempt
  {
    if s.batch >= numBatches {
    } else if s.attempt == Paginator.Attempts {
      AllFailuresUseBudget(server, numBatches, s.(batch := s.batch + 1, attempt := 0));
    } else {
      var sent := s.sent + [Paginator.SearchRequest(Lab01Adapter.BatchSize, AfterArg(s.cursor))];
      AllFailuresUseBudget(server, numBatches,
        s.(attempt := s.attempt + 1, sent := sent, sleeps := s.sleeps + [Paginator.RetryDelay]));
    }
  }
}
