/**
 * Lab05/src/repositories_adapter.py: the same 1000-wanted, 25-per-call
 * search as Lab01, whose nodes carry open and closed issue counts under the
 * aliases `openIssues` and `closedIssues`, and its normaliser.
 */
module Lab05Adapter {
  import opened Wrappers
  import opened Api
  import Paginator

  /** `totalRepos = 1000` */
  const TotalRepos := 1000
  /** `batchSize = 25` */
  const BatchSize := 25

  /** The repository node the Lab05 search selects. */
  datatype RepoNode = RepoNode(
    name: string,
    ownerLogin: string,
    createdAt: string,
    updatedAt: string,
    stargazerCount: int,
    primaryLanguage: Option<string>,   // `primaryLanguage { name }`, null for none
    mergedPullRequests: int,           // `pullRequests(states: MERGED) { totalCount }`
    releases: int,                     // `releases { totalCount }`
    openIssues: int,                   // `openIssues: issues(states:OPEN) { totalCount }`
    closedIssues: int)                 // `closedIssues: issues(states:CLOSED) { totalCount }`

  /**
   * One row: "Nome", "Proprietário", "Data de Criação", "Última Atualização",
   * "Estrelas", "Pull Requests Aceitos", "Releases", "Total de Issues Abertas",
   * "Total de Issues Fechadas", "Linguagem Principal".
   */
  datatype Record = Record(
    name: string,
    owner: string,
    createdAt: string,
    updatedAt: string,
    stars: int,
    acceptedPullRequests: int,
    releases: int,
    openIssues: int,
    closedIssues: int,
    language: string)

  /** The row built for one node. */
  function Normalize(node: RepoNode): Record {
    Record(node.name, node.ownerLogin, node.createdAt, node.updatedAt, node.stargazerCount,
           node.mergedPullRequests, node.releases, node.openIssues, node.closedIssues,
           LanguageName(node.primaryLanguage))
  }

  /** Reads a node back from a row, the default language name as a null language. */
  function Denormalize(row: Record): RepoNode {
    RepoNode(row.name, row.owner, row.createdAt, row.updatedAt, row.stars,
             if row.language == UnknownLanguage then None else Some(row.language),
             row.acceptedPullRequests, row.releases, row.openIssues, row.closedIssues)
  }

  /**
   * Every field is copied unchanged (open and closed issue counts each to
   * its own column, never swapped or summed), except that a null language
   * becomes "Desconhecido".
   */
  lemma NormalizeRoundTrip(node: RepoNode)
    requires node.primaryLanguage != Some(UnknownLanguage)
    ensures Denormalize(Normalize(node)) == node
    ensures Normalize(node).openIssues == node.openIssues && Normalize(node).closedIssues == node.closedIssues
  {
  }

  /** `processData`: one row per repository, in input order. */
  method ProcessData(repositories: seq<RepoNode>) returns (rows: seq<Record>)
    ensures |rows| == |repositories|
    ensures forall i :: 0 <= i < |rows| ==> rows[i] == Normalize(repositories[i])
  {
    rows := [];
    for i := 0 to |repositories|
      invariant |rows| == i
      invariant forall k :: 0 <= k < i ==> rows[k] == Normalize(repositories[k])
    {
      rows := rows + [Normalize(repositories[i])];
    }
  }

  /**
   * `fetchRepositories`: 40 batches of up to three attempts, every edge kept;
   * at most 120 requests, at least 40 when a list is returned.
   */
  method FetchRepositories(server: Server<Page<RepoNode>>)
    returns (repos: Option<seq<RepoNode>>, sent: seq<Paginator.SearchRequest>, sleeps: seq<nat>)
    ensures Paginator.Run(repos, sent, sleeps) == Paginator.Fetch(server, Paginator.KeepAll, TotalRepos, BatchSize)
    ensures Paginator.Explains(server, Paginator.KeepAll, BatchSize, Paginator.Run(repos, sent, sleeps))
    ensures Paginator.InBatches(server, TotalRepos / BatchSize, Paginator.Run(repos, sent, sleeps))
    ensures |sent| <= 120
    ensures repos.Some? ==> 40 <= |sent|
  {
    repos, sent, sleeps := Paginator.FetchRepositories(server, Paginator.KeepAll, TotalRepos, BatchSize);
    Paginator.FetchExplained(server, Paginator.KeepAll, TotalRepos, BatchSize);
  }
}
