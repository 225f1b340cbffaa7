/**
 * Lab01/src/repositories_adapter.py: the search for the most-starred
 * repositories (1000 wanted, 25 per call) and the normaliser that turns each
 * search edge into one flat row. Lab01/src/main.py repeats `fetchRepositories`
 * and `processData` word for word; both copies are modelled here.
 */
module Lab01Adapter {
  import opened Wrappers
  import opened Api
  import Paginator

  /** `totalRepos = 1000` */
  const TotalRepos := 1000
  /** `batchSize = 25` */
  const BatchSize := 25

  /** The repository node the Lab01 search selects. */
  datatype RepoNode = RepoNode(
    name: string,
    ownerLogin: string,
    createdAt: string,
    updatedAt: string,
    stargazerCount: int,
    primaryLanguage: Option<string>,   // `primaryLanguage { name }`, null for none
    mergedPullRequests: int,           // `pullRequests(states: MERGED) { totalCount }`
    releases: int,                     // `releases { totalCount }`
    issues: int)                       // `issues { totalCount }`

  /**
   * One row of the table: "Nome", "Proprietário", "Data de Criação",
   * "Última Atualização", "Estrelas", "Pull Requests Aceitos", "Releases",
   * "Total de Issues", "Linguagem Principal".
   */
  datatype Record = Record(
    name: string,
    owner: string,
    createdAt: string,
    updatedAt: string,
    stars: int,
    acceptedPullRequests: int,
    releases: int,
    totalIssues: int,
    language: string)

  /** The row built for one node (the dictionary literal inside the loop). */
  function Normalize(node: RepoNode): Record {
    Record(node.name, node.ownerLogin, node.createdAt, node.updatedAt, node.stargazerCount,
           node.mergedPullRequests, node.releases, node.issues, LanguageName(node.primaryLanguage))
  }

  /**
   * Reads a node back from a row: the inverse of `Normalize` except that the
   * default language name is read as a null language.
   */
  function Denormalize(row: Record): RepoNode {
    RepoNode(row.name, row.owner, row.createdAt, row.updatedAt, row.stars,
             if row.language == UnknownLanguage then None else Some(row.language),
             row.acceptedPullRequests, row.releases, row.totalIssues)
  }

  /**
   * Normalising loses nothing but the difference between a null language and
   * a language that is itself called "Desconhecido": every field is copied,
   * and a null language becomes "Desconhecido".
   */
  lemma NormalizeRoundTrip(node: RepoNode)
    requires node.primaryLanguage != Some(UnknownLanguage)
    ensures Denormalize(Normalize(node)) == node
  {
  }

  /** A null language and a language named "Desconhecido" give the same row. */
  lemma NullLanguageIndistinguishable(node: RepoNode)
    requires node.primaryLanguage.None?
    ensures Normalize(node) == Normalize(node.(primaryLanguage := Some(UnknownLanguage)))
    ensures Normalize(node).language == UnknownLanguage
  {
  }

  /** `processData`: one row per repository, in input order. */
  method ProcessData(repositories: seq<RepoNode>) returns (rows: seq<Record>)
    ensures |rows| == |repositories|
    ensures forall i :: 0 <= i < |rows| ==> rows[i] == Normalize(repositories[i])
  {
    rows := [];
    for i := 0 to |repositories|
      invariant |rows| == i
      invariant forall k :: 0 <= k < i ==> rows[k] == Normalize(repositories[k])
    {
      rows := rows + [Normalize(repositories[i])];
    }
  }

  /**
   * `fetchRepositories`: 40 batches (`1000 // 25`) of up to three attempts
   * each, every edge kept. The run is explained by the answers it consumed
   * (see `Paginator.Explains`), sends at most 120 requests, and sends at least
   * 40 when it returns a list.
   */
  method FetchRepositories(server: Server<Page<RepoNode>>)
    returns (repos: Option<seq<RepoNode>>, sent: seq<Paginator.SearchRequest>, sleeps: seq<nat>)
    ensures Paginator.Run(repos, sent, sleeps) == Paginator.Fetch(server, Paginator.KeepAll, TotalRepos, BatchSize)
    ensures Paginator.Explains(server, Paginator.KeepAll, BatchSize, Paginator.Run(repos, sent, sleeps))
    ensures Paginator.InBatches(server, TotalRepos / BatchSize, Paginator.Run(repos, sent, sleeps))
    ensures |sent| <= 120
    ensures repos.Some? ==> 40 <= |sent|
    ensures repos.Some? ==> repos.value == Paginator.Kept(Paginator.KeepAll, Responses(server, |sent|))
  {
    repos, sent, sleeps := Paginator.FetchRepositories(server, Paginator.KeepAll, TotalRepos, BatchSize);
    Paginator.FetchExplained(server, Paginator.KeepAll, TotalRepos, BatchSize);
  }
}
