/**
 * Lab02/src/repositories_adapter.py: the search for popular Java
 * repositories (3 wanted, 1 per call) that drops "educational" repositories,
 * recognised by keywords in their name or description, before accumulating.
 */
module Lab02Adapter {
  import opened Wrappers
  import opened Api
  import Paginator

  /** `totalRepos = 3` */
  const TotalRepos := 3
  /** `batchSize = 1` */
  const BatchSize := 1

  /** The keywords of `is_educational`, in its order. */
  const Keywords: seq<string> := ["tutorial", "example", "guide", "learning", "course", "demo", "how-to"]

  /**
   * The repository node the Lab02 search selects. `name` is optional because
   * `is_educational` reads it with `.get("name", "")`.
   */
  datatype RepoNode = RepoNode(
    name: Option<string>,
    ownerLogin: string,
    createdAt: string,
    updatedAt: string,
    stargazerCount: int,
    description: Option<string>,       // null for none
    primaryLanguage: Option<string>,
    mergedPullRequests: int,
    releases: int,
    openIssues: int,
    closedIssues: int)

  /** ASCII lower-casing of one character. */
  function LowerChar(c: char): char {
    if 'A' <= c <= 'Z' then (c as int + 32) as char else c
  }

  /** `str.lower()` on the ASCII letters. */
  function Lower(s: string): (r: string)
    ensures |r| == |s|
    ensures forall i :: 0 <= i < |s| ==> r[i] == LowerChar(s[i])
  {
    seq(|s|, (i: int) requires 0 <= i < |s| => LowerChar(s[i]))
  }

  /** `word` occurs in `text` starting at position `i`. */
  ghost predicate OccursAt(text: string, word: string, i: int) {
    0 <= i && i + |word| <= |text| && text[i..i + |word|] == word
  }

  /** Python's `word in text` on strings: `word` is a prefix of `text` or of one of its suffixes. */
  function Contains(text: string, word: string): (found: bool)
    ensures found <==> exists i :: OccursAt(text, word, i)
    decreases |text|
  {
    ContainsFindsOccurrence(text, word);
    if |word| > |text| then false
    else text[..|word|] == word || Contains(text[1..], word)
  }

  /** The search above finds an occurrence exactly when there is one. */
  lemma ContainsFindsOccurrence(text: string, word: string)
    ensures (|word| <= |text| && (text[..|word|] == word || (text != [] && exists i :: OccursAt(text[1..], word, i))))
            <==> exists i :: OccursAt(text, word, i)
  {
    if exists i :: OccursAt(text, word, i) {
      var i :| OccursAt(text, word, i);
      if i > 0 {
        assert text != [];
        assert text[1..][i - 1..i - 1 + |word|] == text[i..i + |word|];
        assert OccursAt(text[1..], word, i - 1);
      }
    }
    if |word| <= |text| && text != [] && exists i :: OccursAt(text[1..], word, i) {
      var i :| OccursAt(text[1..], word, i);
      assert text[1..][i..i + |word|] == text[i + 1..i + 1 + |word|];
      assert OccursAt(text, word, i + 1);
    }
    if |word| <= |text| && text[..|word|] == word {
      assert OccursAt(text, word, 0);
    }
  }

  /** `keyword in name or keyword in description` */
  predicate KeywordMatches(keyword: string, name: string, description: string) {
    Contains(name, keyword) || Contains(description, keyword)
  }

  /** `any(...)` over `keywords`: some keyword occurs in `name` or in `description`. */
  function AnyKeyword(keywords: seq<string>, name: string, description: string): (found: bool)
    ensures found <==> exists k :: k in keywords && KeywordMatches(k, name, description)
  {
    if keywords == [] then false
    else
      var first := KeywordMatches(keywords[0], name, description);
      var rest := AnyKeyword(keywords[1..], name, description);
      assert first ==> keywords[0] in keywords;
      assert forall k :: k in keywords[1..] ==> k in keywords;
      assert forall k :: k in keywords ==> k == keywords[0] || k in keywords[1..];
      first || rest
  }

  /**
   * `is_educational`: a missing name and a null or missing description are
   * read as the empty string; the node is educational when one of the seven
   * keywords is a substring of its lower-cased name or description.
   */
  function IsEducational(node: RepoNode): (educational: bool)
    ensures educational <==>
      exists k :: k in Keywords && KeywordMatches(k, Lower(node.name.GetOr("")), Lower(node.description.GetOr("")))
  {
    AnyKeyword(Keywords, Lower(node.name.GetOr("")), Lower(node.description.GetOr("")))
  }

  /** The filter of the comprehension at lines 88-91. */
  function NotEducational(node: RepoNode): bool {
    !IsEducational(node)
  }

  /** Matching is by substring and ignores letter case: "Demonstration" matches "demo". */
  lemma DemonstrationIsEducational(node: RepoNode)
    requires node.name == Some("Demonstration")
    ensures IsEducational(node)
  {
    var lowered := Lower("Demonstration");
    assert lowered[0..4] == "demo";
    assert OccursAt(lowered, "demo", 0);
    assert "demo" in Keywords;
  }

  /** A repository with neither name nor description is never educational. */
  lemma NamelessIsNotEducational(node: RepoNode)
    requires node.name.None? && node.description.None?
    ensures !IsEducational(node)
  {
    forall k | k in Keywords ensures !KeywordMatches(k, Lower(""), Lower("")) {
      assert |k| > 0;
    }
  }

  /**
   * `fetchRepositories`: 3 batches (`3 // 1`) of up to three attempts. The
   * result, when there is one, holds no educational repository and is an
   * order-preserving subsequence of all edges of the successful pages;
   * exactly: it is those edges with the educational ones filtered out.
   */
  method FetchRepositories(server: Server<Page<RepoNode>>)
    returns (repos: Option<seq<RepoNode>>, sent: seq<Paginator.SearchRequest>, sleeps: seq<nat>)
    ensures Paginator.Run(repos, sent, sleeps) == Paginator.Fetch(server, NotEducational, TotalRepos, BatchSize)
    ensures Paginator.Explains(server, NotEducational, BatchSize, Paginator.Run(repos, sent, sleeps))
    ensures Paginator.InBatches(server, TotalRepos / BatchSize, Paginator.Run(repos, sent, sleeps))
    ensures |sent| <= 9
    ensures repos.Some? ==> 3 <= |sent|
    ensures repos.Some? ==> forall i :: 0 <= i < |repos.value| ==> !IsEducational(repos.value[i])
    ensures repos.Some? ==>
      Paginator.IsSubsequence(repos.value, Paginator.Kept(Paginator.KeepAll, Responses(server, |sent|)))
    ensures repos.Some? ==>
      repos.value == Paginator.Filter(NotEducational, Paginator.Kept(Paginator.KeepAll, Responses(server, |sent|)))
  {
    repos, sent, sleeps := Paginator.FetchRepositories(server, NotEducational, TotalRepos, BatchSize);
    Paginator.FetchExplained(server, NotEducational, TotalRepos, BatchSize);
    Paginator.KeptIsSubsequence(NotEducational, Responses(server, |sent|));
    Paginator.KeptIsFilter(NotEducational, Responses(server, |sent|));
  }
}
