/**
 * The shapes shared by every GraphQL search loop: the opaque pagination
 * cursor, one page of results with its `pageInfo`, an HTTP response, and the
 * scripted server that stands in for `requests.post`.
 */
module Api {
  import opened Wrappers

  /** The opaque `endCursor` token issued by the service; `None` is JSON null. */
  type Cursor = Option<string>

  datatype PageInfo = PageInfo(hasNextPage: bool, endCursor: Cursor)

  /** One page of a connection: its edges (or nodes) and its `pageInfo`. */
  datatype Page<T> = Page(items: seq<T>, pageInfo: PageInfo)

  /** An HTTP response: the status code and the decoded JSON body. */
  datatype Response<B> = Response(status: int, body: B)

  /**
   * A scripted server: the k-th request sent during a run (counting from 0)
   * is answered with `server(k)`, whatever the request says.
   */
  type Server<B> = nat -> Response<B>

  const StatusOk := 200

  /** The language name used when a repository has no primary language. */
  const UnknownLanguage := "Desconhecido"

  /**
   * Python truthiness of an optional string: `None` and `""` are falsy.
   */
  predicate Truthy(s: Option<string>) {
    s.Some? && s.value != ""
  }

  /**
   * The `after:` argument written into a query: the cursor itself when it is
   * truthy, JSON `null` (here `None`) when it is `None` or empty.
   */
  function AfterArg(cursor: Cursor): (after: Option<string>)
    ensures after.None? <==> !Truthy(cursor)
    ensures after.Some? ==> after == cursor
  {
    if Truthy(cursor) then cursor else None
  }

  /**
   * The cursor kept after a successful page: `endCursor` when the page says
   * there is a next page, otherwise `None`.
   */
  function NextCursor(info: PageInfo): (cursor: Cursor)
    ensures !info.hasNextPage ==> cursor.None?
    ensures info.hasNextPage ==> cursor == info.endCursor
  {
    if info.hasNextPage then info.endCursor else None
  }

  /**
   * The normalised `primaryLanguage` column: the language's name when the
   * repository has one, `"Desconhecido"` when the field is null.
   */
  function LanguageName(language: Option<string>): (name: string)
    ensures language.Some? ==> name == language.value
    ensures language.None? ==> name == UnknownLanguage
  {
    language.GetOr(UnknownLanguage)
  }

  /** The first `n` answers of the scripted server, in the order they are given. */
  function Responses<B>(server: Server<B>, n: nat): (rs: seq<Response<B>>)
    ensures |rs| == n
    ensures forall i :: 0 <= i < n ==> rs[i] == server(i)
  {
    seq(n, (i: int) requires 0 <= i => server(i))
  }

  /** One more request appends the server's next answer. */
  lemma ResponsesSnoc<B>(server: Server<B>, n: nat)
    ensures Responses(server, n + 1) == Responses(server, n) + [server(n)]
  {
    assert Responses(server, n + 1)[..n] == Responses(server, n);
  }

  /** Earlier answers do not depend on how many requests follow. */
  lemma ResponsesPrefix<B>(server: Server<B>, n: nat, k: nat)
    requires k <= n
    ensures Responses(server, n)[..k] == Responses(server, k)
  {
  }
}
