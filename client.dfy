/**
 * The `API` class: `search` runs a memoised search query and flattens its
 * reply; `getFileContent` parses a location token, runs a memoised
 * file-content query and walks the reply with null checks.
 */
module Client {
  import opened Wrappers
  import opened Response
  import opened Uri
  import opened Flattening
  import opened Memo

  /** How a call of `search` or `getFileContent` can fail. */
  datatype ApiError =
    | MalformedUri(cause: UriError)    // `parseUri` threw
    | TransportFailure(message: string) // the remote command failed (the cached failure is replayed)
    | ResponseShape                    // the unguarded `data.search.results.results` walk threw

  /**
   * The search query document.  Its text is a stand-in for the GraphQL
   * template; the one thing modelled is that it asks for `fileLocal` exactly
   * when the setting is on.
   */
  function SearchDocument(fileLocal: bool): string {
    SearchHead + (if fileLocal then "fileLocal " else "") + SearchTail
  }

  const SearchHead: string :=
    "query Search($query: String!) { search(query: $query) { results { results { ... on FileMatch { "
    + "file { path commit { oid } } repository { name } symbols { name containerName "

  const SearchTail: string :=
    "kind location { resource { path } range { start { line character } end { line character } } } } lineMatches { preview lineNumber offsetAndLengths } } } } } }"

  /** The file-content query document (a stand-in for the GraphQL template). */
  const ContentDocument: string :=
    "query GetContextLines($repo: String!, $rev: String!, $path: String!) { "
    + "repository(name: $repo) { commit(rev: $rev) { file(path: $path) { content } } } }"

  /** The two settings give two different documents, and so two different cache keys. */
  lemma SearchDocumentsDiffer(query: string)
    ensures SearchDocument(true) != SearchDocument(false)
    ensures MemoKey(SearchDocument(true), SearchVars(query)) != MemoKey(SearchDocument(false), SearchVars(query))
  {
    assert |SearchDocument(true)| == |SearchDocument(false)| + |"fileLocal "|;
    MemoKeyInjective(SearchDocument(true), SearchVars(query), SearchDocument(false), SearchVars(query));
  }

  /** What `search` makes of the reply to its query. */
  function SearchOutcome(reply: Reply): Outcome<seq<Result>, ApiError> {
    match reply
    case Failure(message) => Failure(TransportFailure(message))
    case Success(None) => Failure(ResponseShape)
    case Success(Some(response)) =>
      if response.data.None? || response.data.value.search.None? then Failure(ResponseShape)
      else Success(Flatten(response.data.value.search.value))
  }

  /**
   * The null checks of `getFileContent`: no content when the response, its
   * `data`, `data.repository` or `repository.commit` is absent; otherwise
   * `commit.file.content` as it is, with no check on `file`.  A null
   * `content` is therefore reported just like a missing commit.
   */
  function FileContent(response: Option<Response>): (content: Option<string>)
    ensures content.None? <==>
      || response.None?
      || response.value.data.None?
      || response.value.data.value.repository.None?
      || response.value.data.value.repository.value.commit.None?
      || response.value.data.value.repository.value.commit.value.file.content.None?
    ensures content.Some? ==> content == response.value.data.value.repository.value.commit.value.file.content
  {
    match response
    case None => None
    case Some(Response(data)) =>
      match data
      case None => None
      case Some(Data(_, repository)) =>
        match repository
        case None => None
        case Some(Repository(commit)) =>
          match commit
          case None => None
          case Some(Commit(GitBlob(text))) => text
  }

  /** What `getFileContent` makes of the reply to its query. */
  function FileContentOutcome(reply: Reply): Outcome<Option<string>, ApiError> {
    match reply
    case Failure(message) => Failure(TransportFailure(message))
    case Success(response) => Success(FileContent(response))
  }

  /** A found file with empty content is reported as empty content, not as absent. */
  lemma EmptyFileIsNotAbsent(search: Option<seq<FileMatch>>)
    ensures FileContent(Some(Response(Some(Data(search, Some(Repository(Some(Commit(GitBlob(Some(""))))))))))) == Some("")
  {
  }

  /**
   * A present file whose `content` is null cannot be told apart from a
   * missing commit: both come back as no content.
   */
  lemma NullContentLooksAbsent(search: Option<seq<FileMatch>>)
    ensures FileContent(Some(Response(Some(Data(search, Some(Repository(Some(Commit(GitBlob(None))))))))))
         == FileContent(Some(Response(Some(Data(search, Some(Repository(None)))))))
         == None
  {
  }

  class Api {
    const host: Host

    constructor (host: Host)
      ensures this.host == host
    {
      this.host := host;
    }

    /**
     * `search`: one memoised query keyed by the document and `{ query }`,
     * then the flattening of the reply's match groups.
     */
    method Search(query: string, fileLocal: bool, cache: QueryCache, remote: Transport)
      returns (r: Outcome<seq<Result>, ApiError>)
      requires cache.Valid()
      modifies cache
      ensures cache.Valid()
      ensures Served(old(cache.entries), old(cache.issued), cache.entries, cache.issued,
                     MemoKey(SearchDocument(fileLocal), SearchVars(query)),
                     remote(host, SearchDocument(fileLocal), SearchVars(query)))
      ensures r == SearchOutcome(cache.entries[MemoKey(SearchDocument(fileLocal), SearchVars(query))])
    {
      var reply := cache.Query(host, SearchDocument(fileLocal), SearchVars(query), remote);
      match reply
      case Failure(message) =>
        r := Failure(TransportFailure(message));
      case Success(None) =>
        r := Failure(ResponseShape);
      case Success(Some(response)) =>
        if response.data.None? || response.data.value.search.None? {
          r := Failure(ResponseShape);
        } else {
          var results := FlattenResults(response.data.value.search.value);
          r := Success(results);
        }
    }

    /**
     * `getFileContent`: a malformed token fails before any query is made;
     * otherwise one memoised query with exactly the parsed repo, rev and path.
     */
    method GetFileContent(uri: string, cache: QueryCache, remote: Transport)
      returns (r: Outcome<Option<string>, ApiError>)
      requires cache.Valid()
      modifies cache
      ensures cache.Valid()
      ensures ParseUri(uri).Failure? ==>
        && r == Failure(MalformedUri(UnexpectedFormat(uri)))
        && cache.entries == old(cache.entries) && cache.issued == old(cache.issued)
      ensures ParseUri(uri).Success? ==>
        var loc := ParseUri(uri).value;
        var vars := FileVars(loc.repo, loc.rev, loc.path);
        && Served(old(cache.entries), old(cache.issued), cache.entries, cache.issued,
                  MemoKey(ContentDocument, vars), remote(host, ContentDocument, vars))
        && r == FileContentOutcome(cache.entries[MemoKey(ContentDocument, vars)])
    {
      match ParseUri(uri)
      case Failure(e) =>
        r := Failure(MalformedUri(e));
      case Success(loc) =>
        var reply := cache.Query(host, ContentDocument, FileVars(loc.repo, loc.rev, loc.path), remote);
        match reply
        case Failure(message) =>
          r := Failure(TransportFailure(message));
        case Success(response) =>
          r := Success(FileContent(response));
    }
  }
}
