/**
 * The shapes the remote GraphQL service answers with, as far as the search
 * and file-content code reads them.  Fields that the code dereferences
 * without a check are plain fields; fields it tests for presence are Options.
 */
module Response {
  import opened Wrappers

  /** A zero-based position in a file. */
  datatype Position = Position(line: int, character: int)

  datatype Range = Range(start: Position, end: Position)

  /** One entry of a match group's `symbols` list. */
  datatype Symbol = Symbol(
    name: string,
    containerName: Option<string>,
    kind: string,
    fileLocal: Option<bool>,   // absent unless the query asked for it
    resourcePath: string,      // location.resource.path
    range: Range)              // location.range

  /** One `[offset, length]` pair of a line match. */
  datatype OffsetLength = OffsetLength(offset: int, length: int)

  /** One entry of a match group's `lineMatches` list. */
  datatype LineMatch = LineMatch(preview: string, lineNumber: int, offsetAndLengths: seq<OffsetLength>)

  /**
   * One per-file match group (`FileMatch`): `repository.name`, `file.path`
   * and `file.commit.oid`, with its optional symbol and line-match lists.
   */
  datatype FileMatch = FileMatch(
    repositoryName: string,
    filePath: string,
    commitOid: string,
    symbols: Option<seq<Symbol>>,
    lineMatches: Option<seq<LineMatch>>)

  /** `commit.file`; only its `content` is read, and it may be null. */
  datatype GitBlob = GitBlob(content: Option<string>)

  datatype Commit = Commit(file: GitBlob)

  datatype Repository = Repository(commit: Option<Commit>)

  /**
   * The `data` object of a reply.  `search` stands for the list at
   * `search.results.results`; it is absent when any link of that chain is.
   */
  datatype Data = Data(search: Option<seq<FileMatch>>, repository: Option<Repository>)

  datatype Response = Response(data: Option<Data>)
}
