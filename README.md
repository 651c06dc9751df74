# Basic code intelligence: search client core, modelled in Dafny

This project models `package/src/api.ts` of the Sourcegraph basic-code-intel
extension. That file is the part of the extension that talks to the
Sourcegraph GraphQL API:

- `parseUri` splits a location token `git://repo?rev#path` into repository,
  revision and path.
- `API.search` sends a memoised search query. It flattens the reply's
  per-file match groups into one list of `Result`s: one symbol result per
  symbol, and one text result per `[offset, length]` pair of each line match.
- `API.getFileContent` parses a location token and sends a memoised
  file-content query. It returns `null` when the reply lacks `data`,
  `repository` or `commit`, and `commit.file.content` as it is otherwise.
- `queryGraphQL` is the remote command wrapped by `memoizeAsync`. Its cache
  key is `JSON.stringify({ query, vars })`, so the `sourcegraph` handle is
  not part of the key.

Modules, one per component:

| file | module | what it holds |
|---|---|---|
| wrappers.dfy | `Wrappers` | `Option` (null/undefined) and `Outcome` (a result or an error) |
| response.dfy | `Response` | the reply shapes the code reads: match groups, symbols, line matches, the file-content chain |
| uri.dfy | `Uri` | `ParseUri`, the token format `Serialize`, and their round trip and rejection lemmas |
| flatten.dfy | `Flattening` | the tagged `Result` union and the specification `Flatten`. Also the loops of `search`, one method per level of nesting, each proved against it, and the count, order and field-mapping lemmas |
| json.dfy | `Json` | JSON string literals as `JSON.stringify` writes them, and a reader that reads them back |
| memo.dfy | `Memo` | the memoisation key, its reader and injectivity, and the `QueryCache` class with its single-flight invariant |
| client.dfy | `Client` | the `Api` class (`Search`, `GetFileContent`), the null-guard `FileContent`, and the query documents |

The source's `Result` interface marks its kind only by which optional fields
are present. Here it is a tagged union (`SymbolResult` | `TextResult`).
Each variant carries only its own fields, so a result can never be both
kinds or neither.

The cache is a class with a `map` of entries. A ghost log `issued` records
which keys were sent to the remote command. Its invariant says that no key
was ever sent twice and that exactly the sent keys have entries. Failed
replies are stored and replayed like successful ones (a choice of this
model, see "Left out"); nothing is evicted.
The remote command is a function parameter `Transport` of the host handle,
the query document and the variables.

Three behaviours of the code worth stating outright:

- The round trip needs only a repository without `?` and a revision without
  `#`. The path may hold either character, and a `#` before the first `?`
  is part of the repository.
- No deduplication is done anywhere, so duplicate matches give duplicate
  results.
- `getFileContent` does not check `commit.file`. A present commit yields
  `commit.file.content` unchanged, so a null `content` comes back as `null`,
  just like a missing commit.

## Model

| member | source | states |
|---|---|---|
| Uri.StartsWith | package/src/api.ts:194 | `startsWith`: true exactly when the string is the prefix followed by some rest |
| Uri.Serialize | package/src/api.ts:191-213 | the token format `git://` + repo + `?` + rev + `#` + path that `parseUri` takes apart; it always starts with the scheme (its round trip with `ParseUri` is `ParseSerialize`) |
| Uri.IndexOf | package/src/api.ts:198-203 | `indexOf` of one character gives -1 exactly when the character is absent; otherwise an index that holds it with no earlier occurrence |
| Uri.ParseUri | package/src/api.ts:191-213 | on failure the error is "unexpected uri format: " followed by the input; on success `git://` + repo + `?` + rev + `#` + path equals the input, `?` is not in repo and `#` is not in rev |
| Uri.ParseSerialize | package/src/api.ts:197-212 | round trip: for any repo without `?` and rev without `#` (any path), parsing the assembled token gives back exactly those three parts |
| Uri.ParseSucceedsIffWellFormed | package/src/api.ts:191-213 | parsing succeeds exactly on tokens that are the assembly of a `?`-free repo, a `#`-free rev and any path |
| Uri.RejectsMissingScheme | package/src/api.ts:194-196 | a token not starting with `git://` is rejected with the error quoting it |
| Uri.RejectsMissingQuery | package/src/api.ts:197-201 | `git://` followed by text without `?` is rejected |
| Uri.RejectsMissingHash | package/src/api.ts:202-206 | when no `#` follows the first `?`, the token is rejected, even if a `#` occurs before the `?` |
| Uri.NotAUriExample | package/src/api.ts:194-196 | `not-a-uri` is rejected |
| Uri.NoSeparatorExample | package/src/api.ts:197-201 | `git://repo-no-separator` is rejected |
| Uri.NoHashExample | package/src/api.ts:202-206 | `git://repo?rev-no-hash` is rejected |
| Flattening.Flatten | package/src/api.ts:111-156 | reference definition of the list `search` returns: each group's symbol results, then its text results, groups in response order; its count, order and field mapping are the lemmas below |
| Flattening.FlattenResults | package/src/api.ts:111-156 | the results the loops of `search` push are exactly `Flatten` of the match groups |
| Flattening.AppendSymbols | package/src/api.ts:113-133 | the symbol loop appends exactly the group's symbol results to what was there |
| Flattening.AppendLineMatches | package/src/api.ts:134-154 | the line-match loop appends exactly the group's text results to what was there |
| Flattening.AppendOccurrences | package/src/api.ts:136-152 | the innermost loop appends one text result per `[offset, length]` pair, in order |
| Flattening.SymbolResultsAt | package/src/api.ts:114-132 | a symbol list yields as many results as symbols, the k-th made from the k-th symbol |
| Flattening.OccurrenceResultsAt | package/src/api.ts:136-152 | a line match yields as many results as pairs, the k-th made from the k-th pair |
| Flattening.LineMatchResultsAppend | package/src/api.ts:135-153 | line matches are expanded independently: the results of a concatenation are the concatenation of the results |
| Flattening.LineMatchResultsCount | package/src/api.ts:135-153 | a line-match list yields exactly as many results as it holds pairs |
| Flattening.LineMatchResultsAreText | package/src/api.ts:137-151 | every result from line matches is a text result with the group's repository, commit and file path, starting and ending on one line |
| Flattening.LineMatchResultsSplit | package/src/api.ts:135-153 | the results of line match m sit between those of the line matches before and after it |
| Flattening.LineMatchResultsAt | package/src/api.ts:136-151 | pair p of line match m gives the result at index (pairs before m) + p, built from that pair |
| Flattening.FlattenAppend | package/src/api.ts:112-155 | groups are flattened independently: the results of a concatenation are the concatenation of the results, so nothing is deduplicated |
| Flattening.FlattenCount | package/src/api.ts:112-155 | the number of results is the total number of symbols plus the total number of pairs; an absent `symbols` or `lineMatches` contributes nothing |
| Flattening.FlattenSplit | package/src/api.ts:112-155 | groups keep response order: group i's results sit between those of the groups before and after it |
| Flattening.GroupSymbolAt | package/src/api.ts:113-133 | the k-th result of a group is a symbol result: repo and rev from the group, file from the symbol's `location.resource.path`, start and end copied from its range, name, kind, container name and fileLocal from the symbol |
| Flattening.GroupTextAt | package/src/api.ts:134-154 | after the symbols, pair p of line match m is a text result in the group's file: start (lineNumber, offset), end (lineNumber, offset + length), the line's preview, repo and rev from the group |
| Flattening.GroupKinds | package/src/api.ts:113-154 | within a group the result at k is a symbol result exactly when k is below the number of symbols: every symbol result comes before every text result |
| Flattening.GroupProvenance | package/src/api.ts:115-151 | every result of a group carries that group's `repository.name` and `file.commit.oid` |
| Flattening.FlattenProvenance | package/src/api.ts:112-155 | every result of a response takes its repo and rev from one of the response's groups |
| Flattening.SymbolMatchExample | package/src/api.ts:114-131 | one symbol `Foo` in `a.go` (1:2-1:5) inside a group for `b.go` gives one symbol result for `a.go` with that range |
| Flattening.LineMatchExample | package/src/api.ts:135-151 | one line match (line 4, pair [0,2], preview `ab`) gives one text result 4:0-4:2 in the group's file |
| Flattening.TwoOccurrencesExample | package/src/api.ts:136-152 | pairs [0,2] and [5,3] on one line give two text results, 4:0-4:2 then 4:5-4:8 |
| Json.EscapeChar | package/src/api.ts:232 | one character as `JSON.stringify` writes it: unchanged exactly when it is not a control character, `"` or `\`; otherwise an escape starting with `\`; never a raw control character |
| Json.EscapedBody | package/src/api.ts:232 | the escaped characters of a string: no shorter than the string, with no raw control character |
| Json.JsonString | package/src/api.ts:232 | a string value as `JSON.stringify` writes it: quoted, at least two longer than the string, with no raw control character (its read-back is `ReadJsonString`) |
| Json.UnescapeEscapeChar | package/src/api.ts:232 | every character, escaped as `JSON.stringify` escapes it, reads back as itself |
| Json.UnquoteEscapedBody | package/src/api.ts:232 | an escaped string body followed by `"` reads back as the string, leaving the text after the quote |
| Json.ReadJsonString | package/src/api.ts:232 | a JSON string literal reads back as its string, leaving what follows |
| Memo.MemoKey | package/src/api.ts:232 | the key `JSON.stringify({ query, vars })`, with the host handle not an argument; its injectivity is `MemoKeyInjective` |
| Memo.ReadSearchVars | package/src/api.ts:104 | the search variables `{"query":...}` read back as themselves |
| Memo.ReadFileVars | package/src/api.ts:176 | the file-content variables `{"repo":...,"rev":...,"path":...}` read back as themselves |
| Memo.ReadVarsJson | package/src/api.ts:232 | both variable shapes read back as themselves, leaving what follows |
| Memo.ReadMemoKey | package/src/api.ts:232 | the key `JSON.stringify({query, vars})` reads back as exactly the query and variables it was made from |
| Memo.MemoKeyInjective | package/src/api.ts:232 | two calls share a key exactly when their query text and variables are equal; the host handle plays no part |
| Memo.ServedKeepsSingleFlight | package/src/api.ts:216-233 | one memoised call keeps "no key sent twice, entries are the sent keys" and leaves an entry for its key, unchanged on a hit |
| Memo.SecondCallIsHit | package/src/api.ts:216-233 | a second call with the same key sends nothing and gets the first call's reply, whatever the remote would answer now |
| Memo.QueryCache.constructor | package/src/api.ts:216 | the cache starts empty, with nothing sent |
| Memo.QueryCache.Query | package/src/api.ts:216-233 | a hit returns the stored reply and changes nothing; a miss calls the remote once, stores its reply (failures too) under the key and logs the key |
| Memo.SharedAcrossHosts | package/src/api.ts:216-233 | two calls differing only in the host handle get the same reply, and the remote is called at most once |
| Client.SearchDocumentsDiffer | package/src/api.ts:52-103 | the `fileLocal` setting changes the search document and hence the cache key |
| Client.FileContent | package/src/api.ts:179-187 | no content exactly when the response, `data`, `data.repository`, `repository.commit` or `commit.file.content` is absent; otherwise `commit.file.content` as it is |
| Client.EmptyFileIsNotAbsent | package/src/api.ts:179-187 | a found file with empty content gives the empty string, not `null` |
| Client.NullContentLooksAbsent | package/src/api.ts:179-187 | a present file whose `content` is null gives the same answer as a missing commit: no content |
| Client.SearchOutcome | package/src/api.ts:106-156 | reference definition that `Api.Search` is proved against: a transport failure is passed on, a reply missing `data.search.results.results` fails, otherwise `Flatten` of the groups |
| Client.FileContentOutcome | package/src/api.ts:173-187 | reference definition that `Api.GetFileContent` is proved against: a transport failure is passed on, otherwise the null guard `FileContent` of the reply |
| Client.Api.constructor | package/src/api.ts:28 | the API object keeps the host handle it was given |
| Client.Api.Search | package/src/api.ts:41-157 | one memoised query keyed by the search document and `{ query }`; a transport failure is passed on; a reply missing `data.search.results.results` fails; otherwise the result is `Flatten` of its groups |
| Client.Api.GetFileContent | package/src/api.ts:162-188 | a malformed token fails with the parse error before any query, leaving the cache untouched; otherwise one memoised query with exactly the parsed repo, rev and path, whose reply goes through the null guard |

## Left out

- `src/extension.ts` as a whole: host registration, LSP request routing and the Web Worker transport are glue around external APIs.
- Configuration reads (`fileLocal`, `basicCodeIntel.debug.traceSearch`): `fileLocal` is a plain boolean parameter of `Search`. The trace flag only drives the `console.log` call, which is I/O and does not affect results, so both are left out.
- The GraphQL query templates: `SearchDocument` and `ContentDocument` are stand-in strings. They keep only the fact that the search document changes with `fileLocal`.
- The remote command `sourcegraph.commands.executeCommand('queryGraphQL', …)`: it is the function parameter `Transport`, taken as deterministic. Connections, retries and asynchrony are not modelled.
- `memoizeAsync`: its source, `memoizeAsync.ts`, is not part of this model. The cache is a sequential map. That a failed reply is stored and replayed like a successful one is assumed here, not shown by any line of `api.ts`. Sharing of a still-pending promise between concurrent callers is not modelled: every call here settles before the next one starts.
- `async`/`await`: a rejected promise is an `Outcome` failure (`MalformedUri`, `TransportFailure`, `ResponseShape`).
- `loc.uri.toString()`: the model takes the token string directly.
- Client.Api.Search: the loops read their input without null checks, and the model's types cannot be null at any of these points, so none of these TypeErrors is represented. A null `repository` or `file` (or `file.commit`) throws only when the group adds at least one result, that is, when it has at least one symbol or at least one `[offset, length]` pair. A null `offsetAndLengths` throws when the group has at least one line match. A null group in `results.results`, a null symbol, a null `sym.location`, `resource`, `range`, `start` or `end`, and a null line match throw whenever the loop reaches them.
- Client.FileContent: a present commit whose `file` is null makes the source throw. The model's `file` cannot be null, so that failure is not represented. A null `content` is modelled, but a null and an undefined `content` are not told apart: both are no content.
- Numbers: JavaScript numbers are doubles. Positions are unbounded integers, so `offset + length` is exact; doubles are exact below 2^53. An `offsetAndLengths` entry with fewer than two numbers, which would give `NaN`, is not modelled.
- JSON escaping of lone UTF-16 surrogates: Dafny characters are Unicode scalar values, so such strings cannot occur in the model.
- Uri.IndexOf: strings are sequences of Unicode scalar values, while JavaScript indexes strings by UTF-16 code units. An index therefore differs from `indexOf` whenever a character above U+FFFF precedes the match: for `"😀?"` JavaScript gives 2 and the model gives 1. `ParseUri` still returns the same three parts, because it slices in the same units it searches in. A token holding a lone surrogate cannot be represented.
- The variables object is limited to the two shapes the code builds: `{ query }` and `{ repo, rev, path }`.
- Reply fields the code never reads (`url`, `limitHit`, `__typename`) are left out.
