/**
 * The memoised `queryGraphQL`: every call is keyed by
 * `JSON.stringify({ query, vars })`, and a key seen before is answered from
 * the cache without calling the remote command again.
 */
module Memo {
  import opened Wrappers
  import opened Json
  import opened Response

  /** The variables of the two queries: `{ query }` for search, `{ repo, rev, path }` for file content. */
  datatype Vars = SearchVars(query: string) | FileVars(repo: string, rev: string, path: string)

  /** Stands for the `sourcegraph` extension-API handle passed along with each query. */
  datatype Host = Host(id: nat)

  /** What the remote command settles with: a (possibly null) response, or a failure message. */
  type Reply = Outcome<Option<Response>, string>

  /** The remote `queryGraphQL` command, as seen from here. */
  type Transport = (Host, string, Vars) -> Reply

  // ---------------------------------------------------------------------------
  // The key.

  /** `JSON.stringify` of the variables object, fields in the order they are written. */
  function VarsJson(v: Vars): string {
    match v
    case SearchVars(q) => "{\"query\":" + JsonString(q) + "}"
    case FileVars(repo, rev, path) =>
      "{\"repo\":" + JsonString(repo) + ",\"rev\":" + JsonString(rev) + ",\"path\":" + JsonString(path) + "}"
  }

  /** `JSON.stringify({ query, vars })`: the cache key.  The host handle is not part of it. */
  function MemoKey(query: string, vars: Vars): string {
    "{\"query\":" + JsonString(query) + ",\"vars\":" + VarsJson(vars) + "}"
  }

  /** Consumes a fixed piece of text off the front of `s`. */
  function Expect(lit: string, s: string): Option<string> {
    if |lit| <= |s| && s[..|lit|] == lit then Some(s[|lit|..]) else None
  }

  /** Reads a variables object back off the front of a text. */
  function ReadVars(s: string): Option<(Vars, string)> {
    if Expect("{\"query\":", s).Some? then ReadSearchObject(Expect("{\"query\":", s).value)
    else
      var r0 :- Expect("{\"repo\":", s);
      ReadFileObject(r0)
  }

  /** The rest of `{"query":...}` after its first field name. */
  function ReadSearchObject(s: string): Option<(Vars, string)> {
    var q :- ReadString(s);
    var rest :- Expect("}", q.1);
    Some((SearchVars(q.0), rest))
  }

  /** The rest of `{"repo":...,"rev":...,"path":...}` after its first field name. */
  function ReadFileObject(s: string): Option<(Vars, string)> {
    var repo :- ReadString(s);
    var r1 :- Expect(",\"rev\":", repo.1);
    var rev :- ReadString(r1);
    var r2 :- Expect(",\"path\":", rev.1);
    var path :- ReadString(r2);
    var rest :- Expect("}", path.1);
    Some((FileVars(repo.0, rev.0, path.0), rest))
  }

  /** Reads a whole key back into the query text and variables it was made from. */
  function ReadKey(key: string): Option<(string, Vars)> {
    var r0 :- Expect("{\"query\":", key);
    var query :- ReadString(r0);
    var r1 :- Expect(",\"vars\":", query.1);
    var vars :- ReadVars(r1);
    var rest :- Expect("}", vars.1);
    if rest == [] then Some((query.0, vars.0)) else None
  }

  lemma ExpectPrefix(lit: string, s: string)
    ensures Expect(lit, lit + s) == Some(s)
  {
    assert (lit + s)[..|lit|] == lit;
  }

  /** The variables object reads back as the variables, leaving what followed it. */
  lemma ReadVarsJson(v: Vars, after: string)
    ensures ReadVars(VarsJson(v) + after) == Some((v, after))
  {
    match v
    case SearchVars(q) => ReadSearchVars(q, after);
    case FileVars(repo, rev, path) => ReadFileVars(repo, rev, path, after);
  }

  lemma ReadSearchVars(q: string, after: string)
    ensures ReadVars(VarsJson(SearchVars(q)) + after) == Some((SearchVars(q), after))
  {
    assert VarsJson(SearchVars(q)) + after == "{\"query\":" + (JsonString(q) + ("}" + after));
    ExpectPrefix("{\"query\":", JsonString(q) + ("}" + after));
    ReadJsonString(q, "}" + after);
    ExpectPrefix("}", after);
  }

  lemma ReadFileVars(repo: string, rev: string, path: string, after: string)
    ensures ReadVars(VarsJson(FileVars(repo, rev, path)) + after) == Some((FileVars(repo, rev, path), after))
  {
    var tail2 := ",\"path\":" + (JsonString(path) + ("}" + after));
    var tail1 := ",\"rev\":" + (JsonString(rev) + tail2);
    FileVarsText(repo, rev, path, after);
    NotSearchObject(JsonString(repo) + tail1);
    ExpectPrefix("{\"repo\":", JsonString(repo) + tail1);
    ReadFileObjectText(repo, rev, path, after);
  }

  lemma FileVarsText(repo: string, rev: string, path: string, after: string)
    ensures VarsJson(FileVars(repo, rev, path)) + after
         == "{\"repo\":" + (JsonString(repo) + (",\"rev\":" + (JsonString(rev) + (",\"path\":" + (JsonString(path) + ("}" + after))))))
  {
    Regrouped("{\"repo\":", JsonString(repo), ",\"rev\":", JsonString(rev), ",\"path\":", JsonString(path), "}", after);
  }

  /** Regrouping of the eight pieces of a file-variables text; it sees none of their contents. */
  lemma Regrouped(a: string, b: string, c: string, d: string, e: string, f: string, g: string, h: string)
    ensures a + b + c + d + e + f + g + h == a + (b + (c + (d + (e + (f + (g + h))))))
  {
  }

  lemma NotSearchObject(s: string)
    ensures Expect("{\"query\":", "{\"repo\":" + s).None?
  {
    assert ("{\"repo\":" + s)[2] == 'r';
  }

  lemma ReadFileObjectText(repo: string, rev: string, path: string, after: string)
    ensures ReadFileObject(JsonString(repo) + (",\"rev\":" + (JsonString(rev) + (",\"path\":" + (JsonString(path) + ("}" + after))))))
         == Some((FileVars(repo, rev, path), after))
  {
    var tail3 := "}" + after;
    var tail2 := ",\"path\":" + (JsonString(path) + tail3);
    var tail1 := ",\"rev\":" + (JsonString(rev) + tail2);
    ReadJsonString(repo, tail1);
    ExpectPrefix(",\"rev\":", JsonString(rev) + tail2);
    ReadJsonString(rev, tail2);
    ExpectPrefix(",\"path\":", JsonString(path) + tail3);
    ReadJsonString(path, tail3);
    ExpectPrefix("}", after);
  }

  /** Round trip: the key reads back as exactly the query text and variables it was made from. */
  lemma ReadMemoKey(query: string, vars: Vars)
    ensures ReadKey(MemoKey(query, vars)) == Some((query, vars))
  {
    var tail := ",\"vars\":" + (VarsJson(vars) + "}");
    assert MemoKey(query, vars) == "{\"query\":" + (JsonString(query) + tail);
    ExpectPrefix("{\"query\":", JsonString(query) + tail);
    ReadJsonString(query, tail);
    ExpectPrefix(",\"vars\":", VarsJson(vars) + "}");
    ReadVarsJson(vars, "}");
    ExpectPrefix("}", []);
    assert "}" + [] == "}";
  }

  /** Two calls share a cache entry exactly when their query text and variables are equal. */
  lemma MemoKeyInjective(q1: string, v1: Vars, q2: string, v2: Vars)
    ensures MemoKey(q1, v1) == MemoKey(q2, v2) <==> q1 == q2 && v1 == v2
  {
    ReadMemoKey(q1, v1);
    ReadMemoKey(q2, v2);
  }

  // ---------------------------------------------------------------------------
  // The cache.

  /** No key was ever sent to the remote command twice, and exactly the sent keys have entries. */
  ghost predicate SingleFlight(entries: map<string, Reply>, issued: seq<string>) {
    && (forall i, j :: 0 <= i < j < |issued| ==> issued[i] != issued[j])
    && (forall key :: key in entries <==> key in issued)
  }

  /**
   * One memoised call for `key`: a hit leaves the cache as it was; a miss
   * sends the key to the remote command once and stores what it settles with,
   * failures included.
   */
  ghost predicate Served(
    entries: map<string, Reply>, issued: seq<string>,
    entries': map<string, Reply>, issued': seq<string>,
    key: string, answer: Reply)
  {
    if key in entries then entries' == entries && issued' == issued
    else entries' == entries[key := answer] && issued' == issued + [key]
  }

  /** A memoised call keeps the single-flight invariant and leaves an entry for its key. */
  lemma ServedKeepsSingleFlight(
    entries: map<string, Reply>, issued: seq<string>,
    entries': map<string, Reply>, issued': seq<string>,
    key: string, answer: Reply)
    requires SingleFlight(entries, issued)
    requires Served(entries, issued, entries', issued', key, answer)
    ensures SingleFlight(entries', issued')
    ensures key in entries'
    ensures key in entries ==> entries'[key] == entries[key]
  {
  }

  /**
   * A second call with the same key is a hit: nothing is sent, and it gets
   * the first call's reply whatever the remote command would say now.
   */
  lemma SecondCallIsHit(
    e0: map<string, Reply>, i0: seq<string>,
    e1: map<string, Reply>, i1: seq<string>,
    e2: map<string, Reply>, i2: seq<string>,
    key: string, first: Reply, second: Reply)
    requires Served(e0, i0, e1, i1, key, first)
    requires Served(e1, i1, e2, i2, key, second)
    ensures e2 == e1 && i2 == i1
    ensures e2[key] == if key in e0 then e0[key] else first
  {
  }

  /** The process-wide cache of `queryGraphQL`; entries are never evicted. */
  class QueryCache {
    var entries: map<string, Reply>
    ghost var issued: seq<string>   // the keys sent to the remote command, in order

    ghost predicate Valid()
      reads this
    {
      SingleFlight(entries, issued)
    }

    constructor ()
      ensures Valid() && entries == map[] && issued == []
    {
      entries := map[];
      issued := [];
    }

    /** The memoised `queryGraphQL({ query, vars, sourcegraph: host })`. */
    method Query(host: Host, query: string, vars: Vars, remote: Transport) returns (reply: Reply)
      requires Valid()
      modifies this
      ensures Valid()
      ensures Served(old(entries), old(issued), entries, issued, MemoKey(query, vars), remote(host, query, vars))
      ensures reply == entries[MemoKey(query, vars)]
    {
      var key := MemoKey(query, vars);
      if key in entries {
        reply := entries[key];
      } else {
        reply := remote(host, query, vars);
        entries := entries[key := reply];
        issued := issued + [key];
      }
    }
  }

  /**
   * Two calls that differ only in the host handle: the second is answered from
   * the first's entry and the remote command is called at most once.
   */
  method SharedAcrossHosts(cache: QueryCache, h1: Host, h2: Host, query: string, vars: Vars, remote: Transport)
    returns (r1: Reply, r2: Reply)
    requires cache.Valid()
    modifies cache
    ensures cache.Valid()
    ensures r1 == r2
    ensures |cache.issued| <= |old(cache.issued)| + 1
  {
    r1 := cache.Query(h1, query, vars, remote);
    r2 := cache.Query(h2, query, vars, remote);
  }
}
