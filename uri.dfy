/**
 * The location-token codec: `parseUri` splits `git://repo?rev#path` at the
 * first `?` and then at the first `#` after it.
 */
module Uri {
  import opened Wrappers

  /** The scheme prefix every location token starts with. */
  const Scheme: string := "git://"

  /** The three parts of a location token, returned verbatim. */
  datatype Location = Location(repo: string, rev: string, path: string)

  /** The error `parseUri` throws; its message quotes the whole input. */
  datatype UriError = UriError(message: string)

  function UnexpectedFormat(uri: string): UriError {
    UriError("unexpected uri format: " + uri)
  }

  /** `startsWith`: `s` is `prefix` followed by something. */
  function StartsWith(s: string, prefix: string): (b: bool)
    ensures b <==> exists rest :: s == prefix + rest
  {
    if |prefix| <= |s| && s[..|prefix|] == prefix then
      assert s == prefix + s[|prefix|..];
      true
    else
      false
  }

  /** `indexOf` for one character: the first index of `c` in `s`, or -1. */
  function IndexOf(s: string, c: char): (r: int)
    ensures -1 <= r < |s|
    ensures r == -1 <==> c !in s
    ensures 0 <= r ==> s[r] == c && c !in s[..r]
  {
    if |s| == 0 then -1
    else if s[0] == c then 0
    else
      var k := IndexOf(s[1..], c);
      if k < 0 then -1
      else
        assert s[..k + 1] == [s[0]] + s[1..][..k];
        k + 1
  }

  /** Any index that holds `c` with no `c` before it is what `IndexOf` finds. */
  lemma {:induction false} IndexOfFirst(s: string, c: char, k: int)
    requires 0 <= k < |s| && s[k] == c && c !in s[..k]
    ensures IndexOf(s, c) == k
  {
    if k > 0 {
      assert s[..k][0] == s[0];
      assert s[1..][..k - 1] == s[..k][1..];
      IndexOfFirst(s[1..], c, k - 1);
    }
  }

  /** Cutting a string around one of its characters loses nothing. */
  lemma SplitAround(s: string, k: int)
    requires 0 <= k < |s|
    ensures s == s[..k] + [s[k]] + s[k + 1..]
  {
    assert s == s[..k] + s[k..];
  }

  /** The token the host builds from a location; it always carries the scheme. */
  function Serialize(loc: Location): (token: string)
    ensures StartsWith(token, Scheme)
  {
    var token := Scheme + loc.repo + "?" + loc.rev + "#" + loc.path;
    assert token == Scheme + (loc.repo + "?" + loc.rev + "#" + loc.path);
    token
  }

  /** The cuts `parseUri` makes at a `?` and at a later `#` put the token back together. */
  lemma Reassembled(uri: string, i: int, j: int)
    requires |Scheme| + i + 1 + j < |uri| && 0 <= i && 0 <= j
    requires uri[..|Scheme|] == Scheme
    requires uri[|Scheme|..][i] == '?' && uri[|Scheme|..][i + 1..][j] == '#'
    ensures Serialize(Location(uri[|Scheme|..][..i], uri[|Scheme|..][i + 1..][..j], uri[|Scheme|..][i + 1..][j + 1..])) == uri
  {
    var repoRevPath := uri[|Scheme|..];
    var revPath := repoRevPath[i + 1..];
    var loc := Location(repoRevPath[..i], revPath[..j], revPath[j + 1..]);
    SplitAround(revPath, j);
    SplitAround(repoRevPath, i);
    assert revPath == loc.rev + "#" + loc.path;
    assert repoRevPath == loc.repo + "?" + revPath;
    assert uri == Scheme + repoRevPath;
    assert Serialize(loc) == Scheme + (loc.repo + "?" + (loc.rev + "#" + loc.path));
  }

  /**
   * `parseUri`: on success the three parts reassemble to the input, the
   * repository holds no `?` and the revision no `#`; on failure the error
   * quotes the input.
   */
  function ParseUri(uri: string): (r: Outcome<Location, UriError>)
    ensures r.Failure? ==> r.error == UnexpectedFormat(uri)
    ensures r.Success? ==>
      && Serialize(r.value) == uri
      && '?' !in r.value.repo
      && '#' !in r.value.rev
  {
    if !StartsWith(uri, Scheme) then Failure(UnexpectedFormat(uri))
    else
      var repoRevPath := uri[|Scheme|..];
      var i := IndexOf(repoRevPath, '?');
      if i < 0 then Failure(UnexpectedFormat(uri))
      else
        var revPath := repoRevPath[i + 1..];
        var j := IndexOf(revPath, '#');
        if j < 0 then Failure(UnexpectedFormat(uri))
        else
          var loc := Location(repoRevPath[..i], revPath[..j], revPath[j + 1..]);
          assert uri == uri[..|Scheme|] + repoRevPath;
          Reassembled(uri, i, j);
          Success(loc)
  }

  /** Where `parseUri` cuts a token built from delimiter-free parts: the `?` after the repository. */
  lemma SerializeCuts(loc: Location)
    requires '?' !in loc.repo && '#' !in loc.rev
    ensures var revPath := loc.rev + "#" + loc.path;
      var repoRevPath := loc.repo + "?" + revPath;
      && Serialize(loc)[|Scheme|..] == repoRevPath
      && IndexOf(repoRevPath, '?') == |loc.repo|
      && repoRevPath[..|loc.repo|] == loc.repo
      && repoRevPath[|loc.repo| + 1..] == revPath
  {
    var revPath := loc.rev + "#" + loc.path;
    var repoRevPath := loc.repo + "?" + revPath;
    assert Serialize(loc) == Scheme + repoRevPath;
    assert repoRevPath[..|loc.repo|] == loc.repo;
    IndexOfFirst(repoRevPath, '?', |loc.repo|);
  }

  /** The `#` after a `#`-free revision is where `parseUri` makes its second cut. */
  lemma RevPathCut(rev: string, path: string)
    requires '#' !in rev
    ensures var revPath := rev + "#" + path;
      && IndexOf(revPath, '#') == |rev|
      && revPath[..|rev|] == rev
      && revPath[|rev| + 1..] == path
  {
    var revPath := rev + "#" + path;
    assert revPath[..|rev|] == rev;
    IndexOfFirst(revPath, '#', |rev|);
  }

  /** Round trip: a token built from delimiter-free parts parses back to those parts. */
  lemma ParseSerialize(loc: Location)
    requires '?' !in loc.repo && '#' !in loc.rev
    ensures ParseUri(Serialize(loc)) == Success(loc)
  {
    SerializeCuts(loc);
    RevPathCut(loc.rev, loc.path);
  }

  /** A token is well formed when it is the serialization of delimiter-free parts. */
  ghost predicate WellFormed(uri: string) {
    exists loc: Location :: '?' !in loc.repo && '#' !in loc.rev && Serialize(loc) == uri
  }

  /** `parseUri` succeeds on exactly the well-formed tokens. */
  lemma ParseSucceedsIffWellFormed(uri: string)
    ensures ParseUri(uri).Success? <==> WellFormed(uri)
  {
    if ParseUri(uri).Success? {
      var loc := ParseUri(uri).value;
      assert '?' !in loc.repo && '#' !in loc.rev && Serialize(loc) == uri;
    }
    if WellFormed(uri) {
      var loc: Location :| '?' !in loc.repo && '#' !in loc.rev && Serialize(loc) == uri;
      ParseSerialize(loc);
    }
  }

  /** A token without the `git://` prefix is rejected. */
  lemma RejectsMissingScheme(uri: string)
    requires !StartsWith(uri, Scheme)
    ensures ParseUri(uri) == Failure(UnexpectedFormat(uri))
  {
  }

  /** After the prefix, a remainder without `?` is rejected. */
  lemma RejectsMissingQuery(rest: string)
    requires '?' !in rest
    ensures ParseUri(Scheme + rest) == Failure(UnexpectedFormat(Scheme + rest))
  {
    assert (Scheme + rest)[|Scheme|..] == rest;
  }

  /**
   * After the first `?`, a remainder without `#` is rejected, even when a
   * `#` occurs before the `?`.
   */
  lemma RejectsMissingHash(head: string, revPath: string)
    requires '?' !in head && '#' !in revPath
    ensures ParseUri(Scheme + head + "?" + revPath) == Failure(UnexpectedFormat(Scheme + head + "?" + revPath))
  {
    var uri := Scheme + head + "?" + revPath;
    var repoRevPath := head + "?" + revPath;
    assert uri[|Scheme|..] == repoRevPath;
    assert repoRevPath[..|head|] == head;
    IndexOfFirst(repoRevPath, '?', |head|);
    assert repoRevPath[|head| + 1..] == revPath;
  }

  /** Three malformed tokens: no scheme, no `?`, and no `#` after the `?`. */
  lemma NotAUriExample()
    ensures ParseUri("not-a-uri").Failure?
  {
    assert "not-a-uri"[..|Scheme|][0] != Scheme[0];
  }

  lemma NoSeparatorExample()
    ensures ParseUri("git://repo-no-separator").Failure?
  {
    var noQuery := "repo-no-separator";
    assert Scheme + noQuery == "git://repo-no-separator";
    assert forall k :: 0 <= k < |noQuery| ==> noQuery[k] != '?';
    RejectsMissingQuery(noQuery);
  }

  lemma NoHashExample()
    ensures ParseUri("git://repo?rev-no-hash").Failure?
  {
    var noHash := "rev-no-hash";
    assert Scheme + "repo" + "?" + noHash == "git://repo?rev-no-hash";
    assert forall k :: 0 <= k < |noHash| ==> noHash[k] != '#';
    assert forall k :: 0 <= k < |"repo"| ==> "repo"[k] != '?';
    RejectsMissingHash("repo", noHash);
  }
}
