/**
 * Repository references read from GitHub URLs (src/utils/github.ts).
 *
 * `new URL(url)` is outside the model: a URL arrives already parsed, as its
 * hostname and pathname, or as a parse failure.
 */
module GitHubUrl {
  import opened Wrappers
  import opened Text

  /** The outcome of parsing a URL string: a failure, or the parts this code reads. */
  datatype UrlParse = Invalid | Url(href: string, hostname: string, pathname: string)

  /** A repository on GitHub, identified by its owner and name. */
  datatype RepoRef = RepoRef(owner: string, name: string)

  const GitHubHost := "github.com"

  /** The identity key of a repository, `owner/name`. */
  function RepoKey(r: RepoRef): string {
    r.owner + "/" + r.name
  }

  /** Owner and name can be read back from the key when neither holds a slash. */
  lemma RepoKeySplits(r: RepoRef)
    requires '/' !in r.owner && '/' !in r.name
    ensures Split(RepoKey(r), '/') == [r.owner, r.name]
  {
    var k := RepoKey(r);
    assert k[|r.owner|] == '/';
    assert k[..|r.owner|] == r.owner;
    assert k[|r.owner| + 1..] == r.name;
    IndexOfUnique(k, '/', |r.owner|);
  }

  /** Two slash-free references with the same key are the same reference. */
  lemma RepoKeyInjective(a: RepoRef, b: RepoRef)
    requires '/' !in a.owner && '/' !in a.name && '/' !in b.owner && '/' !in b.name
    requires RepoKey(a) == RepoKey(b)
    ensures a == b
  {
    RepoKeySplits(a);
    RepoKeySplits(b);
  }

  /** `name.replace(/\.git$/, "")`: one trailing `.git` removed, if present. */
  function StripGitSuffix(name: string): (r: string)
    ensures EndsWith(name, ".git") ==> r + ".git" == name
    ensures !EndsWith(name, ".git") ==> r == name
  {
    if EndsWith(name, ".git") then name[..|name| - 4] else name
  }

  /** `parseGitHubRepo`: a reference for a github.com URL with at least two path segments, else null. */
  function ParseGitHubRepo(u: UrlParse): Option<RepoRef> {
    if u.Invalid? || u.hostname != GitHubHost then None
    else
      var parts := Segments(u.pathname);
      if |parts| < 2 then None
      else if parts[0] == "" || parts[1] == "" then None
      else Some(RepoRef(parts[0], StripGitSuffix(parts[1])))
  }

  /** `isGitHubRepoUrl`: holds exactly for parseable github.com URLs with an owner and a name segment. */
  function IsGitHubRepoUrl(u: UrlParse): (r: bool)
    ensures r <==> u.Url? && u.hostname == GitHubHost && |Segments(u.pathname)| >= 2
  {
    ParseGitHubRepo(u).Some?
  }

  /** What `parseGitHubRepo` returns, stated in terms of the path segments. */
  lemma ParseGitHubRepoSpec(u: UrlParse)
    ensures u.Invalid? ==> ParseGitHubRepo(u) == None
    ensures u.Url? && u.hostname != GitHubHost ==> ParseGitHubRepo(u) == None
    ensures u.Url? && |Segments(u.pathname)| < 2 ==> ParseGitHubRepo(u) == None
    ensures ParseGitHubRepo(u).Some? ==>
              var parts := Segments(u.pathname);
              var r := ParseGitHubRepo(u).value;
              && r.owner == parts[0] && r.owner != "" && '/' !in r.owner
              && '/' !in r.name
              && (r.name == parts[1] || r.name + ".git" == parts[1])
  {
    if ParseGitHubRepo(u).Some? {
      SegmentsHaveNoSlash(u.pathname);
      var parts := Segments(u.pathname);
      var name := StripGitSuffix(parts[1]);
      assert forall k :: 0 <= k < |name| ==> name[k] == parts[1][k];
    }
  }

  lemma {:induction false} SplitAppend(p: string, q: string, c: char)
    ensures Split(p + [c] + q, c) == Split(p, c) + Split(q, c)
    decreases |p|
  {
    if c in p {
      var i := IndexOf(p, c);
      var x, rest := p[..i], p[i + 1..];
      assert p == x + [c] + rest;
      SplitAppend(rest, q, c);
      SplitAppendStep(x, rest, q, c);
    } else {
      SplitAtSeparator(p, q, c);
    }
  }

  /** The inductive step of SplitAppend, for `p` = `x`, a separator, `rest`. */
  lemma SplitAppendStep(x: string, rest: string, q: string, c: char)
    requires c !in x
    requires Split(rest + [c] + q, c) == Split(rest, c) + Split(q, c)
    ensures Split(x + [c] + rest + [c] + q, c) == Split(x + [c] + rest, c) + Split(q, c)
  {
    var t := rest + [c] + q;
    calc {
      Split(x + [c] + rest + [c] + q, c);
      { SeparatedAssoc(x, rest, q, c); }
      Split(x + [c] + t, c);
      { SplitAtSeparator(x, t, c); }
      [x] + Split(t, c);
      [x] + (Split(rest, c) + Split(q, c));
      { SeqAssoc([x], Split(rest, c), Split(q, c)); }
      [x] + Split(rest, c) + Split(q, c);
      { SplitAtSeparator(x, rest, c); }
      Split(x + [c] + rest, c) + Split(q, c);
    }
  }

  lemma SeqAssoc<T>(a: seq<T>, b: seq<T>, d: seq<T>)
    ensures a + (b + d) == a + b + d
  {
  }

  lemma SeparatedAssoc(x: string, rest: string, q: string, c: char)
    ensures x + [c] + rest + [c] + q == x + [c] + (rest + [c] + q)
  {
  }

  lemma {:induction false} NonEmptyTrimmedAppend(a: seq<string>, b: seq<string>)
    ensures NonEmptyTrimmed(a + b) == NonEmptyTrimmed(a) + NonEmptyTrimmed(b)
  {
    if a != [] {
      assert (a + b)[1..] == a[1..] + b;
      NonEmptyTrimmedAppend(a[1..], b);
    } else {
      assert a + b == b;
    }
  }

  /** Path segments after the second one play no part: `/o/n/tree/main` reads like `/o/n`. */
  lemma ExtraSegmentsIgnored(href: string, host: string, p: string, q: string)
    requires |Segments(p)| >= 2
    ensures ParseGitHubRepo(Url(href, host, p + "/" + q)) == ParseGitHubRepo(Url(href, host, p))
  {
    SplitAppend(p, q, '/');
    NonEmptyTrimmedAppend(Split(p, '/'), Split(q, '/'));
  }
}
