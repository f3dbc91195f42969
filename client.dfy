/**
 * The GitHub client of src/github/client.ts: the batched star query of
 * `fetchStarsBatch` (one aliased `repository` field per reference) and the
 * decoding of its answer, and the guards `fetchFile` and `updateFile` put on
 * the content the REST API returns.
 *
 * The HTTP calls are outside the model: the GraphQL answer and the content
 * listing arrive as parameters. Base64 coding and the JSON quoting of owner
 * and name inside the query text are not modelled.
 */
module Client {
  import opened Wrappers
  import opened Text
  import opened GitHubUrl
  import Stars

  /** One aliased field of the batched query: `repoI: repository(owner: …, name: …) { stargazerCount }`. */
  datatype Field = Field(alias: string, owner: string, name: string)

  /** `stargazerCount` as it arrives: a number, or anything else. */
  datatype Count = Num(n: int) | NotNum

  /** One property of the GraphQL `data` object: a falsy value (`null`), or an object. */
  datatype Value = Falsy | Node(stargazerCount: Count)

  /** The GraphQL `data` object: its properties in order, and the `rateLimit` field when present. */
  datatype Data = Data(entries: seq<(string, Value)>, rateLimit: Option<Stars.RateLimitInfo>)

  /** What `fetchStarsBatch` resolves with. */
  datatype BatchAnswer = BatchAnswer(stars: map<string, int>, rateLimit: Option<Stars.RateLimitInfo>)

  const AliasPrefix := "repo"

  /** The alias of the `i`-th reference: `repo` followed by `i` in decimal. */
  function Alias(i: nat): (a: string)
    ensures StartsWith(a, AliasPrefix)
  {
    AliasPrefix + NatToString(i)
  }

  /** The query fields for a batch: the `i`-th reference under alias `repoI`. */
  function Fields(repos: seq<RepoRef>): (fs: seq<Field>)
    ensures |fs| == |repos|
    ensures forall i :: 0 <= i < |repos| ==> fs[i] == Field(Alias(i), repos[i].owner, repos[i].name)
  {
    seq(|repos|, i requires 0 <= i < |repos| => Field(Alias(i), repos[i].owner, repos[i].name))
  }

  /**
   * The batch index a property key names: the key must start with `repo`,
   * and the rest is read by `Number.parseInt(_, 10)`. A result of NaN, a
   * negative or an out-of-range number names no reference.
   */
  function EntryIndex(key: string, count: nat): (r: Option<nat>)
    ensures r.Some? ==> r.value < count
  {
    if !StartsWith(key, AliasPrefix) then None
    else
      match ParseIntPrefix(key[|AliasPrefix|..])
      case None => None
      case Some(i) => if 0 <= i < count then Some(i as nat) else None
  }

  /** Each alias names its own reference again. */
  lemma AliasIndex(i: nat, count: nat)
    requires i < count
    ensures EntryIndex(Alias(i), count) == Some(i)
  {
    assert Alias(i)[|AliasPrefix|..] == NatToString(i);
    ParseIntOfNatToString(i);
  }

  /** A property of the answer with its key already read as a batch index. */
  datatype Indexed = Indexed(index: Option<nat>, value: Value)

  /** The answer's properties with their keys read as batch indices. */
  function IndexEntries(entries: seq<(string, Value)>, count: nat): (r: seq<Indexed>)
    ensures |r| == |entries|
    ensures forall j :: 0 <= j < |entries| ==> r[j] == Indexed(EntryIndex(entries[j].0, count), entries[j].1)
  {
    seq(|entries|, j requires 0 <= j < |entries| => Indexed(EntryIndex(entries[j].0, count), entries[j].1))
  }

  /** One pass of the decoding loop: a usable entry sets its reference's key to its count. */
  function DecodeEntry(repos: seq<RepoRef>, stars: map<string, int>, e: Indexed): map<string, int> {
    if e.value.Node? && e.index.Some? && e.index.value < |repos| && e.value.stargazerCount.Num?
    then stars[RepoKey(repos[e.index.value]) := e.value.stargazerCount.n]
    else stars
  }

  /** The map the decoding loop fills, entry by entry. */
  function Decoded(repos: seq<RepoRef>, es: seq<Indexed>): (stars: map<string, int>)
    ensures stars.Keys <= Stars.KeySet(repos)
  {
    if es == [] then map[]
    else DecodeEntry(repos, Decoded(repos, es[..|es| - 1]), es[|es| - 1])
  }

  lemma DecodedSnoc(repos: seq<RepoRef>, es: seq<Indexed>, j: nat)
    requires j < |es|
    ensures Decoded(repos, es[..j + 1]) == DecodeEntry(repos, Decoded(repos, es[..j]), es[j])
  {
    assert es[..j + 1][..j] == es[..j];
  }

  /** The entry reports a number for the reference keyed `k`. */
  predicate EntryReports(repos: seq<RepoRef>, e: Indexed, k: string) {
    && e.value.Node? && e.value.stargazerCount.Num?
    && e.index.Some? && e.index.value < |repos| && RepoKey(repos[e.index.value]) == k
  }

  /** The index of the last entry reporting `k`, if any. */
  function LastReport(repos: seq<RepoRef>, es: seq<Indexed>, k: string): (r: Option<nat>)
    ensures r.Some? ==> r.value < |es| && EntryReports(repos, es[r.value], k)
                        && forall j :: r.value < j < |es| ==> !EntryReports(repos, es[j], k)
    ensures r.None? ==> forall j :: 0 <= j < |es| ==> !EntryReports(repos, es[j], k)
  {
    if es == [] then None
    else
      var n := |es| - 1;
      if EntryReports(repos, es[n], k) then Some(n)
      else
        assert forall j :: 0 <= j < n ==> es[..n][j] == es[j];
        LastReport(repos, es[..n], k)
  }

  /**
   * A key is decoded exactly when some entry reports a number for a
   * reference with that key, and it holds the count of the last such entry.
   */
  lemma {:induction false} DecodedSpec(repos: seq<RepoRef>, es: seq<Indexed>, k: string)
    ensures k in Decoded(repos, es) <==> LastReport(repos, es, k).Some?
    ensures k in Decoded(repos, es) ==> Decoded(repos, es)[k] == es[LastReport(repos, es, k).value].value.stargazerCount.n
  {
    if es != [] {
      var n := |es| - 1;
      DecodedSpec(repos, es[..n], k);
      if !EntryReports(repos, es[n], k) && k in Decoded(repos, es[..n]) {
        var j := LastReport(repos, es[..n], k).value;
        assert es[..n][j] == es[j];
      }
    }
  }

  /** The answer a server gives when it knows every reference: `repoI` carries the `i`-th count. */
  function FullAnswer(counts: seq<int>): (entries: seq<(string, Value)>)
    ensures |entries| == |counts|
    ensures forall i :: 0 <= i < |counts| ==> entries[i] == (Alias(i), Node(Num(counts[i])))
  {
    seq(|counts|, i requires 0 <= i < |counts| => (Alias(i), Node(Num(counts[i]))))
  }

  /** Reading the keys of a full answer gives back every position. */
  lemma FullAnswerIndices(counts: seq<int>)
    ensures forall i :: 0 <= i < |counts| ==>
              IndexEntries(FullAnswer(counts), |counts|)[i] == Indexed(Some(i), Node(Num(counts[i])))
  {
    forall i | 0 <= i < |counts|
      ensures IndexEntries(FullAnswer(counts), |counts|)[i] == Indexed(Some(i), Node(Num(counts[i])))
    {
      AliasIndex(i, |counts|);
    }
  }

  /** No two references of the batch share a key. */
  predicate DistinctKeys(repos: seq<RepoRef>) {
    forall i, j :: 0 <= i < j < |repos| ==> RepoKey(repos[i]) != RepoKey(repos[j])
  }

  /** Decoding a full answer for distinct references gives every reference its own count. */
  lemma DecodeFullAnswer(repos: seq<RepoRef>, counts: seq<int>)
    requires |counts| == |repos|
    requires DistinctKeys(repos)
    ensures Decoded(repos, IndexEntries(FullAnswer(counts), |repos|)).Keys == Stars.KeySet(repos)
    ensures forall i :: 0 <= i < |repos| ==>
              Decoded(repos, IndexEntries(FullAnswer(counts), |repos|))[RepoKey(repos[i])] == counts[i]
  {
    FullAnswerIndices(counts);
    DecodeEachPosition(repos, counts, IndexEntries(FullAnswer(counts), |repos|));
  }

  /** Decoding entries that carry each position's count, in position order. */
  lemma DecodeEachPosition(repos: seq<RepoRef>, counts: seq<int>, es: seq<Indexed>)
    requires |counts| == |repos| == |es|
    requires DistinctKeys(repos)
    requires forall i :: 0 <= i < |es| ==> es[i] == Indexed(Some(i), Node(Num(counts[i])))
    ensures Decoded(repos, es).Keys == Stars.KeySet(repos)
    ensures forall i :: 0 <= i < |repos| ==> Decoded(repos, es)[RepoKey(repos[i])] == counts[i]
  {
    forall i | 0 <= i < |repos|
      ensures RepoKey(repos[i]) in Decoded(repos, es) && Decoded(repos, es)[RepoKey(repos[i])] == counts[i]
    {
      var k := RepoKey(repos[i]);
      assert EntryReports(repos, es[i], k);
      DecodedSpec(repos, es, k);
      var j := LastReport(repos, es, k).value;
      assert RepoKey(repos[j]) == k;
    }
    forall k | k in Stars.KeySet(repos) ensures k in Decoded(repos, es) {
      var r :| r in repos && RepoKey(r) == k;
      var i :| 0 <= i < |repos| && repos[i] == r;
      assert RepoKey(repos[i]) in Decoded(repos, es);
    }
  }

  /**
   * `fetchStarsBatch(repos)`: an empty batch resolves with an empty map and
   * sends no query; otherwise the query carries one aliased field per
   * reference, and the answer's properties are decoded in order.
   */
  method FetchStarsBatch(repos: seq<RepoRef>, data: Data) returns (answer: BatchAnswer, query: Option<seq<Field>>)
    ensures repos == [] ==> answer == BatchAnswer(map[], None) && query == None
    ensures repos != [] ==> query == Some(Fields(repos))
    ensures repos != [] ==> answer.stars == Decoded(repos, IndexEntries(data.entries, |repos|))
                            && answer.rateLimit == data.rateLimit
    ensures answer.stars.Keys <= Stars.KeySet(repos)
  {
    if |repos| == 0 {
      return BatchAnswer(map[], None), None;
    }
    query := Some(Fields(repos));
    var stars := DecodeStars(repos, data.entries);
    answer := BatchAnswer(stars, data.rateLimit);
  }

  /** The loop over `Object.entries(data)` that fills the `stars` map. */
  method DecodeStars(repos: seq<RepoRef>, entries: seq<(string, Value)>) returns (stars: map<string, int>)
    ensures stars == Decoded(repos, IndexEntries(entries, |repos|))
  {
    ghost var es := IndexEntries(entries, |repos|);
    stars := map[];
    var j := 0;
    while j < |entries|
      invariant 0 <= j <= |entries|
      invariant stars == Decoded(repos, es[..j])
    {
      DecodedSnoc(repos, es, j);
      var key, value := entries[j].0, entries[j].1;
      if value.Node? && StartsWith(key, AliasPrefix) {
        var index := ParseIntPrefix(key[|AliasPrefix|..]);
        if index.Some? && 0 <= index.value < |repos| {
          var repo := repos[index.value];
          if value.stargazerCount.Num? {
            stars := stars[RepoKey(repo) := value.stargazerCount.n];
          }
        }
      }
      j := j + 1;
    }
    assert es[..j] == es;
  }

  /** The decoded answer in the shape the pipeline consumes: counts only, no commit time. */
  function AsResponse(answer: BatchAnswer): (r: Stars.BatchResponse)
    ensures r.stats.Keys == answer.stars.Keys
    ensures forall k :: k in r.stats ==> r.stats[k] == Stars.RepoStats(answer.stars[k], Stars.Undefined)
  {
    Stars.BatchResponse(map k | k in answer.stars :: Stars.RepoStats(answer.stars[k], Stars.Undefined), answer.rateLimit)
  }

  /** A file to read or write: `owner/repo:path` on an optional branch. */
  datatype FileRef = FileRef(owner: string, repo: string, branch: Option<string>, path: string)

  /** What `repos.getContent` returns: a directory listing, or one entry of some type. */
  datatype ContentData = Listing | Entry(kind: string, content: Option<string>, encoding: Option<string>, sha: string)

  /** The `createOrUpdateFileContents` request `updateFile` sends. */
  datatype UpdateRequest = UpdateRequest(target: FileRef, message: string, content: string, sha: string)

  function NotAFile(ref: FileRef): string {
    "Expected file at " + ref.owner + "/" + ref.repo + ":" + ref.path
  }

  predicate IsFile(data: ContentData) {
    data.Entry? && data.kind == "file"
  }

  /**
   * `fetchFile`: a listing or a non-file entry is refused; an entry whose
   * encoding (base64 when absent) is not base64 is refused; otherwise the
   * content, empty when absent, is returned (still base64-coded here).
   */
  function FetchFile(ref: FileRef, data: ContentData): (r: Result<string, string>)
    ensures r.Ok? <==> IsFile(data) && data.encoding.GetOr("base64") == "base64"
    ensures !IsFile(data) ==> r == Err(NotAFile(ref))
    ensures IsFile(data) && r.Err? ==> r.error == "Unsupported content encoding: " + data.encoding.value
    ensures r.Ok? ==> r.value == data.content.GetOr("")
  {
    if !IsFile(data) then Err(NotAFile(ref))
    else
      var encoding := data.encoding.GetOr("base64");
      if encoding != "base64" then Err("Unsupported content encoding: " + encoding)
      else Ok(data.content.GetOr(""))
  }

  /**
   * `updateFile`: refuses a target that is not a file; otherwise the write
   * goes to the same owner, repository, path and branch, replacing the
   * existing entry's SHA.
   */
  function UpdateFile(ref: FileRef, content: string, message: string, existing: ContentData): (r: Result<UpdateRequest, string>)
    ensures r.Ok? <==> IsFile(existing)
    ensures r.Err? ==> r.error == NotAFile(ref)
    ensures r.Ok? ==> r.value.target == ref && r.value.sha == existing.sha
                      && r.value.content == content && r.value.message == message
  {
    if !IsFile(existing) then Err(NotAFile(ref)) else Ok(UpdateRequest(ref, message, content, existing.sha))
  }
}
