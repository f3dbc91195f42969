/**
 * `runWorkflow` (src/workflow.ts): pick the parser, parse the fetched
 * README, fall back on a title, collect the GitHub repositories the items
 * link to, attach the fetched star counts, sort every category, render, and
 * either write the file (dry run) or update the destination repository.
 *
 * Everything the workflow reaches outside itself is a parameter: the fetched
 * README arrives already parsed into top-level nodes, `urlOf` is the URL
 * constructor applied to an item's url, and `fetched` is the map of star
 * counts by repository key that the stats pipeline answers. What the
 * workflow asks of the outside world (the file it fetches, the repositories
 * and options it asks stars for, the file it writes or updates) is returned
 * in a `Run`.
 */
module Workflow {
  import opened Wrappers
  import opened ListTypes
  import opened GitHubUrl
  import Config
  import Profiles
  import Registry
  import DefaultParser
  import Sort
  import Table
  import Client
  import Stars

  /** The one write the workflow ends with. */
  datatype Effect = WriteFile(path: string, content: string) | Update(target: Client.FileRef, content: string, message: string)

  datatype WorkflowResult = WorkflowResult(output: string, outputPath: Option<string>)

  /** The result, with what the workflow asked of the outside world on the way. */
  datatype Run = Run(
    result: WorkflowResult,
    source: Client.FileRef,
    requested: seq<RepoRef>,
    fetchOptions: Stars.FetchOptions,
    effect: Effect)

  // ---- the pieces the workflow is specified by ----

  /** The file fetched: the source repository, its branch, the path or README.md. */
  function SourceRef(list: Config.ResolvedList): Client.FileRef {
    Client.FileRef(list.source.owner, list.source.repo, list.source.branch, list.source.path.GetOr("README.md"))
  }

  /** The file updated outside a dry run. */
  function TargetRef(list: Config.ResolvedList): Client.FileRef {
    Client.FileRef(list.output.owner, list.output.repo, list.output.branch, list.output.path.GetOr("README.md"))
  }

  function UpdateMessage(id: string): string { "chore: update " + id + " stars" }

  /** `path.join(outputDir, id + ".md")`, without `.` and `..` normalisation. */
  function DryRunPath(outputDir: string, id: string): (r: string)
    ensures |r| >= |id| + 3 && r[|r| - |id| - 3..] == id + ".md"
  {
    var file := id + ".md";
    if outputDir == [] then file
    else if outputDir[|outputDir| - 1] == '/' then outputDir + file
    else outputDir + "/" + file
  }

  /** `parsed.title ?? list.name ?? list.id`: always some title. */
  function TitleOf(parsed: ParsedList, list: Config.ResolvedList): (r: Option<string>)
    ensures r.Some?
    ensures parsed.title.Some? ==> r == parsed.title
    ensures parsed.title.None? && list.name.Some? ==> r == list.name
    ensures parsed.title.None? && list.name.None? ==> r == Some(list.id)
  {
    if parsed.title.Some? then parsed.title else if list.name.Some? then list.name else Some(list.id)
  }

  /** The repository an item's url names, if it is a GitHub repository url. */
  function RepoOf(urlOf: string -> UrlParse, url: string): Option<RepoRef> {
    ParseGitHubRepo(urlOf(url))
  }

  /** The items of all categories, category by category. */
  function Flat(cats: seq<ParsedCategory>): seq<ParsedItem> {
    if cats == [] then [] else Flat(cats[..|cats| - 1]) + cats[|cats| - 1].items
  }

  /** The repositories the items link to, in item order, one per linking item. */
  function ItemRefs(items: seq<ParsedItem>, urlOf: string -> UrlParse): seq<RepoRef> {
    if items == [] then []
    else
      var repo := RepoOf(urlOf, items[|items| - 1].url);
      ItemRefs(items[..|items| - 1], urlOf) + (if repo.Some? then [repo.value] else [])
  }

  /** `itemRepoMap`: each url that names a repository, filed with that repository. */
  function RepoMapOf(items: seq<ParsedItem>, urlOf: string -> UrlParse): (m: map<string, RepoRef>)
    ensures forall u :: u in m ==> RepoOf(urlOf, u) == Some(m[u])
  {
    if items == [] then map[]
    else
      var m := RepoMapOf(items[..|items| - 1], urlOf);
      var url := items[|items| - 1].url;
      var repo := RepoOf(urlOf, url);
      if repo.Some? then m[url := repo.value] else m
  }

  /** The item with the stars attached: the fetched count for its repository, or none. */
  function Attach(item: ParsedItem, urlOf: string -> UrlParse, fetched: map<string, int>): (r: ParsedItem)
    ensures r.name == item.name && r.url == item.url && r.description == item.description
    ensures r.stars.Some? <==> RepoOf(urlOf, item.url).Some? && RepoKey(RepoOf(urlOf, item.url).value) in fetched
    ensures r.stars.Some? ==> r.stars.value == fetched[RepoKey(RepoOf(urlOf, item.url).value)]
  {
    var repo := RepoOf(urlOf, item.url);
    item.(stars := if repo.Some? && RepoKey(repo.value) in fetched then Some(fetched[RepoKey(repo.value)]) else None)
  }

  function AttachAll(items: seq<ParsedItem>, urlOf: string -> UrlParse, fetched: map<string, int>): (r: seq<ParsedItem>)
    ensures |r| == |items|
    ensures forall i :: 0 <= i < |items| ==> r[i] == Attach(items[i], urlOf, fetched)
  {
    seq(|items|, i requires 0 <= i < |items| => Attach(items[i], urlOf, fetched))
  }

  /** A category with stars attached and its items sorted. */
  function EnrichedCategory(c: ParsedCategory, urlOf: string -> UrlParse, fetched: map<string, int>): ParsedCategory {
    c.(items := Sort.Sort(AttachAll(c.items, urlOf, fetched)))
  }

  function EnrichAll(cats: seq<ParsedCategory>, urlOf: string -> UrlParse, fetched: map<string, int>): (r: seq<ParsedCategory>)
    ensures |r| == |cats|
    ensures forall i :: 0 <= i < |cats| ==> r[i] == EnrichedCategory(cats[i], urlOf, fetched)
  {
    seq(|cats|, i requires 0 <= i < |cats| => EnrichedCategory(cats[i], urlOf, fetched))
  }

  /** The list the workflow renders. */
  function Enriched(parsed: ParsedList, list: Config.ResolvedList, urlOf: string -> UrlParse, fetched: map<string, int>): ParsedList {
    ParsedList(TitleOf(parsed, list), parsed.header, parsed.toc, EnrichAll(parsed.categories, urlOf, fetched))
  }

  /** The options handed to the stats pipeline: only the cache's freshness, when configured. */
  function FetchOptionsFor(list: Config.ResolvedList): Stars.FetchOptions {
    Stars.NoOptions.(cacheMaxAgeSeconds := CacheMaxAge(list))
  }

  /** `list.cache?.ttlSeconds`: the configured freshness, or none. */
  function CacheMaxAge(list: Config.ResolvedList): (r: Option<int>)
    ensures r.Some? <==> list.cache.Some?
    ensures r.Some? ==> r.value == list.cache.value.ttlSeconds
  {
    if list.cache.Some? then Some(list.cache.value.ttlSeconds) else None
  }

  /** `list.cache.ttlSeconds` as line 60 reads it: a missing cache throws a TypeError. */
  function CacheMaxAgeAsWritten(list: Config.ResolvedList): (r: Result<int, string>)
    ensures r.Err? <==> list.cache.None?
  {
    if list.cache.None? then Err("TypeError: Cannot read properties of undefined (reading 'ttlSeconds')")
    else Ok(list.cache.value.ttlSeconds)
  }

  // ---- runWorkflow ----

  /** The first loop: gather the repositories, and the url-to-repository map, over all items. */
  method CollectRefs(cats: seq<ParsedCategory>, urlOf: string -> UrlParse)
    returns (repoRefs: seq<RepoRef>, itemRepoMap: map<string, RepoRef>)
    ensures repoRefs == ItemRefs(Flat(cats), urlOf)
    ensures itemRepoMap == RepoMapOf(Flat(cats), urlOf)
  {
    repoRefs := [];
    itemRepoMap := map[];
    var ci := 0;
    while ci < |cats|
      invariant 0 <= ci <= |cats|
      invariant repoRefs == ItemRefs(Flat(cats[..ci]), urlOf)
      invariant itemRepoMap == RepoMapOf(Flat(cats[..ci]), urlOf)
    {
      assert cats[..ci + 1][..ci] == cats[..ci];
      repoRefs, itemRepoMap := CollectItems(cats[ci].items, urlOf, Flat(cats[..ci]), repoRefs, itemRepoMap);
      ci := ci + 1;
    }
    assert cats[..ci] == cats;
  }

  /** The inner loop of the first pass, over one category's items. */
  method CollectItems(items: seq<ParsedItem>, urlOf: string -> UrlParse, ghost before: seq<ParsedItem>,
                      refs: seq<RepoRef>, repos: map<string, RepoRef>)
    returns (repoRefs: seq<RepoRef>, itemRepoMap: map<string, RepoRef>)
    requires refs == ItemRefs(before, urlOf) && repos == RepoMapOf(before, urlOf)
    ensures repoRefs == ItemRefs(before + items, urlOf)
    ensures itemRepoMap == RepoMapOf(before + items, urlOf)
  {
    repoRefs, itemRepoMap := refs, repos;
    var ii := 0;
    assert before + items[..0] == before;
    while ii < |items|
      invariant 0 <= ii <= |items|
      invariant repoRefs == ItemRefs(before + items[..ii], urlOf)
      invariant itemRepoMap == RepoMapOf(before + items[..ii], urlOf)
    {
      assert before + items[..ii + 1] == (before + items[..ii]) + [items[ii]];
      CollectStep(before + items[..ii], items[ii], urlOf);
      var repo := ParseGitHubRepo(urlOf(items[ii].url));
      if repo.Some? {
        repoRefs := repoRefs + [repo.value];
        itemRepoMap := itemRepoMap[items[ii].url := repo.value];
      }
      ii := ii + 1;
    }
    assert items[..ii] == items;
  }

  /** One more item extends the requests and the map by what its url names. */
  lemma CollectStep(p: seq<ParsedItem>, x: ParsedItem, urlOf: string -> UrlParse)
    ensures var repo := RepoOf(urlOf, x.url);
            && ItemRefs(p + [x], urlOf) == ItemRefs(p, urlOf) + (if repo.Some? then [repo.value] else [])
            && RepoMapOf(p + [x], urlOf) == (if repo.Some? then RepoMapOf(p, urlOf)[x.url := repo.value] else RepoMapOf(p, urlOf))
  {
    assert (p + [x])[..|p|] == p;
  }

  /** The inner loop of the second pass: each item gets the count filed under its repository's key. */
  method AttachStars(a: array<ParsedItem>, itemRepoMap: map<string, RepoRef>, fetched: map<string, int>,
                     ghost urlOf: string -> UrlParse)
    requires forall u :: u in itemRepoMap ==> RepoOf(urlOf, u) == Some(itemRepoMap[u])
    requires forall k :: 0 <= k < a.Length && RepoOf(urlOf, a[k].url).Some? ==> a[k].url in itemRepoMap
    modifies a
    ensures a[..] == AttachAll(old(a[..]), urlOf, fetched)
  {
    var i := 0;
    while i < a.Length
      invariant 0 <= i <= a.Length
      invariant forall k :: 0 <= k < i ==> a[k] == Attach(old(a[k]), urlOf, fetched)
      invariant forall k :: i <= k < a.Length ==> a[k] == old(a[k])
    {
      var item := a[i];
      if item.url in itemRepoMap {
        var key := RepoKey(itemRepoMap[item.url]);
        a[i] := item.(stars := if key in fetched then Some(fetched[key]) else None);
      } else {
        a[i] := item.(stars := None);
      }
      i := i + 1;
    }
  }

  /** One round of the second loop: attach the stars to a category's items, then sort them in place. */
  method EnrichCategory(c: ParsedCategory, itemRepoMap: map<string, RepoRef>, fetched: map<string, int>,
                        ghost urlOf: string -> UrlParse)
    returns (enriched: ParsedCategory)
    requires forall u :: u in itemRepoMap ==> RepoOf(urlOf, u) == Some(itemRepoMap[u])
    requires forall k :: 0 <= k < |c.items| && RepoOf(urlOf, c.items[k].url).Some? ==> c.items[k].url in itemRepoMap
    ensures enriched == EnrichedCategory(c, urlOf, fetched)
  {
    var a := new ParsedItem[|c.items|](k requires 0 <= k < |c.items| => c.items[k]);
    assert a[..] == c.items;
    AttachStars(a, itemRepoMap, fetched, urlOf);
    Sort.SortItemsByStars(a);
    enriched := c.(items := a[..]);
  }

  /** The second loop over the categories. */
  method EnrichCategories(cats: seq<ParsedCategory>, itemRepoMap: map<string, RepoRef>, fetched: map<string, int>,
                          ghost urlOf: string -> UrlParse)
    returns (enriched: seq<ParsedCategory>)
    requires itemRepoMap == RepoMapOf(Flat(cats), urlOf)
    ensures enriched == EnrichAll(cats, urlOf, fetched)
  {
    enriched := cats;
    var ci := 0;
    while ci < |cats|
      invariant 0 <= ci <= |cats| && |enriched| == |cats|
      invariant forall k :: 0 <= k < ci ==> enriched[k] == EnrichedCategory(cats[k], urlOf, fetched)
      invariant forall k :: ci <= k < |cats| ==> enriched[k] == cats[k]
    {
      forall k | 0 <= k < |cats[ci].items| && RepoOf(urlOf, cats[ci].items[k].url).Some?
        ensures cats[ci].items[k].url in itemRepoMap
      {
        InFlat(cats, ci, k);
        RepoMapHolds(Flat(cats), urlOf, cats[ci].items[k]);
      }
      var c := EnrichCategory(cats[ci], itemRepoMap, fetched, urlOf);
      enriched := enriched[ci := c];
      ci := ci + 1;
    }
  }

  /**
   * `runWorkflow`: an unknown parser id fails; otherwise the README of the
   * source repository is parsed, enriched and rendered, and the output is
   * written to `<outputDir>/<id>.md` on a dry run or sent as one update of
   * the output file otherwise.
   */
  method RunWorkflow(list: Config.ResolvedList, registry: Registry.ParserRegistry, document: seq<DefaultParser.MdNode>,
                     urlOf: string -> UrlParse, fetched: map<string, int>, dryRun: bool, outputDir: string)
    returns (r: Result<Run, string>)
    ensures r.Err? <==> list.parser !in registry.parsers
    ensures r.Err? ==> r.error == Registry.UnknownParser(list.parser)
    ensures r.Ok? ==>
              var parsed := Profiles.ParseWith(registry.parsers[list.parser], document, list.parserOptions);
              var run := r.value;
              && run.source == SourceRef(list)
              && run.requested == ItemRefs(Flat(parsed.categories), urlOf)
              && run.fetchOptions == FetchOptionsFor(list)
              && run.result.output == Table.Render(Enriched(parsed, list, urlOf, fetched))
              && (dryRun ==> run.result.outputPath == Some(DryRunPath(outputDir, list.id))
                             && run.effect == WriteFile(DryRunPath(outputDir, list.id), run.result.output))
              && (!dryRun ==> run.result.outputPath.None?
                              && run.effect == Update(TargetRef(list), run.result.output, UpdateMessage(list.id)))
  {
    var found := registry.Get(list.parser);
    if found.Err? {
      return Err(found.error);
    }
    var source := SourceRef(list);
    var parsed := Profiles.Parse(found.value, document, list.parserOptions);
    ghost var original := parsed;
    parsed := parsed.(title := TitleOf(parsed, list));

    var repoRefs, itemRepoMap := CollectRefs(parsed.categories, urlOf);
    var fetchOptions := FetchOptionsFor(list);

    var categories := EnrichCategories(parsed.categories, itemRepoMap, fetched, urlOf);
    parsed := parsed.(categories := categories);
    assert parsed == Enriched(original, list, urlOf, fetched);

    var output := Table.RenderList(parsed);
    if dryRun {
      var outputPath := DryRunPath(outputDir, list.id);
      return Ok(Run(WorkflowResult(output, Some(outputPath)), source, repoRefs, fetchOptions,
                    WriteFile(outputPath, output)));
    }
    var message := UpdateMessage(list.id);
    return Ok(Run(WorkflowResult(output, None), source, repoRefs, fetchOptions,
                  Update(TargetRef(list), output, message)));
  }

  // ---- what the workflow promises ----

  /** Each item of a category is among the flattened items. */
  lemma {:induction false} InFlat(cats: seq<ParsedCategory>, ci: nat, k: nat)
    requires ci < |cats| && k < |cats[ci].items|
    ensures cats[ci].items[k] in Flat(cats)
  {
    var n := |cats| - 1;
    if ci < n {
      InFlat(cats[..n], ci, k);
      assert cats[..n][ci] == cats[ci];
    } else {
      assert Flat(cats) == Flat(cats[..n]) + cats[n].items;
      assert Flat(cats)[|Flat(cats[..n])| + k] == cats[ci].items[k];
    }
  }

  /** Every item whose url names a repository has its url in the map. */
  lemma {:induction false} RepoMapHolds(items: seq<ParsedItem>, urlOf: string -> UrlParse, x: ParsedItem)
    requires x in items && RepoOf(urlOf, x.url).Some?
    ensures x.url in RepoMapOf(items, urlOf)
  {
    var n := |items| - 1;
    if items[n] != x {
      assert x in items[..n] by {
        var k :| 0 <= k < |items| && items[k] == x;
        assert items[..n][k] == x;
      }
      RepoMapHolds(items[..n], urlOf, x);
    }
  }

  /** Each requested repository comes from an item whose url names it. */
  lemma {:induction false} RequestedFromItem(items: seq<ParsedItem>, urlOf: string -> UrlParse, k: nat) returns (j: nat)
    requires k < |ItemRefs(items, urlOf)|
    ensures j < |items| && RepoOf(urlOf, items[j].url) == Some(ItemRefs(items, urlOf)[k])
  {
    var n := |items| - 1;
    var front := ItemRefs(items[..n], urlOf);
    if k < |front| {
      j := RequestedFromItem(items[..n], urlOf, k);
      assert items[..n][j] == items[j];
    } else {
      j := n;
    }
  }

  /** Each item whose url names a repository has that repository requested. */
  lemma {:induction false} ItemRequested(items: seq<ParsedItem>, urlOf: string -> UrlParse, j: nat)
    requires j < |items| && RepoOf(urlOf, items[j].url).Some?
    ensures RepoOf(urlOf, items[j].url).value in ItemRefs(items, urlOf)
  {
    var n := |items| - 1;
    if j < n {
      assert items[..n][j] == items[j];
      ItemRequested(items[..n], urlOf, j);
    }
  }

  /** No more repositories are requested than there are items. */
  lemma {:induction false} RequestBounded(items: seq<ParsedItem>, urlOf: string -> UrlParse)
    ensures |ItemRefs(items, urlOf)| <= |items|
  {
    if items != [] {
      RequestBounded(items[..|items| - 1], urlOf);
    }
  }

  /**
   * Each rendered category keeps its title, holds exactly the parsed items
   * with stars attached, and is ordered most stars first, ties by name.
   */
  lemma EnrichedCategoryFacts(c: ParsedCategory, urlOf: string -> UrlParse, fetched: map<string, int>, i: nat, j: nat)
    requires i < j < |c.items|
    ensures EnrichedCategory(c, urlOf, fetched).title == c.title
    ensures multiset(EnrichedCategory(c, urlOf, fetched).items) == multiset(AttachAll(c.items, urlOf, fetched))
    ensures Sort.Rank(EnrichedCategory(c, urlOf, fetched).items[i]) >= Sort.Rank(EnrichedCategory(c, urlOf, fetched).items[j])
  {
    Sort.SortPermutes(AttachAll(c.items, urlOf, fetched));
    Sort.SortOrder(AttachAll(c.items, urlOf, fetched), i, j);
  }

  /** The rendered output shows a row for every enriched item. */
  lemma EveryItemShown(parsed: ParsedList, list: Config.ResolvedList, urlOf: string -> UrlParse, fetched: map<string, int>,
                       ci: nat, ii: nat)
    requires ci < |parsed.categories| && ii < |parsed.categories[ci].items|
    ensures var e := Enriched(parsed, list, urlOf, fetched);
            ii < |e.categories[ci].items|
            && Text.Contains(Table.Render(e), Table.Row(e.categories[ci].items[ii]))
  {
    var e := Enriched(parsed, list, urlOf, fetched);
    Table.ItemRowShown(e, ci, ii);
  }

  /** With no header, the output opens with the title heading, whichever way the title was found. */
  lemma OutputOpensWithTitle(parsed: ParsedList, list: Config.ResolvedList, urlOf: string -> UrlParse, fetched: map<string, int>)
    requires parsed.header.None?
    requires var t := TitleOf(parsed, list).value; t != "" && !Text.IsSpace(t[|t| - 1])
    ensures Text.StartsWith(Table.Render(Enriched(parsed, list, urlOf, fetched)), "# " + TitleOf(parsed, list).value)
  {
    Table.TitleComesFirst(Enriched(parsed, list, urlOf, fetched));
  }

  /** Every list `loadConfig` resolves makes line 60 throw: none of them has a cache setting. */
  lemma LoadedListsBreakLineSixty(raw: Config.RawConfig)
    requires Config.LoadConfig(raw).Ok?
    ensures CacheMaxAgeAsWritten(Config.LoadConfig(raw).value.list).Err?
  {
    Config.LoadConfigDropsCache(raw);
  }

  /** Reading the setting optionally, a list without one gets the pipeline's one-hour default. */
  lemma MissingCacheUsesDefault(list: Config.ResolvedList)
    requires list.cache.None?
    ensures Stars.MaxAgeOf(FetchOptionsFor(list)) == 3600
  {
    Stars.DefaultOptions();
  }
}
