/**
 * The default-merging half of `loadConfig` and `resolveConfigPath`
 * (src/config/index.ts). Reading the file, YAML and schema validation are
 * outside the model: `LoadConfig` starts from the validated raw config.
 *
 * An object spread `{ ...a, ...b }` keeps each field of `b` that is present
 * and falls back to `a`'s otherwise; with every optional field an `Option`,
 * that is `Overlay` below.
 */
module Config {
  import opened Wrappers
  import opened ListTypes

  /** A repository location in which every field may be missing (`Partial<RepoRef>`). */
  datatype PartialRef = PartialRef(owner: Option<string>, repo: Option<string>, branch: Option<string>, path: Option<string>)

  /** A repository location: owner and repo are required. */
  datatype RepoRef = RepoRef(owner: string, repo: string, branch: Option<string>, path: Option<string>)

  datatype OutputDefaults = OutputDefaults(ref: PartialRef, repoSuffix: Option<string>)

  datatype TableConfig = TableConfig(columns: seq<string>, sort: string)

  datatype CacheConfig = CacheConfig(ttlSeconds: int)

  datatype DefaultsConfig = DefaultsConfig(
    source: Option<PartialRef>,
    output: Option<OutputDefaults>,
    parser: Option<string>,
    parserOptions: Option<ParserOptions>,
    table: Option<TableConfig>,
    cache: Option<CacheConfig>,
    toc: Option<bool>)

  datatype ListConfig = ListConfig(
    id: string,
    name: Option<string>,
    header: Option<string>,
    toc: Option<bool>,
    source: RepoRef,
    output: Option<PartialRef>,
    parser: Option<string>,
    parserOptions: Option<ParserOptions>,
    table: Option<TableConfig>,
    cache: Option<CacheConfig>)

  datatype RawConfig = RawConfig(version: int, defaults: Option<DefaultsConfig>, list: ListConfig)

  /** The defaults after merging; every field is present, as `Required<DefaultsConfig>` says. */
  datatype MergedDefaults = MergedDefaults(
    source: PartialRef,
    output: OutputDefaults,
    parser: string,
    parserOptions: ParserOptions,
    table: TableConfig)

  /**
   * The list as `loadConfig` resolves it. `cache`, `header` and `toc` are not
   * copied over by the source, so `cache` is always missing here.
   */
  datatype ResolvedList = ResolvedList(
    id: string,
    name: Option<string>,
    source: RepoRef,
    output: RepoRef,
    parser: string,
    parserOptions: ParserOptions,
    table: TableConfig,
    cache: Option<CacheConfig>)

  datatype ResolvedConfig = ResolvedConfig(version: int, defaults: MergedDefaults, list: ResolvedList)

  const DefaultTable := TableConfig(["stars", "name", "description"], "stars_desc")

  /** `DEFAULTS`: branch main, path README.md, suffix -with-stars, the default parser, depths 2 and 3. */
  const Defaults := MergedDefaults(
    PartialRef(None, None, Some("main"), Some("README.md")),
    OutputDefaults(PartialRef(None, None, Some("main"), Some("README.md")), Some("-with-stars")),
    "default",
    ParserOptions(Some([2, 3]), None),
    DefaultTable)

  /** `{ ...a, ...b }` (or `b ?? a`) for one optional field. */
  function Pick<T>(a: Option<T>, b: Option<T>): (r: Option<T>)
    ensures b.Some? ==> r == b
    ensures b.None? ==> r == a
  {
    if b.Some? then b else a
  }

  /** `{ ...a, ...b }` for partial locations. */
  function Overlay(a: PartialRef, b: PartialRef): PartialRef {
    PartialRef(Pick(a.owner, b.owner), Pick(a.repo, b.repo), Pick(a.branch, b.branch), Pick(a.path, b.path))
  }

  /** `{ ...a, ...b }` for parser options. */
  function OverlayOptions(a: ParserOptions, b: ParserOptions): ParserOptions {
    ParserOptions(Pick(a.headingDepths, b.headingDepths), Pick(a.ignoreHeadings, b.ignoreHeadings))
  }

  /** Overlaying an absent override changes nothing; a present field always wins. */
  lemma OverlayLaws(a: PartialRef, b: PartialRef)
    ensures Overlay(a, PartialRef(None, None, None, None)) == a
    ensures Overlay(a, b).owner == (if b.owner.Some? then b.owner else a.owner)
    ensures Overlay(a, b).repo == (if b.repo.Some? then b.repo else a.repo)
    ensures Overlay(a, b).branch == (if b.branch.Some? then b.branch else a.branch)
    ensures Overlay(a, b).path == (if b.path.Some? then b.path else a.path)
    ensures Overlay(Overlay(a, b), b) == Overlay(a, b)
  {
  }

  /** The merged defaults of lines 40-49: spreads for source, output and options; parser and table replace wholesale. */
  function MergeDefaults(user: Option<DefaultsConfig>): MergedDefaults {
    if user.None? then Defaults
    else
      var u := user.value;
      MergedDefaults(
        if u.source.Some? then Overlay(Defaults.source, u.source.value) else Defaults.source,
        if u.output.Some? then
          OutputDefaults(Overlay(Defaults.output.ref, u.output.value.ref),
                         Pick(Defaults.output.repoSuffix, u.output.value.repoSuffix))
        else Defaults.output,
        u.parser.GetOr(Defaults.parser),
        if u.parserOptions.Some? then OverlayOptions(Defaults.parserOptions, u.parserOptions.value) else Defaults.parserOptions,
        u.table.GetOr(Defaults.table))
  }

  /** Whatever the user writes, the merged defaults keep a branch, a path and a repo suffix. */
  lemma MergedDefaultsComplete(user: Option<DefaultsConfig>)
    ensures var m := MergeDefaults(user);
            m.source.branch.Some? && m.source.path.Some? && m.output.ref.branch.Some? && m.output.ref.path.Some?
            && m.output.repoSuffix.Some? && m.parserOptions.headingDepths.Some?
  {
  }

  /** With no user defaults, the built-in ones stand. */
  lemma NoUserDefaults()
    ensures MergeDefaults(None).output.repoSuffix == Some("-with-stars")
    ensures MergeDefaults(None).parser == "default"
    ensures MergeDefaults(None).parserOptions.headingDepths == Some([2, 3])
    ensures MergeDefaults(None).source.branch == Some("main") && MergeDefaults(None).output.ref.path == Some("README.md")
  {
  }

  function MissingOwner(id: string): string {
    "Missing output.owner for list " + id + ". Set defaults.output.owner or list.output.owner."
  }

  /** `list.output?.owner ?? mergedDefaults.output.owner`. */
  function OwnerOf(list: ListConfig, merged: MergedDefaults): Option<string> {
    if list.output.Some? && list.output.value.owner.Some? then list.output.value.owner else merged.output.ref.owner
  }

  /** `list.output?.repo ?? list.source.repo + repoSuffix`. */
  function OutputRepo(list: ListConfig, merged: MergedDefaults): string {
    if list.output.Some? && list.output.value.repo.Some? then list.output.value.repo.value
    else list.source.repo + merged.output.repoSuffix.GetOr("")
  }

  /** `loadConfig` after validation: refuse a missing owner, else resolve the list over the merged defaults. */
  function LoadConfig(raw: RawConfig): (r: Result<ResolvedConfig, string>)
    ensures r.Err? <==> OwnerOf(raw.list, MergeDefaults(raw.defaults)).None?
                        || OwnerOf(raw.list, MergeDefaults(raw.defaults)).value == ""
    ensures r.Err? ==> r.error == MissingOwner(raw.list.id)
  {
    var merged := MergeDefaults(raw.defaults);
    var list := raw.list;
    var owner := OwnerOf(list, merged);
    if owner.None? || owner.value == "" then Err(MissingOwner(list.id))
    else
      var listOutput := list.output.GetOr(PartialRef(None, None, None, None));
      var sourceOverlay := Overlay(merged.source, PartialRef(Some(list.source.owner), Some(list.source.repo), list.source.branch, list.source.path));
      Ok(ResolvedConfig(raw.version, merged, ResolvedList(
        list.id,
        list.name,
        RepoRef(list.source.owner, list.source.repo, sourceOverlay.branch, sourceOverlay.path),
        RepoRef(owner.value, OutputRepo(list, merged),
                Pick(merged.output.ref.branch, listOutput.branch),
                Pick(merged.output.ref.path, listOutput.path)),
        list.parser.GetOr(merged.parser),
        if list.parserOptions.Some? then OverlayOptions(merged.parserOptions, list.parserOptions.value) else merged.parserOptions,
        list.table.GetOr(merged.table),
        None)))
  }

  /**
   * What the resolved list holds: the list's own fields win over the merged
   * defaults, the output repo falls back to the source repo plus the suffix,
   * and nothing ends up without a branch or a path.
   */
  lemma LoadConfigResolves(raw: RawConfig)
    requires LoadConfig(raw).Ok?
    ensures var r := LoadConfig(raw).value.list;
            r.id == raw.list.id && r.name == raw.list.name
    // source: `{ ...mergedDefaults.source, ...list.source }`
    ensures var r := LoadConfig(raw).value.list;
            r.source.owner == raw.list.source.owner && r.source.repo == raw.list.source.repo
    ensures var r := LoadConfig(raw).value.list;
            var m := MergeDefaults(raw.defaults);
            r.source.branch == (if raw.list.source.branch.Some? then raw.list.source.branch else m.source.branch)
    ensures var r := LoadConfig(raw).value.list;
            var m := MergeDefaults(raw.defaults);
            r.source.path == (if raw.list.source.path.Some? then raw.list.source.path else m.source.path)
    // output: owner and repo as checked and computed, branch and path `list.output?.x ?? mergedDefaults.output.x`
    ensures var r := LoadConfig(raw).value.list;
            var m := MergeDefaults(raw.defaults);
            r.output.owner == OwnerOf(raw.list, m).value && r.output.owner != ""
    ensures var r := LoadConfig(raw).value.list;
            var m := MergeDefaults(raw.defaults);
            && (raw.list.output.Some? && raw.list.output.value.repo.Some? ==> r.output.repo == raw.list.output.value.repo.value)
            && (raw.list.output.None? || raw.list.output.value.repo.None? ==>
                  r.output.repo == raw.list.source.repo + m.output.repoSuffix.value)
    ensures var r := LoadConfig(raw).value.list;
            var m := MergeDefaults(raw.defaults);
            r.output.branch == (if raw.list.output.Some? && raw.list.output.value.branch.Some?
                                then raw.list.output.value.branch else m.output.ref.branch)
    ensures var r := LoadConfig(raw).value.list;
            var m := MergeDefaults(raw.defaults);
            r.output.path == (if raw.list.output.Some? && raw.list.output.value.path.Some?
                              then raw.list.output.value.path else m.output.ref.path)
    ensures var r := LoadConfig(raw).value.list;
            r.source.branch.Some? && r.source.path.Some? && r.output.branch.Some? && r.output.path.Some?
    // parser and table: `list.x ?? mergedDefaults.x`
    ensures var r := LoadConfig(raw).value.list;
            var m := MergeDefaults(raw.defaults);
            && (raw.list.parser.Some? ==> r.parser == raw.list.parser.value)
            && (raw.list.parser.None? ==> r.parser == m.parser)
    ensures var r := LoadConfig(raw).value.list;
            var m := MergeDefaults(raw.defaults);
            && (raw.list.table.Some? ==> r.table == raw.list.table.value)
            && (raw.list.table.None? ==> r.table == m.table)
    // parserOptions: `{ ...mergedDefaults.parserOptions, ...list.parserOptions }`, field by field
    ensures var r := LoadConfig(raw).value.list;
            var m := MergeDefaults(raw.defaults);
            raw.list.parserOptions.None? ==> r.parserOptions == m.parserOptions
    ensures var r := LoadConfig(raw).value.list;
            var m := MergeDefaults(raw.defaults);
            raw.list.parserOptions.Some? ==>
              && r.parserOptions.headingDepths == (if raw.list.parserOptions.value.headingDepths.Some?
                                                   then raw.list.parserOptions.value.headingDepths
                                                   else m.parserOptions.headingDepths)
              && r.parserOptions.ignoreHeadings == (if raw.list.parserOptions.value.ignoreHeadings.Some?
                                                    then raw.list.parserOptions.value.ignoreHeadings
                                                    else m.parserOptions.ignoreHeadings)
  {
    MergedDefaultsComplete(raw.defaults);
  }

  /** `loadConfig` never carries the cache setting over to the resolved list. */
  lemma LoadConfigDropsCache(raw: RawConfig)
    requires LoadConfig(raw).Ok?
    ensures LoadConfig(raw).value.list.cache.None?
  {
  }

  /** With no user defaults and no list overrides, the list is resolved to the built-ins. */
  lemma BareListResolves(version: int, id: string, sourceOwner: string, owner: string, repo: string)
    requires owner != ""
    ensures var raw := RawConfig(version, None,
              ListConfig(id, None, None, None, RepoRef(sourceOwner, repo, None, None),
                         Some(PartialRef(Some(owner), None, None, None)), None, None, None, None));
            LoadConfig(raw) == Ok(ResolvedConfig(version, Defaults, ResolvedList(
              id, None,
              RepoRef(sourceOwner, repo, Some("main"), Some("README.md")),
              RepoRef(owner, repo + "-with-stars", Some("main"), Some("README.md")),
              "default", ParserOptions(Some([2, 3]), None), DefaultTable, None)))
  {
  }

  /**
   * `resolveConfigPath`: a given non-empty path is returned as is, otherwise
   * `config/list.yml` under the working directory `cwd`.
   */
  function ResolveConfigPath(configPath: Option<string>, cwd: string): (r: string)
    ensures configPath.Some? && configPath.value != "" ==> r == configPath.value
    ensures !(configPath.Some? && configPath.value != "") ==>
              |r| >= |cwd| + |"config/list.yml"| && r[|r| - |"config/list.yml"|..] == "config/list.yml" && r[..|cwd|] == cwd
  {
    if configPath.Some? && configPath.value != "" then configPath.value
    else if |cwd| > 0 && cwd[|cwd| - 1] == '/' then cwd + "config/list.yml"
    else cwd + "/" + "config/list.yml"
  }
}
