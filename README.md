# Stared awesome creator, modelled in Dafny

The stared-awesome-creator tool takes an "awesome list" (a Markdown README
of categorised links), looks up the GitHub star count of every linked
repository, and renders a copy of the list. In that copy each category is a
table, sorted by stars, then by name. The repository has two
implementations, and this project models the core of both.

**TypeScript pipeline.**

- Configuration loading and defaults merging (`Config`).
- The parser registry and its profiles (`Registry`, `Profiles`).
- The default Markdown parser over an already-parsed syntax tree (`DefaultParser`).
- GitHub URL recognition (`GitHubUrl`).
- The GraphQL star query and the REST file calls, over already-decoded answers (`Client`).
- The SQLite stats cache (`StatStore`) and the concurrency limiter (`Limiter`).
- The cached, batched, retrying star fetcher (`Stars`), with three runs worked end to end (`StarsExamples`).
- The sort (`Sort`) and the table renderer (`Table`).
- The workflow that ties them together (`Workflow`).

**Legacy Go implementation.**

- The GitHub file and star calls (`GoGit`).
- The star badge inserted before a link (`GoMarkdown`).
- Trimming the list to its contents (`GoAwesome`).
- The link processor and star manager (`GoStar`).

**Modelling approach.**

- Pure code becomes datatypes, functions and lemmas.
- Code that mutates state becomes classes:
  - the cache store;
  - the limiter, with its FIFO queue;
  - the fetch pipeline, with its client script and logs;
  - the parser registry;
  - the Go link processor, manager and Markdown block.
- Loops become methods, proved against the functions that specify them.
- In-place sorts keep their `array`.

The client's answers are given up front as a script of outcomes: a throw or
a response, consumed one call at a time. Sleeping is recorded in a ghost log
of delays. Shared helpers live in `Wrappers` (`Option`, `Result`), `Text`
(ASCII trimming, splitting, joining, integer formatting) and `ListTypes`
(parsed items, categories and lists).

## Model

| member | source | states |
|---|---|---|
| StatStore.Upsert | src/cache/sqlite.ts:19-27 | writing a key replaces that key's whole row (stars, last commit, time of writing); every other row is kept; the keys become the old keys plus that key |
| StatStore.UpsertIdempotent | src/cache/sqlite.ts:25-27 | writing the same row twice is the same as writing it once |
| StatStore.Store.constructor | src/cache/sqlite.ts:13-20 | a new cache holds no rows |
| StatStore.Store.GetEntry | src/cache/sqlite.ts:30-36 | returns a row exactly when the key is stored, and then the stored row |
| StatStore.Store.Get | src/cache/sqlite.ts:30-36 | returns a star count exactly when the key is stored, and then the stored count |
| StatStore.Store.Set | src/cache/sqlite.ts:38-41 | the rows afterwards are the old rows with this key upserted |
| Limiter.CreateLimiter | src/utils/async.ts:1-7 | fails with "Concurrency limit must be greater than zero" exactly when the limit is at most 0; otherwise gives an idle limiter (nothing active, queued or submitted) that keeps its invariant |
| Limiter.Limiter.constructor | src/utils/async.ts:6-7 | starts with no active task and an empty queue |
| Limiter.Limiter.Next | src/utils/async.ts:9-18 | with an empty queue or every slot busy, nothing changes; otherwise the oldest queued task starts and takes a slot |
| Limiter.Limiter.Submit | src/utils/async.ts:20-33 | keeps the invariant (tasks start in submission order, at most `limit` run, none waits while a slot is free); a new task starts at once exactly when a slot is free, otherwise it joins the back of the queue |
| Limiter.Limiter.Settle | src/utils/async.ts:22-28 | records that task's own outcome, whether it succeeded or failed; frees its slot and starts the oldest queued task, if any |
| Limiter.Limiter.QueueFacts | src/utils/async.ts:9-31 | queued tasks are pairwise distinct, and none of them has started, is running or has settled |
| GitHubUrl.RepoKeySplits | src/utils/github.ts:32-34 | for names without a slash, the key `owner/name` splits back into owner and name |
| GitHubUrl.RepoKeyInjective | src/utils/github.ts:32-34 | different slash-free repositories have different keys |
| GitHubUrl.RepoKey | src/utils/github.ts:32-34 | the key `owner/name`; specified by `RepoKeySplits` (it splits back) and `RepoKeyInjective` (distinct repositories, distinct keys) |
| GitHubUrl.StripGitSuffix | src/utils/github.ts:26 | a trailing `.git` is removed exactly once; any other name is left unchanged |
| GitHubUrl.ParseGitHubRepo | src/utils/github.ts:6-30 | the parse of a repository URL; specified by `ParseGitHubRepoSpec`, `IsGitHubRepoUrl` and `ExtraSegmentsIgnored` |
| GitHubUrl.IsGitHubRepoUrl | src/utils/github.ts:36-38 | true exactly when the URL parses, its host is github.com and its path has at least two non-blank segments |
| GitHubUrl.ParseGitHubRepoSpec | src/utils/github.ts:6-30 | invalid URLs, other hosts and paths with fewer than two segments give nothing; otherwise the owner is the first segment and the name is the second, minus `.git`; neither contains a slash |
| GitHubUrl.ExtraSegmentsIgnored | src/utils/github.ts:13-26 | path segments after owner and name do not change the result |
| Client.Alias | src/github/client.ts:83 | every field alias starts with `repo` |
| Client.Fields | src/github/client.ts:81-88 | one field per repository, in order; field i is aliased `repo<i>` and names that repository |
| Client.EntryIndex | src/github/client.ts:96-103 | a key is mapped to an index only when the index is within the batch |
| Client.AliasIndex | src/github/client.ts:81-103 | the alias written for position i is read back as i |
| Client.Decoded | src/github/client.ts:95-108 | only keys of repositories in the batch are ever decoded |
| Client.DecodedSpec | src/github/client.ts:95-108 | a key is decoded exactly when some answer entry reports a number for it, and it holds the count from the last such entry |
| Client.DecodeFullAnswer | src/github/client.ts:81-108 | when every alias is answered with a number, each repository of the batch gets exactly its own count |
| Client.FetchStarsBatch | src/github/client.ts:76-119 | an empty batch sends no query and returns no stars; otherwise it sends one field per repository, decodes the answer and passes the rate limit through; the stars are always keyed by repositories of the batch |
| Client.DecodeStars | src/github/client.ts:93-108 | the decoding loop computes the decoding specification |
| Client.AsResponse | src/github/client.ts:118 | the answer's star map keeps its keys; each count carries no commit time |
| Client.FetchFile | src/github/client.ts:32-51 | a listing or a non-file fails with "Expected file at owner/repo:path"; an encoding other than base64 fails with "Unsupported content encoding: …"; otherwise returns the content, or "" when there is none |
| Client.UpdateFile | src/github/client.ts:53-74 | fails exactly when the existing entry is not a file; otherwise the update targets the same file, with the existing sha, the new content and the message |
| Sort.NameCompareZero | src/utils/sort.ts:13 | names compare equal exactly when they are equal |
| Sort.NameCompareFlip | src/utils/sort.ts:13 | swapping the names negates the comparison |
| Sort.NameCompareTrans | src/utils/sort.ts:13 | the name order is transitive |
| Sort.NameCompare | src/utils/sort.ts:13 | the name order; specified by `NameCompareZero`, `NameCompareFlip` and `NameCompareTrans` |
| Sort.Compare | src/utils/sort.ts:7-14 | the comparator: more stars first, missing stars counting as -1, then by name; specified by `CompareFlip`, `CompareTrans` and `CompareZero` |
| Sort.CompareFlip | src/utils/sort.ts:7-14 | the comparator is antisymmetric |
| Sort.CompareTrans | src/utils/sort.ts:7-14 | the comparator is transitive |
| Sort.CompareZero | src/utils/sort.ts:7-14 | two items tie exactly when they have the same star rank and the same name |
| Sort.InsertPermutes | src/utils/sort.ts:6-15 | inserting adds exactly the new item |
| Sort.SortPermutes | src/utils/sort.ts:6-15 | sorting is a permutation |
| Sort.InsertSorted | src/utils/sort.ts:6-15 | inserting into a sorted list keeps it sorted |
| Sort.SortSorted | src/utils/sort.ts:6-15 | the result is sorted |
| Sort.SortOrder | src/utils/sort.ts:6-15 | earlier items have at least as many stars; on equal stars, the earlier name comes first |
| Sort.Sort | src/utils/sort.ts:6-15 | the sorted items; specified by `SortPermutes` (a permutation), `SortSorted` and `SortOrder` (the order), `UnstarredLast` |
| Sort.UnstarredLast | src/utils/sort.ts:8-12 | in a sorted list, every starred item comes before every unstarred one |
| Sort.InsertAt | src/utils/sort.ts:6-15 | one insertion step: the prefix up to i becomes the sorted insertion of a[i], and the rest of the array is untouched |
| Sort.ShiftLeft | src/utils/sort.ts:6-15 | moves a[i] left past exactly the larger items before it and shifts those up by one; everything else stays in place |
| Sort.SortItemsByStars | src/utils/sort.ts:6-15 | the array afterwards is the sorted list of its old contents |
| Sort.SortExample | test/sort.test.js:6-20 | Bravo 5, Alpha 5, Charlie unstarred and Delta 10 sort to Delta, Alpha, Bravo, Charlie |
| Profiles.MergeIgnoreHeadings | src/parsers/profiles.ts:36-44 | absent only when both lists are absent; otherwise the profile's headings followed by the caller's |
| Profiles.MergeOptions | src/parsers/profiles.ts:29-34 | the caller's heading depths win over the profile's; ignored headings are concatenated |
| Profiles.Parse | src/parsers/profiles.ts:19-27 | the default parser runs with the caller's options, or with the profile's defaults merged under them for a profile |
| Profiles.OnlyDepthsMatter | src/parsers/default.ts:19-51 | two option sets with the same heading depths parse every document alike |
| Profiles.ProfileDepths | src/parsers/profiles.ts:19-27 | without caller depths, a profile's categories are exactly the headings at the profile's depths |
| Profiles.PostgresDepthThreeOnly | src/parsers/profiles.ts:14-17 | awesome-postgres opens categories only at depth-3 headings |
| Profiles.RustKeepsTableOfContents | src/parsers/profiles.ts:4-7 | a "Table of contents" heading still becomes a category under awesome-rust: the ignored headings are merged but never applied |
| Registry.Lookup | src/parsers/registry.ts:13-19 | succeeds exactly when the id is registered, with that parser; otherwise fails with "Unknown parser: id" |
| Registry.Registered | src/parsers/registry.ts:6-11 | fails with "Parser already registered: id" exactly when the id is taken; otherwise adds that id |
| Registry.RegisterThenGet | src/parsers/registry.ts:6-19 | a parser that has just been registered is found under its id |
| Registry.RegisterKeepsOthers | src/parsers/registry.ts:6-11 | registering leaves the lookup of every other id unchanged |
| Registry.ParserRegistry.constructor | src/parsers/registry.ts:3-4 | a new registry is empty |
| Registry.ParserRegistry.Register | src/parsers/registry.ts:6-11 | on a duplicate, fails and changes nothing; otherwise the parsers are the old ones plus the new one |
| Registry.ParserRegistry.Get | src/parsers/registry.ts:13-19 | returns the lookup of the id |
| Registry.CreateParserRegistry | src/parsers/index.ts:4-8 | the registry as written holds only the default parser |
| Registry.DefaultOnlyKnowsDefault | src/parsers/index.ts:4-8 | that registry answers only the id "default" |
| Registry.ProfilesUnknown | test/parsers.test.ts:16-18 | in that registry, awesome-rust, awesome-zig and awesome-postgres are unknown parsers |
| Registry.CreateFullParserRegistry | src/parsers/index.ts:4-8 | the corrected registry holds the default parser and all three profiles |
| Registry.FullRegistryServesAll | test/parsers.test.ts:17-18 | the corrected registry finds each of the four parsers under its own id |
| Config.Pick | src/config/index.ts:40-49 | an override that is present wins; otherwise the default is kept |
| Config.OverlayLaws | src/config/index.ts:40-49 | object spread, field by field: an empty overlay changes nothing, each present field wins, and applying the same overlay twice is the same as once |
| Config.Overlay | src/config/index.ts:41-42 | object spread of one partial repository reference over another; specified by `OverlayLaws` |
| Config.MergeDefaults | src/config/index.ts:40-49 | `mergedDefaults`: the user defaults over the built-in ones; specified by `MergedDefaultsComplete` and `NoUserDefaults` |
| Config.MergedDefaultsComplete | src/config/index.ts:40-49 | whatever the user gives, the merged defaults have a source branch and path, an output branch, path and repository suffix, and heading depths |
| Config.NoUserDefaults | src/config/index.ts:19-34 | with no user defaults: branch "main", path "README.md", suffix "-with-stars", parser "default", depths [2, 3] |
| Config.LoadConfig | src/config/index.ts:51-57 | fails with the "Missing output.owner for list …" message exactly when no output owner is set, or the one set is empty |
| Config.LoadConfigResolves | src/config/index.ts:59-81 | a loaded list keeps its id, name and source repository; every other field is given for both cases. The source and output branch and path, the parser, the table and each parser option come from the list when it gives them and from the merged defaults otherwise. The output owner is the checked non-empty owner. The output repository is the list's own when given, and the source repository plus the suffix otherwise |
| Config.LoadConfigDropsCache | src/config/index.ts:62-81 | a loaded list never carries a cache setting |
| Config.BareListResolves | src/config/index.ts:14-81 | a list that gives only ids and an owner resolves to exactly the documented defaults |
| Config.ResolveConfigPath | src/config/index.ts:90-96 | a non-empty path is used as given; otherwise `config/list.yml` under the working directory |
| DefaultParser.HeadingDepths | src/parsers/default.ts:15-21 | the configured depths, or [2, 3] when none are given |
| DefaultParser.StripNoSeparator | src/parsers/default.ts:119-121 | text that does not start with a separator is only trimmed |
| DefaultParser.StripSeparatorSuffix | src/parsers/default.ts:119-121 | stripping gives trimmed text taken from inside the input |
| DefaultParser.StripSeparator | src/parsers/default.ts:119-121 | drops a leading run of separators and trims; specified by `StripNoSeparator` and `StripSeparatorSuffix` |
| DefaultParser.FirstMatch | src/parsers/default.ts:111 | the first position from which ` - ` or ` : ` is followed by a character, or none when there is no such position |
| DefaultParser.LineLength | src/parsers/default.ts:111 | the capture runs up to the first line terminator |
| DefaultParser.DescriptionFromParagraph | src/parsers/default.ts:92-117 | the description is always trimmed, and it is always taken from the paragraph |
| DefaultParser.AfterNameInText | src/parsers/default.ts:106-109 | the text after the link name is trimmed and lies inside the paragraph |
| DefaultParser.RestOfLineInText | src/parsers/default.ts:111-114 | the rest of the line after a separator is trimmed and lies inside the paragraph |
| DefaultParser.NoSeparatorNoDescription | src/parsers/default.ts:106-116 | a paragraph that neither starts with the link name nor has a separator gives "" |
| DefaultParser.ExtractDescription | src/parsers/default.ts:92-117 | the description of a list item; specified by `DescriptionFromParagraph`, `AfterNameInText`, `RestOfLineInText` and `NoSeparatorNoDescription` |
| DefaultParser.FirstUrl | src/parsers/default.ts:71-77 | the first link with a non-empty url, or none when every url is empty |
| DefaultParser.ExtractItem | src/parsers/default.ts:67-90 | an item exists exactly when the first link with a url has non-blank text; it then has that trimmed text as its name, a url and no stars |
| DefaultParser.VisitLinks | src/parsers/default.ts:68-77 | the link-visiting loop computes the visit specification |
| DefaultParser.VisitedFirstUrl | src/parsers/default.ts:71-77 | the visit keeps the url and trimmed text of the first link with a url; without one, no url or an empty one |
| DefaultParser.ItemOfSpec | src/parsers/default.ts:67-90 | the item specification: present exactly when the first link with a url has non-blank text; then named, with a url and unstarred |
| DefaultParser.ItemsOf | src/parsers/default.ts:54-65 | a list yields at most one item per list item |
| DefaultParser.ItemsNamed | src/parsers/default.ts:54-90 | every extracted item has a non-empty name and url |
| DefaultParser.ExtractListItems | src/parsers/default.ts:54-65 | the loop pushes exactly the items of the list items, in order |
| DefaultParser.Parse | src/parsers/default.ts:19-51 | the loop over the top-level nodes computes the document's parse; what that parse holds is stated by `CategoriesFollowHeadings`, `CategoryCollectsItsLists` and `TitleIsFirstHeading` |
| DefaultParser.ParseNode | src/parsers/default.ts:28-47 | one loop body is one step of the parse, and a current category exists exactly when some category does |
| DefaultParser.Step | src/parsers/default.ts:28-47 | one node of the parse loop; specified by `StepTitles` and by `CategoryCollectsItsLists` over a whole section |
| DefaultParser.ParseDocument | src/parsers/default.ts:19-51 | the parse of a document; specified by the lemmas below |
| DefaultParser.CategoriesFollowHeadings | src/parsers/default.ts:34-37 | the category titles are exactly the trimmed headings at configured depths, in document order |
| DefaultParser.StepTitles | src/parsers/default.ts:28-47 | one node adds a category title exactly when it is a heading at a configured depth |
| DefaultParser.NoHeadingNoChange | src/parsers/default.ts:41 | without headings, nothing is parsed: lists with no open category are dropped |
| DefaultParser.ListsBeforeHeadingsIgnored | src/parsers/default.ts:41-47 | anything before the first heading does not change the parse |
| DefaultParser.FillLast | src/parsers/default.ts:41-47 | until the next configured heading, nodes only append their lists' items to the last category |
| DefaultParser.ClosedCategoryKept | src/parsers/default.ts:34-36 | a category that is no longer the current one never changes again |
| DefaultParser.CategoryCollectsItsLists | src/parsers/default.ts:27-48 | the category opened by a configured heading (number k, after the categories of earlier headings) has that heading's trimmed text and exactly the items of the lists up to the next configured heading or the end, list after list, in order |
| DefaultParser.TitleKept | src/parsers/default.ts:31-33 | once the title is non-empty, no later node changes it |
| DefaultParser.TitleIsFirstHeading | src/parsers/default.ts:31-33 | the title is the first depth-1 heading with non-blank text |
| DefaultParser.TitleSetAt | src/parsers/default.ts:31-33 | that heading sets the title at its own position |
| DefaultParser.NoTopHeadingNoTitle | src/parsers/default.ts:25-50 | a document without depth-1 headings has no title |
| Table.ReplacedPipesEscaped | src/renderer/table.ts:47-48 | after the replacements, every pipe is preceded by a backslash |
| Table.TrimKeepsEscaped | src/renderer/table.ts:48 | trimming keeps every pipe escaped |
| Table.EscapeSafe | src/renderer/table.ts:47-49 | an escaped cell has every pipe escaped and no line feed, so it cannot break the table |
| Table.EscapePlain | src/renderer/table.ts:47-49 | trimmed text without pipes or line feeds is left as it is |
| Table.Escape | src/renderer/table.ts:47-49 | `escapeTableCell`; specified by `EscapeSafe` and `EscapePlain` |
| Table.Row | src/renderer/table.ts:31-36 | a row begins and ends with a pipe |
| Table.Rows | src/renderer/table.ts:31-36 | one row per item, in order |
| Table.CategoryLines | src/renderer/table.ts:38-44 | a category takes four heading lines plus one line per item |
| Table.StarsCell | src/renderer/table.ts:32 | the stars cell; specified by `StarsCellShown` |
| Table.RenderCategory | src/renderer/table.ts:30-45 | `renderCategory`; specified by `CategoryBlockLines` and `RowInBlock` |
| Table.Render | src/renderer/table.ts:5-28 | `renderList`; specified by `HeaderComesFirst`, `TitleComesFirst`, `EmptyCategoriesInvisible` and `ItemRowShown` |
| Table.RenderList | src/renderer/table.ts:5-28 | the imperative rendering equals the render specification |
| Table.PushCategories | src/renderer/table.ts:19-25 | the category loop appends exactly the blocks of the non-empty categories |
| Table.NonEmptyChunks | src/renderer/table.ts:19-22 | dropping empty categories gives the same blocks |
| Table.EmptyCategoriesInvisible | src/renderer/table.ts:19-22 | empty categories do not change the output |
| Table.HeaderComesFirst | src/renderer/table.ts:8-13 | a non-blank header opens the output, and the title is then ignored |
| Table.ChunksStartRender | src/renderer/table.ts:8-27 | a trimmed leading chunk opens the output |
| Table.TitleComesFirst | src/renderer/table.ts:14-17 | without a header, the output opens with `# title` |
| Table.BlockAmongChunks | src/renderer/table.ts:19-25 | each non-empty category's rendering is one of the chunks |
| Table.ItemRowShown | src/renderer/table.ts:19-44 | every item's row appears in the output |
| Table.RowEnds | src/renderer/table.ts:35 | a row neither begins nor ends with whitespace, so the final trim keeps it whole |
| Table.ShownInRender | src/renderer/table.ts:27 | text inside the joined chunks that does not begin or end with whitespace survives the final trim |
| Table.RowInBlock | src/renderer/table.ts:38-44 | each item's row appears in its category's rendering |
| Table.BlockInJoined | src/renderer/table.ts:19-27 | each non-empty category's rendering appears in the joined chunks |
| Table.PlainRow | src/renderer/table.ts:31-35 | for plain names and descriptions, the row is exactly `\| stars \| [name](url) \| description \|` |
| Table.StarsCellShown | src/renderer/table.ts:32 | the stars cell is "-" when stars are absent, and otherwise the number in decimal |
| Table.RowOneLine | src/renderer/table.ts:31-35 | a row is a single line whenever the url has no line feed |
| Table.CategoryBlockLines | src/renderer/table.ts:30-45 | a category's lines are the title, a blank line, the header row, the alignment row, then one row per item |
| Workflow.DryRunPath | src/workflow.ts:79-80 | a dry run writes to `<id>.md` |
| Workflow.TitleOf | src/workflow.ts:44 | the parsed title wins over the list name, and the name wins over the id; there is always a title |
| Workflow.RepoMapOf | src/workflow.ts:46-57 | every url in the map points to the repository parsed from it |
| Workflow.ItemRefs | src/workflow.ts:46-57 | the repositories the items name, in order; specified by `RequestedFromItem`, `ItemRequested` and `RequestBounded` |
| Workflow.Attach | src/workflow.ts:64-71 | an item keeps its name, url and description; it has stars exactly when its url names a repository whose stars were fetched, and then those stars |
| Workflow.AttachAll | src/workflow.ts:64-71 | stars are attached to each item in place |
| Workflow.EnrichAll | src/workflow.ts:63-73 | each category is enriched in place |
| Workflow.CacheMaxAge | src/workflow.ts:59-61 | the corrected lookup: the list's cache TTL when it is set, otherwise nothing, so the fetcher's default applies |
| Workflow.CacheMaxAgeAsWritten | src/workflow.ts:60 | the lookup as written fails exactly when the list has no cache setting |
| Workflow.CollectRefs | src/workflow.ts:46-57 | the nested loop collects every parsed repository in order, and maps each item url to it |
| Workflow.CollectItems | src/workflow.ts:50-56 | the inner loop extends the collected refs and map by one category |
| Workflow.CollectStep | src/workflow.ts:50-56 | one item adds its repository, if it has one, to both the list and the map |
| Workflow.AttachStars | src/workflow.ts:64-71 | the loop over the array attaches stars as specified |
| Workflow.EnrichCategory | src/workflow.ts:63-73 | one category gets its stars attached and is then sorted |
| Workflow.EnrichCategories | src/workflow.ts:63-73 | the outer loop enriches every category |
| Workflow.RunWorkflow | src/workflow.ts:32-97 | fails with "Unknown parser" exactly when the parser is not registered; otherwise it reads the source file, requests the repositories the items name, asks the fetcher with the corrected line-60 lookup (`CacheMaxAge`, see "Left out") and renders the enriched list; a dry run writes `<id>.md`, and otherwise the target file is updated with the message "chore: update id stars" |
| Workflow.RepoMapHolds | src/workflow.ts:49-57 | every item whose url names a repository is in the map |
| Workflow.RequestedFromItem | src/workflow.ts:46-57 | every requested repository comes from some item |
| Workflow.ItemRequested | src/workflow.ts:46-57 | every item that names a repository has that repository requested |
| Workflow.RequestBounded | src/workflow.ts:46-57 | there are no more requests than items |
| Workflow.EnrichedCategoryFacts | src/workflow.ts:63-73 | an enriched category keeps its title and its items (as a permutation), ordered by descending stars |
| Workflow.EveryItemShown | src/workflow.ts:63-75 | every parsed item appears as a row of the output |
| Workflow.OutputOpensWithTitle | src/workflow.ts:44-75 | without a header, the output opens with the resolved title |
| Workflow.LoadedListsBreakLineSixty | src/workflow.ts:59-61 | for every loaded configuration, the lookup as written fails |
| Workflow.MissingCacheUsesDefault | src/workflow.ts:59-61 | with the corrected lookup, a list without cache settings uses the one-hour default |
| Stars.DefaultOptions | src/github/stars.ts:27-32 | the defaults are batches of 25, concurrency 3, 2 retries, a 500 ms delay capped at 4000 ms, a one-hour cache, and rate-limit logging on |
| Stars.WriteThenReadBack | src/github/stars.ts:107-128 | a count written to the cache reads back unchanged; a missing commit time reads back as null |
| Stars.DedupKeys | src/github/stars.ts:40-43 | the keys are distinct and are exactly the keys of the requested repositories |
| Stars.Unique | src/github/stars.ts:40-43 | each key maps to a requested repository with that key |
| Stars.DedupRefs | src/github/stars.ts:40-43 | the loop computes the key order and the unique map, and the two agree |
| Stars.ToFetchKeys | src/github/stars.ts:51-63 | the repositories to fetch are distinct, and are exactly those without a fresh cache row |
| Stars.IsFresh | src/github/stars.ts:52-54 | a cached row is fresh when caching is on and its age is at most the max age; used by `ToFetchKeys` and `HitsAndFetchPartition` |
| Stars.HitsAndFetchPartition | src/github/stars.ts:40-63 | cache hits and repositories to fetch split the requested keys with no overlap; nothing fetched is fresh |
| Stars.CacheDisabledFetchesAll | src/github/stars.ts:52-62 | with a max age of 0 or less there are no hits, and every repository is fetched |
| Stars.Chunks | src/github/stars.ts:74 | every batch holds between 1 and `batchSize` repositories |
| Stars.ChunksFlatten | src/github/stars.ts:74 | the batches, concatenated, are the fetch list |
| Stars.ChunkIsSlice | src/github/stars.ts:74 | batch i is the slice from i·size up to (i+1)·size, or to the end |
| Stars.BatchesDisjoint | src/github/stars.ts:40-74 | no repository key appears twice across the batches |
| Stars.BatchKeysNotHits | src/github/stars.ts:51-74 | no batch contains a cache hit |
| Stars.BatchesAvoid | src/github/stars.ts:74 | keys absent from the list are absent from every batch |
| Stars.BackoffClosedForm | src/github/stars.ts:140-153 | the i-th sleep is the base delay for i = 0, and min(delay·2^i, max) after that |
| Stars.BackoffBounded | src/github/stars.ts:140-153 | every sleep after the first is at most the maximum delay |
| Stars.Backoff | src/github/stars.ts:140-153 | the sleeps of the retry loop; specified by `BackoffClosedForm` and `BackoffBounded` |
| Stars.AttemptSpec | src/github/stars.ts:135-155 | the retry loop makes 1 to retries+1 calls; every call but the last throws; it returns the response of the last call exactly when that call responded, and gives up only after using every call |
| Stars.AttemptFirstResponse | src/github/stars.ts:143-145 | a first call that responds is the only call |
| Stars.Attempt | src/github/stars.ts:135-155 | the retry loop's calls and outcome; specified by `AttemptSpec` and `AttemptFirstResponse` |
| Stars.ScheduleBounds | src/github/stars.ts:140-153 | every batch makes between 1 and retries+1 calls |
| Stars.SentLogLength | src/github/stars.ts:135-155 | the call log has one entry per call made |
| Stars.SleepLogLength | src/github/stars.ts:140-153 | a run sleeps once between two calls of the same batch and never after a batch's last call, so it sleeps the number of calls minus the number of batches |
| Stars.SleepLogBounded | src/github/stars.ts:140-153 | with a first delay no larger than the maximum, no delay slept in a run exceeds the maximum |
| Stars.ScheduleCallsBounded | src/github/stars.ts:140-150 | a run makes at most batches × (retries+1) calls |
| Stars.WriteThroughAllAt | src/github/stars.ts:107-110 | after the write-through, a key is cached exactly when it was cached before or some response returned it; it then holds the last response's value, and otherwise its old row |
| Stars.FallbackStep | src/github/stars.ts:120-131 | the fallback loop fills a missing key from its cache row, if there is one, and never overwrites a result |
| Stars.MergeStep | src/github/stars.ts:105-132 | processing one batch moves the results from the merge of the earlier batches to the merge including this one |
| Stars.Merged | src/github/stars.ts:105-132 | the results after some batches: a key takes the last response that returned it, else its fresh cache hit, else (when it was fetched) its cache row from before the run; used by `MergeStep` and `FetchRepoStatsWithCache` |
| Stars.ProgressStep | src/github/stars.ts:105-131 | one processed batch preserves the loop invariant that links the logs, the cache and the results to the schedule |
| Stars.SubmitNext | src/github/stars.ts:75-84 | submitting the next batch keeps tasks started in order, with the first `concurrency` of them running |
| Stars.SettleOldest | src/github/stars.ts:75-86 | settling the oldest running batch starts the next queued one, keeping a window of `concurrency` running batches |
| Stars.SettleInOrder | src/github/stars.ts:75-86 | settling a batch keeps the in-order window invariant |
| Stars.StatsPipeline.constructor | src/github/stars.ts:34-48 | a pipeline starts with its store, a clock reading and a client script, and empty logs |
| Stars.StatsPipeline.CallClient | src/github/stars.ts:145 | one call consumes the next scripted outcome (a throw when the script is empty) and logs the batch sent |
| Stars.StatsPipeline.FetchBatchWithRetry | src/github/stars.ts:135-155 | the calls and result are those of the retry specification; the batch is sent once per call; the sleeps are the backoff sequence, one fewer than the calls |
| Stars.StatsPipeline.WriteResponse | src/github/stars.ts:107-110 | results gain the response's stats, and the cache is written through with them |
| Stars.StatsPipeline.FillFromCache | src/github/stars.ts:119-131 | the `finally` loop computes the fallback from the cache |
| Stars.StatsPipeline.ProcessBatch | src/github/stars.ts:98-133 | one retrying fetch, whose calls, sent copies and backoff sleeps are those of the retry specification; on success the results and cache take the response; in both cases the fallback then fills the batch's missing keys from the cache |
| Stars.StatsPipeline.SubmitAll | src/github/stars.ts:75-84 | all batches are submitted, in order, to an idle limiter |
| Stars.StatsPipeline.StartLimiter | src/github/stars.ts:70-84 | fails with the limiter's error exactly when the concurrency is at most 0; otherwise every batch is submitted in order |
| Stars.StatsPipeline.RunOne | src/github/stars.ts:76-83 | running the next batch preserves the progress invariant, which ties the calls, sends, sleeps, responses, cache and results to the schedule |
| Stars.StatsPipeline.RunBatches | src/github/stars.ts:74-88 | the batch run: the calls, the sent batches, the backoff sleeps (`SleepLog`), the responses, the cache and the results are exactly those the retry schedule determines |
| Stars.StatsPipeline.RunInOrder | src/github/stars.ts:75-86 | running batches in start order reaches the progress invariant for all of them |
| Stars.StatsPipeline.RunAndSettle | src/github/stars.ts:76-83 | running a batch and settling its task keeps both the progress and the in-order invariants |
| Stars.StatsPipeline.SplitFresh | src/github/stars.ts:49-63 | the scan over unique keys gives exactly the fresh hits and the fetch list |
| Stars.StatsPipeline.FetchStale | src/github/stars.ts:65-88 | a concurrency of 0 or less fails, with no call, sleep or write; otherwise the batches are run, sleeping the schedule's backoff delays, and the result is the merge of hits, responses and cache fallbacks |
| Stars.StatsPipeline.FetchRepoStatsWithCache | src/github/stars.ts:34-89 | with nothing to fetch, returns the fresh hits and makes no call, sleep or write; otherwise it fetches in batches with retries and the schedule's backoff sleeps, writes responses through to the cache, falls back to cached rows for repositories still missing, and returns the merge |
| StarsExamples.KeysDiffer | test/stars.test.ts:39-40 | repo-one and repo-two have different keys |
| StarsExamples.DedupTwo | test/stars.test.ts:39-41 | the two test repositories deduplicate to themselves, in order |
| StarsExamples.OutcomeOfOne | src/github/stars.ts:34-89 | a run that fetches a single repository sends it once per call and merges the answer, if there is one |
| StarsExamples.RetryOutcome | test/stars.test.ts:37-71 | a throw, then a response for repo-one: two calls; repo-one has 10 stars, and repo-two keeps its cached 99 |
| StarsExamples.RetriesThenUsesCache | test/stars.test.ts:37-71 | the first test run through the pipeline gives those calls and that result |
| StarsExamples.FreshOutcome | test/stars.test.ts:73-107 | a fresh row for repo-one: one call, for repo-two only; repo-one has its cached 123, repo-two the fetched 10 |
| StarsExamples.UsesFreshCacheEntries | test/stars.test.ts:73-107 | the second test run through the pipeline gives that call and that result |
| StarsExamples.StaleOutcome | src/github/stars.ts:119-131 | a stale row for a batch whose calls all fail still answers for it |
| StarsExamples.StaleRowAnswersFailedBatch | src/github/stars.ts:119-131 | the pipeline with a two-hour-old row and no answers makes two calls and returns the stale 7 |
| GoGit.RepoOf | git/client.go:107-121 | owner and name are both empty or both set; when set, they are trimmed and contain no slash |
| GoGit.RepoFromPath | git/client.go:107-121 | the first two non-blank trimmed path segments, or two empty strings when there are fewer |
| GoGit.KeepSegments | git/client.go:107-121 | the loop keeps exactly the non-blank segments, trimmed, in order |
| GoGit.ExtraSegmentsIgnored | git/client.go:107-121 | segments after the first two do not change the result |
| GoGit.OwnerSlashName | git/client.go:107-121 | `/owner/name` reads back as that owner and name |
| GoGit.AgreesWithTypeScriptReader | git/client.go:107-121 | wherever the TypeScript reader accepts a github.com path, the Go reader gives the same owner, and the same name up to `.git` |
| GoGit.StarsOrFailure | git/client.go:83-104 | without an owner, the failure value and "unable retrieve owner and name"; otherwise succeeds exactly when the query does, with its count |
| GoGit.GetStarsCountFor | git/client.go:83-104 | a failure always comes with -1; without an owner, the missing-owner error; otherwise the query's count, or its error prefixed "unable fetch repo stars, " |
| GoGit.GuardSkipsQuery | git/client.go:84-87 | for paths with fewer than two segments the query is never consulted |
| GoGit.LastMatch | git/client.go:55-60 | the last file with the given name, or none when no file has it |
| GoGit.LastSha | git/client.go:55-60 | the loop finds the sha of the last matching file, or none when no file matches |
| GoGit.LaterFileWins | git/client.go:55-60 | a later file with the name overrides every earlier one |
| GoGit.OtherFilesIgnored | git/client.go:55-60 | files with other names do not change the sha |
| GoGit.ShaOf | git/client.go:55-60 | the sha sent with the upload; specified by `LaterFileWins` and `OtherFilesIgnored` |
| GoGit.UpdateFile | git/client.go:42-80 | the branch head and its commit are read from `repo`, and on success the upload writes `fileName` in `repo`; a branch or commit lookup failure is reported with its prefix; once both succeed, it succeeds exactly when the upload does, and an upload error is reported as "failed to upload awesome list with stars, " and the error; on success the upload carries the last sha of the file, the content, the branch, "updated at: now" and the fixed committer |
| GoStar.SavedSpec | star/link_processor.go:35-58 | a link is recorded once; only a url whose host is github.com is kept, under the link's id |
| GoStar.SavedIdempotent | star/link_processor.go:35-58 | saving the same link twice is the same as saving it once |
| GoStar.SavedTracked | star/link_processor.go:35-58 | saving keeps every kept url on github.com and under a seen link |
| GoStar.Saved | star/link_processor.go:35-58 | what `SaveLink` does to the two maps; specified by `SavedSpec`, `SavedIdempotent` and `SavedTracked` |
| GoStar.LinkProcessor.constructor | star/link_processor.go:26-32 | a new processor has seen no link |
| GoStar.LinkProcessor.SaveLink | star/link_processor.go:35-58 | the processor state moves by the save specification |
| GoStar.LinkProcessor.AddStarTo | star/link_processor.go:61-73 | a count below 1 adds nothing; otherwise the badge and a space go just before the link |
| GoStar.GetStarCountFor | star/link_processor.go:76-97 | a failure comes with 0; without an owner, the missing-owner error; with one, the query's count and no error when it succeeds, and 0 with "unable fetch repo stars, " and its error when it fails |
| GoStar.SaveAllAppend | star/manager.go:66-80 | saving two runs of links is saving the first, then the second |
| GoStar.SaveAllSeen | star/manager.go:66-80 | every walked link ends up seen, and nothing seen is forgotten |
| GoStar.SaveAllTracked | star/manager.go:66-80 | the walk keeps the link map consistent |
| GoStar.ParsedLinksSeen | star/manager.go:66-80 | after a tree walk, every link of the tree is seen and the map is consistent |
| GoStar.Manager.ParseLinks | star/manager.go:66-80 | the recursive walk saves the tree's links in document order |
| GoStar.StepCases | star/manager.go:91-114 | a fetched count is badged, and cached when the put succeeds; a failed lookup falls back to a cached count, if there is one, and otherwise changes nothing |
| GoStar.StepShows | star/manager.go:91-114 | a fetched positive count becomes that link's badge |
| GoStar.StepKeepsOthers | star/manager.go:91-114 | one step leaves every other link's badge alone |
| GoStar.FetchedCountShown | star/manager.go:91-114 | after the loop, a link whose lookup succeeded with a positive count shows exactly that count |
| GoStar.FailedLookupsKeepCache | star/manager.go:91-114 | when every lookup fails, the cache is unchanged |
| GoStar.OnlyVisitedBadged | star/manager.go:91-114 | a link the loop does not visit gains no badge, and keeps the badge it had |
| GoStar.EveryLinkStarred | star/manager.go:91-114 | when the loop visits every link with a URL exactly once: each one whose lookup succeeds with a positive count shows that count, and every link without a URL keeps its badge or lack of one |
| GoStar.Manager.StarOne | star/manager.go:91-114 | one iteration of the star loop is one step |
| GoStar.StarLoopLooks | star/manager.go:91-114 | looking each link up when its turn comes gives the same state as looking them all up first |
| GoStar.LinksStarred | star/manager.go:91-114 | `EveryLinkStarred` with each answer written as `GetStarCountFor` of its link |
| GoStar.Manager.StarLinks | star/manager.go:91-114 | given an order that lists every link with a URL exactly once, the loop ends in the state the star specification gives for the lookups of all the links; every fetched positive count is shown on its link, and links without a URL keep their badges |
| GoStar.Manager.ReadmeSha | star/manager.go:137-142 | the sha of the last README.md in the commit, or none |
| GoStar.WithAboutText | star/manager.go:58-63 | the about text comes first, followed by the rendered list unchanged |
| GoStar.Manager.constructor | star/manager.go:34-48 | a manager starts with the given cache, no badges and a fresh link processor |
| GoMarkdown.PadSix | markdown/link.go:17 | counts of up to six digits are padded on the left to width 6, longer ones are kept; the digits always end the text |
| GoMarkdown.BadgeShape | markdown/link.go:17 | the badge is `<code>`, one `&nbsp;` per padding space, the digits, then `</code>` |
| GoMarkdown.BadgeText | markdown/link.go:17 | the badge text; specified by `BadgeShape` and `BadgeOfTwoDigits` |
| GoMarkdown.BadgeOfTwoDigits | markdown/link_test.go:25 | a two-digit count gets four `&nbsp;` before its digits |
| GoMarkdown.IndexOfLink | markdown/link.go:20 | the first child that is the link, or none |
| GoMarkdown.WithBadge | markdown/link.go:15-21 | inserting the badge adds exactly two children |
| GoMarkdown.WithBadgeOrder | markdown/link.go:20-21 | the children before the link are kept; the badge, then a space, then the link and everything after it, unchanged |
| GoMarkdown.LinkFoundAt | markdown/link.go:20 | the link's first position is where it is found |
| GoMarkdown.StarLink | markdown/link.go:10-22 | a count below 1 changes nothing; otherwise the block's children become the badged children |
| GoMarkdown.Block.constructor | markdown/link.go:10-22 | a block holds the given children |
| GoAwesome.FirstContents | awesome/awesome_list.go:32-46 | the first "Contents" heading |
| GoAwesome.RemoveChild | awesome/awesome_list.go:44 | removing an absent node changes nothing; removing the first child drops exactly it |
| GoAwesome.RemoveUnusedParts | awesome/awesome_list.go:32-46 | removes exactly the nodes before the first "Contents" heading and keeps the rest in order |
| GoAwesome.KeptOpensWithContents | awesome/awesome_list.go:32-46 | what is kept opens with the Contents heading, with nothing before it, and the removed and kept nodes rebuild the document |
| GoAwesome.ContentsFirstKeepsAll | awesome/awesome_list.go:32-46 | a document that already opens with Contents is kept whole |

## Left out

- Text handling:
  - Whitespace is ASCII whitespace, for trim and `\s`.
  - Lower-casing covers ASCII letters only.
  - `localeCompare` is taken as ordinal order on characters.
- Sort.SortItemsByStars: the engine's sort algorithm is modelled as an insertion sort. That insertion sort is stable, like the engine's sort: `Insert` places an item after every item that compares equal to it. No lemma states stability, so the model does not prove that the two orders agree on items whose sort keys are equal.
- Profiles.Parse: `ignoreHeadings` is merged but never applied by the default parser, and the model does the same (`Profiles.RustKeepsTableOfContents`). The expectation at test/parsers.test.ts:23, that no "table of contents" category appears, therefore does not hold of the code. The model does not guess the intended filtering rule (case, trimming, where skipped items go).
- Config.LoadConfig: the resolved list gets no cache, toc or header setting, as in the code.
- YAML parsing and schema validation are not modelled.
- Path normalisation by `path.join` and `path.resolve`: paths are plain concatenation with `/`.
- External parsers are given as inputs: the Markdown parsers (remark, goldmark) hand over syntax trees, and the URL parsers (WHATWG `URL`, Go `url.Parse`) hand over their parse.
- Side effects become data:
  - File I/O, logging and the network become parameters or ghost logs.
  - `sleep` is recorded as the list of delays.
  - Base64 and JSON quoting in the query are left out.
- Stars.StatsPipeline.FetchRepoStatsWithCache: the clock is read once per run. The code re-reads `Date.now` for each cache write, so rows written in one run could carry different times.
- Stars.StatsPipeline.FetchRepoStatsWithCache: `chunkArray` (src/utils/arrays.ts) is not part of this model. Batches are taken to be contiguous slices, in order, of at most the batch size. For that reason the method requires a positive batch size.
- Stars.StatsPipeline.RunBatches: limiter tasks run one after another, in start order. Other interleavings of concurrent batches are not modelled. Batches have disjoint keys (`Stars.BatchesDisjoint`), but the model does not prove that every interleaving gives the same result.
- Workflow.RunWorkflow: follows the corrected line 60 of src/workflow.ts (`Workflow.CacheMaxAge`: the TTL when a cache is configured, otherwise the fetcher's default). As written, the line throws a TypeError for every list without `cache`, which includes every list `loadConfig` returns (see "Findings"; `Workflow.CacheMaxAgeAsWritten` models that line as written).
- Version skew between files:
  - stars.ts calls `getEntry` and a `set` that takes a commit time, while sqlite.ts shows `get` and a two-argument `set`. The model's store offers both, with rows carrying the commit time.
  - workflow.ts imports `fetchStarsWithCache`, which is not in stars.ts. `Workflow.RunWorkflow` takes the fetched star map as a parameter.
- GoStar.Manager.StarLinks: Go map iteration order is given as an `order` parameter, required to list every link with a URL exactly once.
- GoStar.Manager.StarLinks: badges are recorded per link id rather than edited into the tree.
- GoStar.Manager.StarLinks: DynamoDB errors other than a missing key are not modelled; whether a put succeeds is a parameter.
- GoAwesome.RemoveChild: goldmark removes a node by identity; the model removes the first equal node.
- GoAwesome.RemoveUnusedParts: requires a "Contents" heading, because the code dereferences nil without one.
- `StarList` (star/manager.go) is not one method. Its pieces (link walk, star loop, README sha, about text) are modelled separately; rendering the Go tree back to Markdown and the upload are not.
- awesome/donwloader.go, function/main.go, src/index.ts (the CLI) and src/config/schema.ts are not part of this model.

## Findings

| source | as written | input that shows it | evidently intended | confidence | as-written member | corrected member |
|---|---|---|---|---|---|---|
| src/parsers/index.ts:4-8 | `createParserRegistry` registers only the default parser | `get("awesome-rust")` as in test/parsers.test.ts:17-18 gives "Unknown parser: awesome-rust" | the profiles awesome-rust, awesome-zig and awesome-postgres are registered too | not executed | Registry.ProfilesUnknown | Registry.FullRegistryServesAll |
| src/workflow.ts:60 | reads `list.cache.ttlSeconds`, but `loadConfig` (src/config/index.ts:62-81) never sets `cache` | any list returned by `loadConfig`: `list.cache` is undefined and the property read throws | use the TTL when a cache is configured, and otherwise the fetcher's default | not executed | Workflow.LoadedListsBreakLineSixty | Workflow.MissingCacheUsesDefault |
