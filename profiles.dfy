/**
 * Parser profiles (src/parsers/profiles.ts): a profile is the default parser
 * run with options merged over the profile's own defaults.
 *
 * A parser is a value: the default parser, or a profile carrying its id and
 * defaults. `parse` dispatches on it.
 */
module Profiles {
  import opened Wrappers
  import opened ListTypes
  import DefaultParser
  import Text

  datatype Parser = Default | Profile(profileId: string, defaults: ParserOptions)
  {
    /** The id the registry files the parser under. */
    function Id(): string {
      match this
      case Default => "default"
      case Profile(id, _) => id
    }
  }

  /**
   * `mergeIgnoreHeadings`: missing exactly when both sides are missing,
   * otherwise the defaults followed by the overrides.
   */
  function MergeIgnoreHeadings(defaults: Option<seq<string>>, overrides: Option<seq<string>>): (r: Option<seq<string>>)
    ensures r.None? <==> defaults.None? && overrides.None?
    ensures r.Some? ==> |r.value| == |defaults.GetOr([])| + |overrides.GetOr([])|
    ensures r.Some? ==> r.value[..|defaults.GetOr([])|] == defaults.GetOr([])
                        && r.value[|defaults.GetOr([])|..] == overrides.GetOr([])
  {
    if defaults.None? && overrides.None? then None
    else
      var d := defaults.GetOr([]);
      var o := overrides.GetOr([]);
      assert (d + o)[..|d|] == d && (d + o)[|d|..] == o;
      Some(d + o)
  }

  /** `mergeOptions`: the override's heading depths win when given. */
  function MergeOptions(defaults: ParserOptions, overrides: ParserOptions): (r: ParserOptions)
    ensures overrides.headingDepths.Some? ==> r.headingDepths == overrides.headingDepths
    ensures overrides.headingDepths.None? ==> r.headingDepths == defaults.headingDepths
    ensures r.ignoreHeadings == MergeIgnoreHeadings(defaults.ignoreHeadings, overrides.ignoreHeadings)
  {
    ParserOptions(
      if overrides.headingDepths.Some? then overrides.headingDepths else defaults.headingDepths,
      MergeIgnoreHeadings(defaults.ignoreHeadings, overrides.ignoreHeadings))
  }

  const AwesomeRust := Profile("awesome-rust", ParserOptions(Some([2, 3]), Some(["Table of contents"])))
  const AwesomeZig := Profile("awesome-zig", ParserOptions(Some([2, 3]), Some(["Contents"])))
  const AwesomePostgres := Profile("awesome-postgres", ParserOptions(Some([3]), Some(["Contents"])))

  /** The options the default parser sees when `parser` parses with `options`. */
  function EffectiveOptions(parser: Parser, options: ParserOptions): ParserOptions {
    match parser
    case Default => options
    case Profile(_, defaults) => MergeOptions(defaults, options)
  }

  /** What `parser.parse(markdown, options)` returns. */
  function ParseWith(parser: Parser, nodes: seq<DefaultParser.MdNode>, options: ParserOptions): ParsedList {
    DefaultParser.ParseDocument(nodes, EffectiveOptions(parser, options))
  }

  /** `parser.parse`: a profile hands the merged options to the default parser. */
  method Parse(parser: Parser, nodes: seq<DefaultParser.MdNode>, options: ParserOptions) returns (list: ParsedList)
    ensures parser.Default? ==> list == DefaultParser.ParseDocument(nodes, options)
    ensures parser.Profile? ==> list == DefaultParser.ParseDocument(nodes, MergeOptions(parser.defaults, options))
    ensures list == ParseWith(parser, nodes, options)
  {
    var merged := if parser.Profile? then MergeOptions(parser.defaults, options) else options;
    list := DefaultParser.Parse(nodes, merged);
  }

  /** Only the heading depths reach the parse: two option sets that agree on them parse alike. */
  lemma OnlyDepthsMatter(nodes: seq<DefaultParser.MdNode>, a: ParserOptions, b: ParserOptions)
    requires DefaultParser.HeadingDepths(a) == DefaultParser.HeadingDepths(b)
    ensures DefaultParser.ParseDocument(nodes, a) == DefaultParser.ParseDocument(nodes, b)
  {
  }

  /**
   * Without an override, a profile's categories are exactly the headings at
   * the profile's own depths; for awesome-postgres that is depth 3 alone.
   */
  lemma ProfileDepths(parser: Parser, nodes: seq<DefaultParser.MdNode>, options: ParserOptions)
    requires parser.Profile? && parser.defaults.headingDepths.Some? && options.headingDepths.None?
    ensures DefaultParser.Titles(ParseWith(parser, nodes, options).categories)
            == DefaultParser.CategoryHeadings(nodes, parser.defaults.headingDepths.value)
  {
    DefaultParser.CategoriesFollowHeadings(nodes, parser.defaults.headingDepths.value);
  }

  /** The postgres profile opens categories at depth-3 headings only. */
  lemma PostgresDepthThreeOnly(nodes: seq<DefaultParser.MdNode>, options: ParserOptions)
    requires options.headingDepths.None?
    ensures DefaultParser.Titles(ParseWith(AwesomePostgres, nodes, options).categories)
            == DefaultParser.CategoryHeadings(nodes, [3])
  {
    ProfileDepths(AwesomePostgres, nodes, options);
  }

  /**
   * `ignoreHeadings` is merged but never applied: under the awesome-rust
   * profile a "Table of contents" heading at depth 2 still opens a category.
   */
  lemma RustKeepsTableOfContents(options: ParserOptions)
    requires options.headingDepths.None?
    ensures ParseWith(AwesomeRust, [DefaultParser.Heading(2, "Table of contents")], options).categories
            == [ParsedCategory("Table of contents", [])]
  {
    var nodes := [DefaultParser.Heading(2, "Table of contents")];
    assert nodes[..0] == [];
    assert Text.Trim("Table of contents") == "Table of contents" by {
      Text.TrimOfTrimmed("Table of contents");
    }
  }
}
