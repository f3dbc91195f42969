/**
 * The parsed shape of an awesome list (src/parsers/types.ts): a list has an
 * optional title, an optional header, and categories of items in document
 * order. An item's `stars` is absent until the workflow attaches a count.
 */
module ListTypes {
  import opened Wrappers

  datatype ParsedItem = ParsedItem(name: string, url: string, description: string, stars: Option<int>)

  /** A category as the parser builds it: a title and its items (the declared `depth` is never set). */
  datatype ParsedCategory = ParsedCategory(title: string, items: seq<ParsedItem>)

  datatype ParsedList = ParsedList(title: Option<string>, header: Option<string>, toc: Option<bool>,
                                   categories: seq<ParsedCategory>)

  /** Parser options: both fields may be left out. */
  datatype ParserOptions = ParserOptions(headingDepths: Option<seq<int>>, ignoreHeadings: Option<seq<string>>)

  /** The names of items, in order. */
  function Names(items: seq<ParsedItem>): (r: seq<string>)
    ensures |r| == |items|
    ensures forall i :: 0 <= i < |items| ==> r[i] == items[i].name
  {
    seq(|items|, i requires 0 <= i < |items| => items[i].name)
  }
}
