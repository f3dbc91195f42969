/**
 * The default parser (src/parsers/default.ts) over an abstract markdown
 * tree. The remark parser and `mdast-util-to-string` are outside the model:
 * a document is the sequence of its top-level nodes, a heading carries its
 * depth and its text, a list carries its items, and a list item carries the
 * links `visit` finds in it (in visit order) and the text of its first
 * paragraph child, if any.
 *
 * `parse`, `extractListItems` and `extractItem` are loops over mutable
 * variables and are methods, each proved to compute a specification
 * function; `extractDescription` and `stripSeparator` are functions.
 */
module DefaultParser {
  import opened Wrappers
  import opened Text
  import opened ListTypes

  datatype Link = Link(url: string, text: string)

  datatype ListItem = ListItem(links: seq<Link>, paragraph: Option<string>)

  /** A top-level node of the document. */
  datatype MdNode = Heading(depth: int, text: string) | List(items: seq<ListItem>) | Other

  const DefaultHeadingDepths: seq<int> := [2, 3]

  /** `options.headingDepths ?? DEFAULT_HEADING_DEPTHS`. */
  function HeadingDepths(options: ParserOptions): (r: seq<int>)
    ensures options.headingDepths.None? ==> r == [2, 3]
    ensures options.headingDepths.Some? ==> r == options.headingDepths.value
  {
    options.headingDepths.GetOr(DefaultHeadingDepths)
  }

  // ---- stripSeparator and extractDescription ----

  predicate IsSeparator(c: char) {
    c == '-' || c == ':' || c == '|'
  }

  /** The length of the run of `-`, `:` and `|` that starts `v`. */
  function SeparatorRun(v: string): (n: nat)
    ensures n <= |v|
    ensures forall i :: 0 <= i < n ==> IsSeparator(v[i])
    ensures n < |v| ==> !IsSeparator(v[n])
  {
    if v != [] && IsSeparator(v[0]) then 1 + SeparatorRun(v[1..]) else 0
  }

  /**
   * `stripSeparator`: a leading run of separators and the whitespace after it
   * are replaced away, then the rest is trimmed.
   */
  function StripSeparator(v: string): string {
    Trim(v[SeparatorRun(v)..])
  }

  /** A value that does not start with a separator is only trimmed. */
  lemma StripNoSeparator(v: string)
    requires v == [] || !IsSeparator(v[0])
    ensures StripSeparator(v) == Trim(v)
  {
  }

  /** Stripping leaves trimmed text taken from after the separator run. */
  lemma StripSeparatorSuffix(v: string)
    ensures IsTrimmed(StripSeparator(v))
    ensures Contains(v, StripSeparator(v))
  {
    var n := SeparatorRun(v);
    ContainsSuffix(v, n);
    ContainsTrim(v[n..]);
    ContainsTrans(v, v[n..], Trim(v[n..]));
  }

  /** JavaScript's line terminators, which `.` does not match. */
  predicate IsLineTerminator(c: char) {
    c == '\n' || c == '\r' || c == '\U{2028}' || c == '\U{2029}'
  }

  /** `/\s[-:]\s(.+)/` matches at position `i`. */
  predicate MatchAt(text: string, i: nat) {
    && i + 3 < |text|
    && IsSpace(text[i]) && (text[i + 1] == '-' || text[i + 1] == ':') && IsSpace(text[i + 2])
    && !IsLineTerminator(text[i + 3])
  }

  /** Where the regular expression matches first, searching from `from` on. */
  function FirstMatch(text: string, from: nat): (r: Option<nat>)
    ensures r.Some? ==> from <= r.value && MatchAt(text, r.value)
                        && forall j :: from <= j < r.value ==> !MatchAt(text, j)
    ensures r.None? ==> forall j :: from <= j ==> !MatchAt(text, j)
    decreases |text| - from
  {
    if from + 3 >= |text| then None
    else if MatchAt(text, from) then Some(from)
    else FirstMatch(text, from + 1)
  }

  /** The length of `(.+)`'s greedy capture: up to the first line terminator. */
  function LineLength(s: string): (n: nat)
    ensures n <= |s|
    ensures forall i :: 0 <= i < n ==> !IsLineTerminator(s[i])
    ensures n < |s| ==> IsLineTerminator(s[n])
  {
    if s == [] || IsLineTerminator(s[0]) then 0 else 1 + LineLength(s[1..])
  }

  /**
   * `extractDescription`: no paragraph or a blank one gives "". A paragraph
   * that starts, ignoring ASCII case, with the link text gives what follows
   * the link text, separator stripped. Otherwise the first ` - ` or ` : `
   * gives the rest of its line, trimmed; failing that, "".
   */
  function ExtractDescription(paragraph: Option<string>, linkText: string): string {
    if paragraph.None? then ""
    else
      var text := Trim(paragraph.value);
      if text == "" then ""
      else if StartsWith(ToLower(text), ToLower(linkText)) then
        StripSeparator(Trim(text[|linkText|..]))
      else
        RestOfLine(text)
  }

  /** Whatever the case, the description is trimmed and taken from the paragraph. */
  lemma DescriptionFromParagraph(paragraph: Option<string>, linkText: string)
    ensures IsTrimmed(ExtractDescription(paragraph, linkText))
    ensures paragraph.Some? ==> Contains(paragraph.value, ExtractDescription(paragraph, linkText))
  {
    if paragraph.Some? {
      var raw := paragraph.value;
      var text := Trim(raw);
      var d := ExtractDescription(paragraph, linkText);
      ContainsTrim(raw);
      if text == "" {
        ContainsSlice(raw, 0, 0);
      } else {
        if StartsWith(ToLower(text), ToLower(linkText)) {
          AfterNameInText(text, linkText);
        } else {
          RestOfLineInText(text);
        }
        ContainsTrans(raw, text, d);
      }
    }
  }

  /** The description after the link text is trimmed and lies inside the text. */
  lemma AfterNameInText(text: string, linkText: string)
    requires |linkText| <= |text|
    ensures IsTrimmed(StripSeparator(Trim(text[|linkText|..])))
    ensures Contains(text, StripSeparator(Trim(text[|linkText|..])))
  {
    var after := text[|linkText|..];
    var rest := Trim(after);
    ContainsTrim(after);
    ContainsSuffix(text, |linkText|);
    ContainsTrans(text, after, rest);
    StripSeparatorSuffix(rest);
    ContainsTrans(text, rest, StripSeparator(rest));
  }

  /** The rest of the line after the first separator, trimmed, or "". */
  function RestOfLine(text: string): string {
    var m := FirstMatch(text, 0);
    if m.None? then ""
    else
      var capture := text[m.value + 3..];
      Trim(capture[..LineLength(capture)])
  }

  /** The rest of the line is trimmed and lies inside the text. */
  lemma RestOfLineInText(text: string)
    ensures IsTrimmed(RestOfLine(text))
    ensures Contains(text, RestOfLine(text))
  {
    var m := FirstMatch(text, 0);
    if m.None? {
      ContainsSlice(text, 0, 0);
    } else {
      var start := m.value + 3;
      var capture := text[start..];
      var n := LineLength(capture);
      assert capture[..n] == text[start..start + n];
      ContainsSlice(text, start, start + n);
      ContainsTrim(capture[..n]);
      ContainsTrans(text, capture[..n], Trim(capture[..n]));
    }
  }

  /** With no match of the name and no ` - ` or ` : `, the description is empty. */
  lemma NoSeparatorNoDescription(paragraph: string, linkText: string)
    requires !StartsWith(ToLower(Trim(paragraph)), ToLower(linkText))
    requires forall j: nat :: !MatchAt(Trim(paragraph), j)
    ensures ExtractDescription(Some(paragraph), linkText) == ""
  {
    var m := FirstMatch(Trim(paragraph), 0);
    assert m.None?;
  }

  // ---- extractItem and extractListItems ----

  /** The first link whose url is not empty, the one `visit` keeps. */
  function FirstUrl(links: seq<Link>): (r: Option<nat>)
    ensures r.Some? ==> r.value < |links| && links[r.value].url != ""
                        && forall j :: 0 <= j < r.value ==> links[j].url == ""
    ensures r.None? ==> forall j :: 0 <= j < |links| ==> links[j].url == ""
  {
    if links == [] then None
    else if links[0].url != "" then Some(0)
    else
      var r := FirstUrl(links[1..]);
      if r.None? then None else Some(r.value + 1)
  }

  /** The item a list item yields, if any. */
  function ItemOf(li: ListItem): Option<ParsedItem> {
    var k := FirstUrl(li.links);
    if k.None? then None
    else
      var name := Trim(li.links[k.value].text);
      if name == "" then None
      else Some(ParsedItem(name, li.links[k.value].url, ExtractDescription(li.paragraph, name), None))
  }

  /**
   * `extractItem`: the first link with a non-empty url wins; the item is
   * named by that link's trimmed text, and there is none when that text is
   * blank or no link has a url.
   */
  method ExtractItem(li: ListItem) returns (r: Option<ParsedItem>)
    ensures r == ItemOf(li)
    ensures r.Some? <==> exists k :: 0 <= k < |li.links| && li.links[k].url != ""
                                     && (forall j :: 0 <= j < k ==> li.links[j].url == "")
                                     && Trim(li.links[k].text) != ""
    ensures r.Some? ==> r.value.name != "" && IsTrimmed(r.value.name) && r.value.url != "" && r.value.stars.None?
  {
    var linkUrl, linkText := VisitLinks(li.links);
    VisitedFirstUrl(li.links);
    if linkUrl.None? || linkUrl.value == "" || linkText.None? || linkText.value == "" {
      r := None;
    } else {
      var description := ExtractDescription(li.paragraph, linkText.value);
      r := Some(ParsedItem(linkText.value, linkUrl.value, description, None));
    }
    ItemOfSpec(li);
  }

  /**
   * The `visit` of the links of a list item: the url and trimmed text of the
   * first link with a url; until one is found the last url seen, which is
   * empty.
   */
  method VisitLinks(links: seq<Link>) returns (linkUrl: Option<string>, linkText: Option<string>)
    ensures (linkUrl, linkText) == Visited(links)
  {
    linkUrl, linkText := None, None;
    var i := 0;
    while i < |links|
      invariant 0 <= i <= |links|
      invariant (linkUrl, linkText) == Visited(links[..i])
    {
      assert links[..i + 1][..i] == links[..i];
      if !(linkUrl.Some? && linkUrl.value != "") {
        linkUrl := Some(links[i].url);
        linkText := Some(Trim(links[i].text));
      }
      i := i + 1;
    }
    assert links[..i] == links;
  }

  /** What `visit` leaves behind after the links: each link overwrites the choice until one has a url. */
  function Visited(links: seq<Link>): (Option<string>, Option<string>) {
    if links == [] then (None, None)
    else
      var prev := Visited(links[..|links| - 1]);
      var last := links[|links| - 1];
      if prev.0.Some? && prev.0.value != "" then prev else (Some(last.url), Some(Trim(last.text)))
  }

  /** The choice `visit` ends with is the first link with a url; without one, no url or an empty one. */
  lemma {:induction false} VisitedFirstUrl(links: seq<Link>)
    ensures FirstUrl(links).Some? ==>
              Visited(links) == (Some(links[FirstUrl(links).value].url), Some(Trim(links[FirstUrl(links).value].text)))
    ensures FirstUrl(links).None? ==> Visited(links).0.None? || Visited(links).0 == Some("")
  {
    if links != [] {
      var n := |links| - 1;
      VisitedFirstUrl(links[..n]);
      FirstUrlSnoc(links, n);
      assert links[..n + 1] == links;
    }
  }

  /** A list item yields an item exactly when its first link with a url has non-blank text. */
  lemma ItemOfSpec(li: ListItem)
    ensures ItemOf(li).Some? <==> exists k :: 0 <= k < |li.links| && li.links[k].url != ""
                                             && (forall j :: 0 <= j < k ==> li.links[j].url == "")
                                             && Trim(li.links[k].text) != ""
    ensures ItemOf(li).Some? ==> var it := ItemOf(li).value;
                                 it.name != "" && IsTrimmed(it.name) && it.url != "" && it.stars.None?
  {
    var f := FirstUrl(li.links);
    if f.Some? {
      var k0 := f.value;
      forall k | 0 <= k < |li.links| && li.links[k].url != "" && (forall j :: 0 <= j < k ==> li.links[j].url == "")
        ensures k == k0
      {
      }
      assert ItemOf(li).Some? <==> Trim(li.links[k0].text) != "";
    }
  }

  /** Looking at one more link: the first url found so far stays first. */
  lemma FirstUrlSnoc(links: seq<Link>, i: nat)
    requires i < |links|
    ensures FirstUrl(links[..i]).Some? ==> FirstUrl(links[..i + 1]) == FirstUrl(links[..i])
    ensures FirstUrl(links[..i]).None? && links[i].url != "" ==> FirstUrl(links[..i + 1]) == Some(i)
    ensures FirstUrl(links[..i]).None? && links[i].url == "" ==> FirstUrl(links[..i + 1]).None?
  {
    var a := FirstUrl(links[..i]);
    var b := FirstUrl(links[..i + 1]);
    assert forall j :: 0 <= j < i ==> links[..i + 1][j] == links[..i][j];
    assert links[..i + 1][i] == links[i];
  }

  /** The items a list yields, in order. */
  function ItemsOf(items: seq<ListItem>): (r: seq<ParsedItem>)
    ensures |r| <= |items|
  {
    if items == [] then []
    else
      var front := ItemsOf(items[..|items| - 1]);
      var last := ItemOf(items[|items| - 1]);
      if last.Some? then front + [last.value] else front
  }

  /** Every item of a list has a name and a url. */
  lemma {:induction false} ItemsNamed(items: seq<ListItem>)
    ensures forall i :: 0 <= i < |ItemsOf(items)| ==> ItemsOf(items)[i].name != "" && ItemsOf(items)[i].url != ""
  {
    if items != [] {
      var n := |items| - 1;
      var front, last := ItemsOf(items[..n]), ItemOf(items[n]);
      ItemsNamed(items[..n]);
      if last.Some? {
        ItemOfSpec(items[n]);
        var r := front + [last.value];
        assert ItemsOf(items) == r;
        forall i | 0 <= i < |r| ensures r[i].name != "" && r[i].url != "" {
          if i < |front| {
            assert r[i] == front[i];
          }
        }
      }
    }
  }

  /** `extractListItems`: each list item that yields an item pushes it. */
  method ExtractListItems(items: seq<ListItem>) returns (results: seq<ParsedItem>)
    ensures results == ItemsOf(items)
  {
    results := [];
    var i := 0;
    while i < |items|
      invariant 0 <= i <= |items|
      invariant results == ItemsOf(items[..i])
    {
      assert items[..i + 1][..i] == items[..i];
      var item := ExtractItem(items[i]);
      if item.Some? {
        results := results + [item.value];
      }
      i := i + 1;
    }
    assert items[..i] == items;
  }

  // ---- parse ----

  /** The loop's variables: the title so far and the categories so far. */
  datatype ParseState = ParseState(title: Option<string>, categories: seq<ParsedCategory>)

  /**
   * One node of the document. A depth-1 heading sets the title while it is
   * missing or empty; a heading at a configured depth opens a new category
   * (`currentCategory` is always the last one pushed); a list adds its items
   * to the open category, and is dropped when none is open.
   */
  function Step(s: ParseState, node: MdNode, depths: seq<int>): ParseState {
    match node
    case Heading(depth, raw) =>
      var text := Trim(raw);
      var title := if depth == 1 && (s.title.None? || s.title.value == "") then Some(text) else s.title;
      var categories := if depth in depths then s.categories + [ParsedCategory(text, [])] else s.categories;
      ParseState(title, categories)
    case List(items) =>
      if s.categories == [] then s
      else
        var n := |s.categories| - 1;
        var found := ItemsOf(items);
        if |found| > 0 then
          s.(categories := s.categories[n := s.categories[n].(items := s.categories[n].items + found)])
        else s
    case Other => s
  }

  /** The state after the loop has gone through `nodes`, starting from `s`. */
  function RunFrom(s: ParseState, nodes: seq<MdNode>, depths: seq<int>): ParseState {
    if nodes == [] then s else Step(RunFrom(s, nodes[..|nodes| - 1], depths), nodes[|nodes| - 1], depths)
  }

  const Start := ParseState(None, [])

  /** What `parse` returns for a document and its options. */
  function ParseDocument(nodes: seq<MdNode>, options: ParserOptions): ParsedList {
    var s := RunFrom(Start, nodes, HeadingDepths(options));
    ParsedList(s.title, None, None, s.categories)
  }

  /** `defaultParser.parse`, as the loop over the top-level nodes. */
  method Parse(nodes: seq<MdNode>, options: ParserOptions) returns (list: ParsedList)
    ensures list == ParseDocument(nodes, options)
  {
    var headingDepths := HeadingDepths(options);
    var categories: seq<ParsedCategory> := [];
    var hasCurrent := false;
    var title: Option<string> := None;
    var i := 0;
    while i < |nodes|
      invariant 0 <= i <= |nodes|
      invariant ParseState(title, categories) == RunFrom(Start, nodes[..i], headingDepths)
      invariant hasCurrent <==> categories != []
    {
      RunFromSnoc(Start, nodes, i, headingDepths);
      title, categories, hasCurrent := ParseNode(title, categories, hasCurrent, nodes[i], headingDepths);
      i := i + 1;
    }
    assert nodes[..i] == nodes;
    list := ParsedList(title, None, None, categories);
  }

  /** The body of the loop of `parse`, for one top-level node. */
  method ParseNode(title: Option<string>, categories: seq<ParsedCategory>, hasCurrent: bool, node: MdNode, headingDepths: seq<int>)
    returns (title': Option<string>, categories': seq<ParsedCategory>, hasCurrent': bool)
    requires hasCurrent <==> categories != []
    ensures ParseState(title', categories') == Step(ParseState(title, categories), node, headingDepths)
    ensures hasCurrent' <==> categories' != []
  {
    title', categories', hasCurrent' := title, categories, hasCurrent;
    if node.Heading? {
      var text := Trim(node.text);
      if node.depth == 1 && (title.None? || title.value == "") {
        title' := Some(text);
      }
      if node.depth in headingDepths {
        categories' := categories + [ParsedCategory(text, [])];
        hasCurrent' := true;
      }
    } else if node.List? && hasCurrent {
      var items := ExtractListItems(node.items);
      if |items| > 0 {
        var n := |categories| - 1;
        categories' := categories[n := categories[n].(items := categories[n].items + items)];
      }
    }
  }

  /** Running over one more node is one more Step. */
  lemma RunFromSnoc(s: ParseState, nodes: seq<MdNode>, i: nat, depths: seq<int>)
    requires i < |nodes|
    ensures RunFrom(s, nodes[..i + 1], depths) == Step(RunFrom(s, nodes[..i], depths), nodes[i], depths)
  {
    assert nodes[..i + 1][..i] == nodes[..i];
  }

  // ---- what parse promises ----

  /** Running over two pieces is running over the first, then the second. */
  lemma {:induction false} RunFromAppend(s: ParseState, a: seq<MdNode>, b: seq<MdNode>, depths: seq<int>)
    ensures RunFrom(s, a + b, depths) == RunFrom(RunFrom(s, a, depths), b, depths)
  {
    if b == [] {
      assert a + b == a;
    } else {
      assert (a + b)[..|a + b| - 1] == a + b[..|b| - 1];
      RunFromAppend(s, a, b[..|b| - 1], depths);
    }
  }

  /** The trimmed texts of the headings at a configured depth, in document order. */
  function CategoryHeadings(nodes: seq<MdNode>, depths: seq<int>): seq<string> {
    if nodes == [] then []
    else
      var last := nodes[|nodes| - 1];
      CategoryHeadings(nodes[..|nodes| - 1], depths)
        + (if last.Heading? && last.depth in depths then [Trim(last.text)] else [])
  }

  function Titles(categories: seq<ParsedCategory>): (r: seq<string>)
    ensures |r| == |categories|
    ensures forall i :: 0 <= i < |categories| ==> r[i] == categories[i].title
  {
    seq(|categories|, i requires 0 <= i < |categories| => categories[i].title)
  }

  /**
   * Categories follow the document: one per heading at a configured depth,
   * titled with its trimmed text, in order; no other node opens one.
   */
  lemma {:induction false} CategoriesFollowHeadings(nodes: seq<MdNode>, depths: seq<int>)
    ensures Titles(RunFrom(Start, nodes, depths).categories) == CategoryHeadings(nodes, depths)
  {
    if nodes != [] {
      var n := |nodes| - 1;
      CategoriesFollowHeadings(nodes[..n], depths);
      StepTitles(RunFrom(Start, nodes[..n], depths), nodes[n], depths);
    }
  }

  /** One node adds a title exactly when it is a heading at a configured depth. */
  lemma StepTitles(s: ParseState, node: MdNode, depths: seq<int>)
    ensures Titles(Step(s, node, depths).categories)
            == Titles(s.categories) + (if node.Heading? && node.depth in depths then [Trim(node.text)] else [])
  {
    match node
    case Heading(depth, raw) =>
      if depth in depths {
        TitlesSnoc(s.categories, ParsedCategory(Trim(raw), []));
      }
    case List(items) =>
      if s.categories != [] {
        var n := |s.categories| - 1;
        var c := s.categories[n];
        TitlesUpdate(s.categories, n, c.(items := c.items + ItemsOf(items)));
      }
    case _ =>
  }

  lemma TitlesSnoc(cs: seq<ParsedCategory>, c: ParsedCategory)
    ensures Titles(cs + [c]) == Titles(cs) + [c.title]
  {
  }

  /** Filling a category keeps every title. */
  lemma TitlesUpdate(cs: seq<ParsedCategory>, n: nat, c: ParsedCategory)
    requires n < |cs| && c.title == cs[n].title
    ensures Titles(cs[n := c]) == Titles(cs)
  {
  }

  /** Nodes that are not headings leave the starting state alone: there is no category to fill. */
  lemma {:induction false} NoHeadingNoChange(nodes: seq<MdNode>, depths: seq<int>)
    requires forall i :: 0 <= i < |nodes| ==> !nodes[i].Heading?
    ensures RunFrom(Start, nodes, depths) == Start
  {
    if nodes != [] {
      NoHeadingNoChange(nodes[..|nodes| - 1], depths);
    }
  }

  /** Lists (and anything else) before the first heading are ignored. */
  lemma ListsBeforeHeadingsIgnored(before: seq<MdNode>, rest: seq<MdNode>, options: ParserOptions)
    requires forall i :: 0 <= i < |before| ==> !before[i].Heading?
    ensures ParseDocument(before + rest, options) == ParseDocument(rest, options)
  {
    var depths := HeadingDepths(options);
    RunFromAppend(Start, before, rest, depths);
    NoHeadingNoChange(before, depths);
  }

  /** The items a node contributes to the open category. */
  function NodeItems(node: MdNode): seq<ParsedItem> {
    if node.List? then ItemsOf(node.items) else []
  }

  /** The items of the lists among `nodes`, list after list, each list's items in order. */
  function SectionItems(nodes: seq<MdNode>): seq<ParsedItem> {
    if nodes == [] then [] else SectionItems(nodes[..|nodes| - 1]) + NodeItems(nodes[|nodes| - 1])
  }

  /** No heading at a configured depth, so no node of `section` opens a category. */
  predicate NoCategoryHeading(section: seq<MdNode>, depths: seq<int>) {
    forall m :: 0 <= m < |section| ==> !(section[m].Heading? && section[m].depth in depths)
  }

  /** The categories with `extra` appended to the items of the last one. */
  function AddToLast(cats: seq<ParsedCategory>, extra: seq<ParsedItem>): seq<ParsedCategory>
    requires cats != []
  {
    cats[|cats| - 1 := cats[|cats| - 1].(items := cats[|cats| - 1].items + extra)]
  }

  lemma AddToLastTwice(cats: seq<ParsedCategory>, a: seq<ParsedItem>, b: seq<ParsedItem>)
    requires cats != []
    ensures AddToLast(AddToLast(cats, a), b) == AddToLast(cats, a + b)
  {
    var n := |cats| - 1;
    assert (cats[n].items + a) + b == cats[n].items + (a + b);
  }

  /** Filling a category that was just opened empty gives it exactly the new items. */
  lemma AddToFresh(cats: seq<ParsedCategory>, title: string, extra: seq<ParsedItem>)
    ensures AddToLast(cats + [ParsedCategory(title, [])], extra) == cats + [ParsedCategory(title, extra)]
  {
    assert [] + extra == extra;
  }

  /** A node other than a configured heading adds its list's items, if any, to the open category. */
  lemma StepFillsLast(s: ParseState, node: MdNode, depths: seq<int>)
    requires s.categories != [] && !(node.Heading? && node.depth in depths)
    ensures Step(s, node, depths).categories == AddToLast(s.categories, NodeItems(node))
  {
    var n := |s.categories| - 1;
    if !node.List? || |ItemsOf(node.items)| == 0 {
      assert s.categories[n].items + NodeItems(node) == s.categories[n].items;
      assert s.categories[n := s.categories[n]] == s.categories;
    }
  }

  /** Without a new category, the nodes only add their lists' items to the open (last) category. */
  lemma {:induction false} FillLast(s: ParseState, section: seq<MdNode>, depths: seq<int>)
    requires s.categories != [] && NoCategoryHeading(section, depths)
    ensures RunFrom(s, section, depths).categories == AddToLast(s.categories, SectionItems(section))
  {
    if section == [] {
      var n := |s.categories| - 1;
      assert s.categories[n].items + [] == s.categories[n].items;
      assert s.categories[n := s.categories[n]] == s.categories;
    } else {
      var init := section[..|section| - 1];
      var last := section[|section| - 1];
      assert NoCategoryHeading(init, depths) by {
        forall m | 0 <= m < |init| ensures !(init[m].Heading? && init[m].depth in depths) {
          assert init[m] == section[m];
        }
      }
      FillLast(s, init, depths);
      var before := RunFrom(s, init, depths);
      StepFillsLast(before, last, depths);
      AddToLastTwice(s.categories, SectionItems(init), NodeItems(last));
    }
  }

  /** A category that is no longer the last one is never changed again. */
  lemma {:induction false} ClosedCategoryKept(s: ParseState, nodes: seq<MdNode>, depths: seq<int>, k: nat)
    requires k + 1 < |s.categories|
    ensures k + 1 < |RunFrom(s, nodes, depths).categories|
    ensures RunFrom(s, nodes, depths).categories[k] == s.categories[k]
  {
    if nodes != [] {
      ClosedCategoryKept(s, nodes[..|nodes| - 1], depths, k);
    }
  }

  /** A configured heading at `i` opens category number `k`, after those of the headings before it. */
  lemma HeadingOpens(nodes: seq<MdNode>, i: nat, depths: seq<int>)
    requires i < |nodes| && nodes[i].Heading? && nodes[i].depth in depths
    ensures RunFrom(Start, nodes[..i + 1], depths).categories
            == RunFrom(Start, nodes[..i], depths).categories + [ParsedCategory(Trim(nodes[i].text), [])]
    ensures |RunFrom(Start, nodes[..i], depths).categories| == |CategoryHeadings(nodes[..i], depths)|
  {
    CategoriesFollowHeadings(nodes[..i], depths);
    RunFromSnoc(Start, nodes, i, depths);
  }

  /** Up to the next configured heading, the category opened at `i` is the last one and holds the section's items. */
  lemma SectionFilled(nodes: seq<MdNode>, i: nat, j: nat, depths: seq<int>)
    requires i < j <= |nodes| && nodes[i].Heading? && nodes[i].depth in depths
    requires NoCategoryHeading(nodes[i + 1..j], depths)
    ensures var cats := RunFrom(Start, nodes[..j], depths).categories;
            && |cats| == |CategoryHeadings(nodes[..i], depths)| + 1
            && cats[|cats| - 1] == ParsedCategory(Trim(nodes[i].text), SectionItems(nodes[i + 1..j]))
  {
    var section := nodes[i + 1..j];
    var title := Trim(nodes[i].text);
    var items := SectionItems(section);
    HeadingOpens(nodes, i, depths);
    var before := RunFrom(Start, nodes[..i], depths).categories;
    var atHeading := RunFrom(Start, nodes[..i + 1], depths);
    assert atHeading.categories == before + [ParsedCategory(title, [])];
    FillLast(atHeading, section, depths);
    AddToFresh(before, title, items);
    var filled := RunFrom(atHeading, section, depths).categories;
    assert filled == before + [ParsedCategory(title, items)];
    RunFromAppend(Start, nodes[..i + 1], section, depths);
    assert nodes[..i + 1] + section == nodes[..j];
    assert RunFrom(Start, nodes[..j], depths).categories == filled;
  }

  /**
   * Where a list's items go: the category opened by the heading at `i` (the
   * one after the categories of the headings before it) receives exactly
   * the items of the lists between that heading and the next heading at a
   * configured depth (or the end of the document), in order.
   */
  lemma CategoryCollectsItsLists(nodes: seq<MdNode>, options: ParserOptions, i: nat, j: nat)
    requires i < j <= |nodes|
    requires nodes[i].Heading? && nodes[i].depth in HeadingDepths(options)
    requires NoCategoryHeading(nodes[i + 1..j], HeadingDepths(options))
    requires j == |nodes| || (nodes[j].Heading? && nodes[j].depth in HeadingDepths(options))
    ensures var cats := ParseDocument(nodes, options).categories;
            var k := |CategoryHeadings(nodes[..i], HeadingDepths(options))|;
            && k < |cats|
            && cats[k] == ParsedCategory(Trim(nodes[i].text), SectionItems(nodes[i + 1..j]))
  {
    var depths := HeadingDepths(options);
    SectionFilled(nodes, i, j, depths);
    if j < |nodes| {
      var filled := RunFrom(Start, nodes[..j], depths);
      var k := |filled.categories| - 1;
      HeadingOpens(nodes, j, depths);
      var next := RunFrom(Start, nodes[..j + 1], depths);
      assert next.categories[k] == filled.categories[k];
      ClosedCategoryKept(next, nodes[j + 1..], depths, k);
      RunFromAppend(Start, nodes[..j + 1], nodes[j + 1..], depths);
      SliceJoin(nodes, j + 1);
    } else {
      assert nodes[..j] == nodes;
    }
  }

  /** Once the title is non-empty, no later node changes it. */
  lemma {:induction false} TitleKept(s: ParseState, nodes: seq<MdNode>, depths: seq<int>)
    requires s.title.Some? && s.title.value != ""
    ensures RunFrom(s, nodes, depths).title == s.title
  {
    if nodes != [] {
      TitleKept(s, nodes[..|nodes| - 1], depths);
    }
  }

  /** Before any depth-1 heading the title is missing; after only blank ones it is empty. */
  lemma {:induction false} TitleBlankSoFar(nodes: seq<MdNode>, depths: seq<int>)
    requires forall j :: 0 <= j < |nodes| && nodes[j].Heading? && nodes[j].depth == 1 ==> Trim(nodes[j].text) == ""
    ensures RunFrom(Start, nodes, depths).title.None? || RunFrom(Start, nodes, depths).title == Some("")
  {
    if nodes != [] {
      TitleBlankSoFar(nodes[..|nodes| - 1], depths);
    }
  }

  /**
   * The title is the text of the first depth-1 heading whose trimmed text is
   * not empty; later depth-1 headings do not change it.
   */
  lemma TitleIsFirstHeading(nodes: seq<MdNode>, i: nat, options: ParserOptions)
    requires i < |nodes| && nodes[i].Heading? && nodes[i].depth == 1 && Trim(nodes[i].text) != ""
    requires forall j :: 0 <= j < i && nodes[j].Heading? && nodes[j].depth == 1 ==> Trim(nodes[j].text) == ""
    ensures ParseDocument(nodes, options).title == Some(Trim(nodes[i].text))
  {
    var depths := HeadingDepths(options);
    TitleSetAt(nodes, i, depths);
    var s := RunFrom(Start, nodes[..i + 1], depths);
    RunFromAppend(Start, nodes[..i + 1], nodes[i + 1..], depths);
    SliceJoin(nodes, i + 1);
    TitleKept(s, nodes[i + 1..], depths);
  }

  lemma SliceJoin<T>(s: seq<T>, k: nat)
    requires k <= |s|
    ensures s[..k] + s[k..] == s
  {
  }

  /** The first depth-1 heading with text sets the title. */
  lemma TitleSetAt(nodes: seq<MdNode>, i: nat, depths: seq<int>)
    requires i < |nodes| && nodes[i].Heading? && nodes[i].depth == 1 && Trim(nodes[i].text) != ""
    requires forall j :: 0 <= j < i && nodes[j].Heading? && nodes[j].depth == 1 ==> Trim(nodes[j].text) == ""
    ensures RunFrom(Start, nodes[..i + 1], depths).title == Some(Trim(nodes[i].text))
  {
    var before := nodes[..i];
    assert forall j :: 0 <= j < |before| && before[j].Heading? && before[j].depth == 1 ==> Trim(before[j].text) == "";
    TitleBlankSoFar(before, depths);
    RunFromSnoc(Start, nodes, i, depths);
  }

  /** A document without depth-1 headings has no title. */
  lemma {:induction false} NoTopHeadingNoTitle(nodes: seq<MdNode>, depths: seq<int>)
    requires forall j :: 0 <= j < |nodes| ==> !(nodes[j].Heading? && nodes[j].depth == 1)
    ensures RunFrom(Start, nodes, depths).title.None?
  {
    if nodes != [] {
      NoTopHeadingNoTitle(nodes[..|nodes| - 1], depths);
    }
  }
}
