/**
 * The markdown renderer (src/renderer/table.ts): a parsed list becomes a
 * heading (or the configured header), then one table per non-empty
 * category, each row showing the stars, the linked name and the
 * description.
 *
 * `renderList` gathers chunks in a loop and is modelled as a method that
 * fills a `seq` of chunks; `renderCategory` and `escapeTableCell` are pure
 * and are functions. What the renderer promises is proved about `Render`,
 * the function the method computes.
 */
module Table {
  import opened Wrappers
  import opened Text
  import opened ListTypes

  const HeaderRow := "| Stars | Name | Description |"
  const AlignRow := "| ---: | --- | --- |"

  /** Every `|` in `s` comes right after a backslash, so none of them ends a cell. */
  predicate PipesEscaped(s: string) {
    forall i :: 0 <= i < |s| && s[i] == '|' ==> i > 0 && s[i - 1] == '\\'
  }

  /** `escapeTableCell`: every `|` becomes `\|`, every line feed `<br>`, then the ends are trimmed. */
  function Escape(v: string): string {
    Trim(ReplaceChar(ReplaceChar(v, '|', "\\|"), '\n', "<br>"))
  }

  /** Both replacements together leave no pipe unescaped. */
  lemma {:induction false} ReplacedPipesEscaped(v: string)
    ensures PipesEscaped(ReplaceChar(ReplaceChar(v, '|', "\\|"), '\n', "<br>"))
  {
    if v != [] {
      var head := if v[0] == '|' then "\\|" else [v[0]];
      var tail := ReplaceChar(v[1..], '|', "\\|");
      assert ReplaceChar(v, '|', "\\|") == head + tail;
      ReplaceCharAppend(head, tail, '\n', "<br>");
      ReplacedPipesEscaped(v[1..]);
      var h := ReplaceChar(head, '\n', "<br>");
      assert h == "\\|" || h == "<br>" || (h == [v[0]] && v[0] != '|');
      EscapedPrefix(h, ReplaceChar(tail, '\n', "<br>"));
    }
  }

  /** An escaped pipe, a `<br>` or any one character other than a pipe, in front of an escaped string. */
  lemma EscapedPrefix(h: string, t: string)
    requires h == "\\|" || h == "<br>" || (|h| == 1 && h[0] != '|')
    requires PipesEscaped(t)
    ensures PipesEscaped(h + t)
  {
    var r := h + t;
    forall i | 0 <= i < |r| && r[i] == '|' ensures i > 0 && r[i - 1] == '\\' {
      if i >= |h| {
        assert r[i] == t[i - |h|];
        if i - |h| > 0 {
          assert r[i - 1] == t[i - |h| - 1];
        }
      }
    }
  }

  /** Trimming keeps every pipe escaped: the backslash in front of a pipe is not whitespace. */
  lemma TrimKeepsEscaped(s: string)
    requires PipesEscaped(s)
    ensures PipesEscaped(Trim(s))
  {
    var p := TrimSlice(s);
    var r := Trim(s);
    forall i | 0 <= i < |r| && r[i] == '|' ensures i > 0 && r[i - 1] == '\\' {
      assert s[p + i] == '|';
      assert p + i > 0 && s[p + i - 1] == '\\';
      assert !IsSpace(s[p + i - 1]);
      assert r[i - 1] == s[p + i - 1];
    }
  }

  /** An escaped cell cannot end its cell or its row: no bare pipe and no line feed. */
  lemma EscapeSafe(v: string)
    ensures PipesEscaped(Escape(v))
    ensures '\n' !in Escape(v)
  {
    var s := ReplaceChar(ReplaceChar(v, '|', "\\|"), '\n', "<br>");
    ReplacedPipesEscaped(v);
    TrimKeepsEscaped(s);
    TrimAddsNothing(s, '\n');
  }

  /** A cell with no pipe, no line feed and no whitespace at its ends is left as it is. */
  lemma EscapePlain(v: string)
    requires '|' !in v && '\n' !in v && IsTrimmed(v)
    ensures Escape(v) == v
  {
    TrimOfTrimmed(v);
  }

  /** `item.stars ?? "-"` as the row prints it. */
  function StarsCell(item: ParsedItem): string {
    if item.stars.Some? then IntToString(item.stars.value) else "-"
  }

  /** One table row: `| stars | [name](url) | description |`, the url as it is. */
  function Row(item: ParsedItem): (r: string)
    ensures |r| >= 2 && r[0] == '|' && r[|r| - 1] == '|'
  {
    "| " + StarsCell(item) + " | [" + Escape(item.name) + "](" + item.url + ") | " + Escape(item.description) + " |"
  }

  function Rows(items: seq<ParsedItem>): (r: seq<string>)
    ensures |r| == |items|
    ensures forall i :: 0 <= i < |items| ==> r[i] == Row(items[i])
  {
    seq(|items|, i requires 0 <= i < |items| => Row(items[i]))
  }

  /** The lines of a category block: its heading, a blank line, the two header rows, then the rows. */
  function CategoryLines(c: ParsedCategory): (r: seq<string>)
    ensures |r| == 4 + |c.items|
  {
    ["## " + c.title, "", HeaderRow, AlignRow] + Rows(c.items)
  }

  /** `renderCategory`. */
  function RenderCategory(c: ParsedCategory): string {
    Join(CategoryLines(c), "\n")
  }

  /** The chunks the header or title contributes. */
  function HeadChunks(list: ParsedList): seq<string> {
    if list.header.Some? then
      var header := Trim(list.header.value);
      if header != "" then [header, ""] else []
    else if list.title.Some? && list.title.value != "" then ["# " + list.title.value, ""]
    else []
  }

  /** The chunks one category contributes: none when it has no items. */
  function Block(c: ParsedCategory): seq<string> {
    if |c.items| == 0 then [] else [RenderCategory(c), ""]
  }

  /** The chunks of the categories, in order. */
  function CategoryChunks(cats: seq<ParsedCategory>): seq<string> {
    if cats == [] then [] else CategoryChunks(cats[..|cats| - 1]) + Block(cats[|cats| - 1])
  }

  /** `renderList`: the chunks joined by line feeds, trimmed, with one final line feed. */
  function Render(list: ParsedList): string {
    Trim(Join(HeadChunks(list) + CategoryChunks(list.categories), "\n")) + "\n"
  }

  /** `renderList(list)`, pushing chunks as the source does. */
  method RenderList(list: ParsedList) returns (out: string)
    ensures out == Render(list)
  {
    var chunks: seq<string> := [];
    if list.header.Some? {
      var header := Trim(list.header.value);
      if header != "" {
        chunks := chunks + [header];
        chunks := chunks + [""];
      }
    } else if list.title.Some? && list.title.value != "" {
      chunks := chunks + ["# " + list.title.value];
      chunks := chunks + [""];
    }
    assert chunks == HeadChunks(list);
    chunks := PushCategories(chunks, list.categories);
    out := Trim(Join(chunks, "\n")) + "\n";
  }

  /** The loop over the categories: each one with items pushes its block and a blank chunk. */
  method PushCategories(start: seq<string>, cats: seq<ParsedCategory>) returns (chunks: seq<string>)
    ensures chunks == start + CategoryChunks(cats)
  {
    chunks := start;
    var i := 0;
    while i < |cats|
      invariant 0 <= i <= |cats|
      invariant chunks == start + CategoryChunks(cats[..i])
    {
      CategoryChunksSnoc(cats, i);
      if |cats[i].items| != 0 {
        var block := RenderCategory(cats[i]);
        chunks := chunks + [block];
        chunks := chunks + [""];
        assert chunks == start + (CategoryChunks(cats[..i]) + [block, ""]);
      }
      i := i + 1;
    }
    assert cats[..i] == cats;
  }

  lemma CategoryChunksSnoc(cats: seq<ParsedCategory>, i: nat)
    requires i < |cats|
    ensures CategoryChunks(cats[..i + 1]) == CategoryChunks(cats[..i]) + Block(cats[i])
  {
    assert cats[..i + 1][..i] == cats[..i];
  }

  /** The categories that have items, in order. */
  function NonEmpty(cats: seq<ParsedCategory>): (r: seq<ParsedCategory>)
    ensures forall c :: c in r ==> c in cats && |c.items| > 0
  {
    if cats == [] then []
    else NonEmpty(cats[..|cats| - 1]) + (if |cats[|cats| - 1].items| == 0 then [] else [cats[|cats| - 1]])
  }

  lemma {:induction false} NonEmptyChunks(cats: seq<ParsedCategory>)
    ensures CategoryChunks(NonEmpty(cats)) == CategoryChunks(cats)
  {
    if cats != [] {
      var n := |cats| - 1;
      NonEmptyChunks(cats[..n]);
      var ne := NonEmpty(cats[..n]);
      assert CategoryChunks(cats) == CategoryChunks(cats[..n]) + Block(cats[n]);
      if |cats[n].items| > 0 {
        assert NonEmpty(cats) == ne + [cats[n]];
        assert (ne + [cats[n]])[..|ne|] == ne;
      } else {
        assert NonEmpty(cats) == ne;
      }
    }
  }

  /** A category without items leaves no trace: the output is that of the list without it. */
  lemma EmptyCategoriesInvisible(list: ParsedList)
    ensures Render(list) == Render(list.(categories := NonEmpty(list.categories)))
  {
    NonEmptyChunks(list.categories);
    SameChunksSameRender(list, list.(categories := NonEmpty(list.categories)));
  }

  /** Two lists with the same chunks render alike. */
  lemma SameChunksSameRender(a: ParsedList, b: ParsedList)
    requires HeadChunks(a) == HeadChunks(b) && CategoryChunks(a.categories) == CategoryChunks(b.categories)
    ensures Render(a) == Render(b)
  {
  }

  /** A joined string starts with its first piece. */
  lemma {:induction false} JoinStartsWithFirst(parts: seq<string>, sep: string)
    requires parts != []
    ensures StartsWith(Join(parts, sep), parts[0])
  {
    if |parts| > 1 {
      assert Join(parts, sep) == parts[0] + (sep + Join(parts[1..], sep));
    }
  }

  /**
   * A header that is not blank comes first, trimmed; the title is then not
   * used at all.
   */
  lemma HeaderComesFirst(list: ParsedList)
    requires list.header.Some? && Trim(list.header.value) != ""
    ensures StartsWith(Render(list), Trim(list.header.value))
    ensures Render(list) == Render(list.(title := None))
  {
    var h := Trim(list.header.value);
    assert HeadChunks(list) == [h, ""];
    ChunksStartRender(list, h);
    SameChunksSameRender(list, list.(title := None));
  }

  /** The output opens with the head chunk when that chunk has no whitespace at either end. */
  lemma ChunksStartRender(list: ParsedList, h: string)
    requires HeadChunks(list) == [h, ""] && h != [] && IsTrimmed(h)
    ensures StartsWith(Render(list), h)
  {
    var chunks := HeadChunks(list) + CategoryChunks(list.categories);
    var s := Join(chunks, "\n");
    JoinStartsWithFirst(chunks, "\n");
    TrimKeepsPrefix(s, h);
    assert Render(list)[..|h|] == Trim(s)[..|h|];
  }

  /** Without a header, a title that does not end in whitespace heads the output as `# title`. */
  lemma TitleComesFirst(list: ParsedList)
    requires list.header.None? && list.title.Some? && list.title.value != ""
    requires !IsSpace(list.title.value[|list.title.value| - 1])
    ensures StartsWith(Render(list), "# " + list.title.value)
  {
    var t := "# " + list.title.value;
    assert t[|t| - 1] == list.title.value[|list.title.value| - 1];
    ChunksStartRender(list, t);
  }

  /** The block of each non-empty category is one of the chunks. */
  lemma {:induction false} BlockAmongChunks(cats: seq<ParsedCategory>, ci: nat) returns (k: nat)
    requires ci < |cats| && |cats[ci].items| > 0
    ensures k < |CategoryChunks(cats)| && CategoryChunks(cats)[k] == RenderCategory(cats[ci])
  {
    var n := |cats| - 1;
    if ci == n {
      k := |CategoryChunks(cats[..n])|;
    } else {
      k := BlockAmongChunks(cats[..n], ci);
    }
  }

  /** A string holding `t` still holds it with more text after it. */
  lemma ContainsExtended(s: string, t: string, u: string)
    requires Contains(s, t)
    ensures Contains(s + u, t)
  {
    var k: nat :| OccursAt(s, t, k);
    assert (s + u)[k..k + |t|] == s[k..k + |t|];
    assert OccursAt(s + u, t, k);
  }

  /** Every item of every category appears in the output as its own row. */
  lemma ItemRowShown(list: ParsedList, ci: nat, ii: nat)
    requires ci < |list.categories| && ii < |list.categories[ci].items|
    ensures Contains(Render(list), Row(list.categories[ci].items[ii]))
  {
    var c := list.categories[ci];
    var row := Row(c.items[ii]);
    var s := Join(HeadChunks(list) + CategoryChunks(list.categories), "\n");
    RowInBlock(c, ii);
    BlockInJoined(list, ci);
    ContainsTrans(s, RenderCategory(c), row);
    RowEnds(c.items[ii]);
    ShownInRender(list, row);
  }

  /** A row opens and closes with `|`, not with a space. */
  lemma RowEnds(item: ParsedItem)
    ensures var r := Row(item); r != [] && !IsSpace(r[0]) && !IsSpace(r[|r| - 1])
  {
    PipeEnds(Row(item));
  }

  lemma PipeEnds(r: string)
    requires |r| >= 2 && r[0] == '|' && r[|r| - 1] == '|'
    ensures !IsSpace(r[0]) && !IsSpace(r[|r| - 1])
  {
  }

  /** A piece of the joined chunks that starts and ends with no space survives the trim. */
  lemma ShownInRender(list: ParsedList, t: string)
    requires Contains(Join(HeadChunks(list) + CategoryChunks(list.categories), "\n"), t)
    requires t != [] && !IsSpace(t[0]) && !IsSpace(t[|t| - 1])
    ensures Contains(Render(list), t)
  {
    var s := Join(HeadChunks(list) + CategoryChunks(list.categories), "\n");
    TrimKeepsInner(s, t);
    ContainsExtended(Trim(s), t, "\n");
  }

  /** The rows of a category are lines of its block. */
  lemma RowInBlock(c: ParsedCategory, ii: nat)
    requires ii < |c.items|
    ensures Contains(RenderCategory(c), Row(c.items[ii]))
  {
    var head := ["## " + c.title, "", HeaderRow, AlignRow];
    var rows := Rows(c.items);
    IndexAfter(head, rows, ii);
    ContainsJoined(head + rows, "\n", 4 + ii);
  }

  lemma IndexAfter<T>(a: seq<T>, b: seq<T>, i: nat)
    requires i < |b|
    ensures (a + b)[|a| + i] == b[i]
  {
  }

  /** The block of a non-empty category is among the joined chunks. */
  lemma BlockInJoined(list: ParsedList, ci: nat)
    requires ci < |list.categories| && |list.categories[ci].items| > 0
    ensures Contains(Join(HeadChunks(list) + CategoryChunks(list.categories), "\n"), RenderCategory(list.categories[ci]))
  {
    var k := BlockAmongChunks(list.categories, ci);
    var head := HeadChunks(list);
    var chunks := head + CategoryChunks(list.categories);
    assert chunks[|head| + k] == RenderCategory(list.categories[ci]);
    ContainsJoined(chunks, "\n", |head| + k);
  }

  /** Plain cells pass through unchanged: the row shows the name and description as they are. */
  lemma PlainRow(item: ParsedItem)
    requires '|' !in item.name && '\n' !in item.name && IsTrimmed(item.name)
    requires '|' !in item.description && '\n' !in item.description && IsTrimmed(item.description)
    ensures Row(item) == "| " + StarsCell(item) + " | [" + item.name + "](" + item.url + ") | " + item.description + " |"
  {
    EscapePlain(item.name);
    EscapePlain(item.description);
  }

  /** A count is printed in decimal; a missing count as `-`. */
  lemma StarsCellShown(item: ParsedItem)
    ensures item.stars.None? ==> StarsCell(item) == "-"
    ensures item.stars.Some? && item.stars.value >= 0 ==> StarsCell(item) == NatToString(item.stars.value)
    ensures item.stars == Some(42) ==> StarsCell(item) == "42"
  {
    if item.stars == Some(42) {
      assert NatToString(42) == NatToString(4) + [DigitChar(2)];
    }
  }

  /** A row is one line when the url is. */
  lemma RowOneLine(item: ParsedItem)
    requires '\n' !in item.url
    ensures '\n' !in Row(item)
  {
    var name, desc := Escape(item.name), Escape(item.description);
    EscapeSafe(item.name);
    EscapeSafe(item.description);
    var stars := StarsCell(item);
    StarsCellOneLine(item);
    assert Row(item) == "| " + stars + " | [" + name + "](" + item.url + ") | " + desc + " |";
    NoNewlineInRow(stars, name, item.url, desc);
  }

  /** The stars cell is a number or `-`: one line. */
  lemma StarsCellOneLine(item: ParsedItem)
    ensures '\n' !in StarsCell(item)
  {
    if item.stars.Some? {
      var n := item.stars.value;
      var d := NatToString(if n < 0 then -n else n);
      assert '\n' !in d by {
        forall k | 0 <= k < |d| ensures d[k] != '\n' {
          assert IsDigit(d[k]);
        }
      }
    }
  }

  /** The row's fixed parts hold no newline, so the row has one when a cell has one. */
  lemma NoNewlineInRow(stars: string, name: string, url: string, desc: string)
    requires '\n' !in stars && '\n' !in name && '\n' !in url && '\n' !in desc
    ensures '\n' !in "| " + stars + " | [" + name + "](" + url + ") | " + desc + " |"
  {
  }

  /**
   * The block of a category whose title and urls are single lines reads, line
   * by line: `## title`, a blank line, the header row, the alignment row, then
   * one row per item in order.
   */
  lemma CategoryBlockLines(c: ParsedCategory)
    requires '\n' !in c.title
    requires forall i :: 0 <= i < |c.items| ==> '\n' !in c.items[i].url
    ensures Split(RenderCategory(c), '\n') == ["## " + c.title, "", HeaderRow, AlignRow] + Rows(c.items)
  {
    var lines := CategoryLines(c);
    forall i | 0 <= i < |lines| ensures '\n' !in lines[i] {
      if i >= 4 {
        RowOneLine(c.items[i - 4]);
      }
    }
    SplitJoin(lines, '\n');
  }
}
