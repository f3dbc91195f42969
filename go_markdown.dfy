/**
 * The goldmark syntax tree as the Go version sees it, and the star badge
 * `StarLink` (markdown/link.go) puts in front of a link.
 *
 * A node is a value: its kind and its children. A link carries an `id`
 * that stands for the identity of its `*ast.Link` node, so two links
 * with the same destination stay apart. The one node whose children are
 * edited in place, the parent of a starred link, is a `Block` object.
 */
module GoMarkdown {
  import opened Wrappers
  import opened Text

  datatype Kind =
    | Link(id: nat, destination: string)
    | Heading(text: string)
    | TextNode
    | StringNode(value: string)
    | OtherNode

  datatype Node = Node(kind: Kind, children: seq<Node>)

  /** A node whose children are changed in place: the parent block of a link. */
  class Block {
    var children: seq<Node>

    constructor (children: seq<Node>)
      ensures this.children == children
    {
      this.children := children;
    }
  }

  /** `fmt.Sprintf("%6d", n)`: the decimal digits, padded on the left with spaces to six characters. */
  function PadSix(n: int): (r: string)
    ensures |IntToString(n)| <= 6 ==> |r| == 6
    ensures |IntToString(n)| > 6 ==> r == IntToString(n)
    ensures r[|r| - |IntToString(n)|..] == IntToString(n)
  {
    var digits := IntToString(n);
    var pad := if |digits| < 6 then 6 - |digits| else 0;
    Repeat(" ", pad) + digits
  }

  /** The badge text: `<code>%6d</code>` with every space replaced by `&nbsp;`. */
  function BadgeText(star: int): string {
    ReplaceChar("<code>" + PadSix(star) + "</code>", ' ', "&nbsp;")
  }

  /** Replacing inside a middle part only, when the outer parts hold no `c`. */
  lemma ReplaceInMiddle(a: string, b: string, d: string, c: char, with: string)
    requires c !in a && c !in d
    ensures ReplaceChar(a + b + d, c, with) == a + ReplaceChar(b, c, with) + d
  {
    ReplaceCharAppend(a + b, d, c, with);
    ReplaceCharAppend(a, b, c, with);
  }

  /** Padding spaces become `&nbsp;`; the digits, which hold no space, stay. */
  lemma ReplacePadding(digits: string, pad: nat)
    requires ' ' !in digits
    ensures ReplaceChar(Repeat(" ", pad) + digits, ' ', "&nbsp;") == Repeat("&nbsp;", pad) + digits
  {
    ReplaceCharAppend(Repeat(" ", pad), digits, ' ', "&nbsp;");
    ReplaceCharRepeat(' ', "&nbsp;", pad);
  }

  /** A padded count between two space-free parts: only the padding changes. */
  lemma ReplaceBadge(a: string, digits: string, d: string, pad: nat)
    requires ' ' !in a && ' ' !in digits && ' ' !in d
    ensures ReplaceChar(a + (Repeat(" ", pad) + digits) + d, ' ', "&nbsp;") == a + (Repeat("&nbsp;", pad) + digits) + d
  {
    ReplacePadding(digits, pad);
    ReplaceInMiddle(a, Repeat(" ", pad) + digits, d, ' ', "&nbsp;");
  }

  /** The digits of a count hold no space. */
  lemma NoSpaceInDigits(n: nat)
    ensures ' ' !in NatToString(n)
  {
    var digits := NatToString(n);
    forall k | 0 <= k < |digits| ensures digits[k] != ' ' {
      assert IsDigit(digits[k]);
    }
  }

  /** `%6d` of a count: spaces, then its digits. */
  lemma PadSixOfCount(star: nat)
    ensures var digits := NatToString(star);
            PadSix(star) == Repeat(" ", if |digits| < 6 then 6 - |digits| else 0) + digits
  {
  }

  lemma BadgeOfPadded(star: nat, digits: string, pad: nat)
    requires PadSix(star) == Repeat(" ", pad) + digits && ' ' !in digits
    ensures BadgeText(star) == "<code>" + (Repeat("&nbsp;", pad) + digits) + "</code>"
  {
    ReplaceBadge("<code>", digits, "</code>", pad);
  }

  /** The badge is the count right-aligned in six places, each padding space written `&nbsp;`. */
  lemma BadgeShape(star: nat)
    ensures var digits := NatToString(star);
            BadgeText(star) == "<code>" + (Repeat("&nbsp;", if |digits| < 6 then 6 - |digits| else 0) + digits) + "</code>"
  {
    var digits := NatToString(star);
    PadSixOfCount(star);
    NoSpaceInDigits(star);
    BadgeOfPadded(star, digits, if |digits| < 6 then 6 - |digits| else 0);
  }

  /** A two-digit count is written with two digits. */
  lemma TwoDigits(star: nat)
    requires 10 <= star < 100
    ensures |NatToString(star)| == 2
  {
    assert NatToString(star) == NatToString(star / 10) + [DigitChar(star % 10)];
    assert star / 10 < 10;
  }

  lemma FourNbsp()
    ensures Repeat("&nbsp;", 4) == "&nbsp;&nbsp;&nbsp;&nbsp;"
  {
  }

  /** A two-digit count, 10 say, is shown as four `&nbsp;` and then its digits. */
  lemma BadgeOfTwoDigits(star: nat)
    requires 10 <= star < 100
    ensures BadgeText(star) == "<code>" + ("&nbsp;&nbsp;&nbsp;&nbsp;" + NatToString(star)) + "</code>"
  {
    TwoDigits(star);
    BadgeShape(star);
    FourNbsp();
  }

  /** The text node `addStarTo` and `StarLink` build: a text node holding the badge string. */
  function BadgeNode(star: int): Node {
    Node(TextNode, [Node(StringNode(BadgeText(star)), [])])
  }

  const Space := Node(StringNode(" "), [])

  /** The position of the link `id` among `children`, as goldmark finds it by identity. */
  function IndexOfLink(children: seq<Node>, id: nat): (r: Option<nat>)
    ensures r.Some? ==> r.value < |children| && children[r.value].kind.Link? && children[r.value].kind.id == id
    ensures r.Some? ==> forall j :: 0 <= j < r.value ==> !(children[j].kind.Link? && children[j].kind.id == id)
    ensures r.None? ==> forall j :: 0 <= j < |children| ==> !(children[j].kind.Link? && children[j].kind.id == id)
  {
    if children == [] then None
    else if children[0].kind.Link? && children[0].kind.id == id then Some(0)
    else
      var rest := IndexOfLink(children[1..], id);
      if rest.Some? then Some(rest.value + 1) else None
  }

  /** The children once the badge and a space are put right before the link `id`. */
  function WithBadge(children: seq<Node>, id: nat, star: int): (r: seq<Node>)
    requires IndexOfLink(children, id).Some?
    ensures |r| == |children| + 2
  {
    var i := IndexOfLink(children, id).value;
    children[..i] + [BadgeNode(star), Space] + children[i..]
  }

  /**
   * `StarLink`: no change for a count below 1; otherwise the badge and a
   * space go right before the link in its parent's children.
   */
  method StarLink(parent: Block, linkId: nat, star: int)
    requires IndexOfLink(parent.children, linkId).Some?
    modifies parent
    ensures star < 1 ==> parent.children == old(parent.children)
    ensures star >= 1 ==> parent.children == WithBadge(old(parent.children), linkId, star)
  {
    if star < 1 {
      return;
    }
    var i := IndexOfLink(parent.children, linkId).value;
    var badge := BadgeNode(star);
    parent.children := parent.children[..i] + [badge] + parent.children[i..];
    parent.children := parent.children[..i + 1] + [Space] + parent.children[i + 1..];
  }

  /**
   * After the edit the children read `…, badge, " ", link, …`: everything
   * before the link is where it was, the link itself is untouched and
   * everything after it moves two places on.
   */
  lemma WithBadgeOrder(children: seq<Node>, id: nat, star: int)
    requires IndexOfLink(children, id).Some?
    ensures var i := IndexOfLink(children, id).value;
            var r := WithBadge(children, id, star);
            && r[..i] == children[..i]
            && r[i] == BadgeNode(star) && r[i + 1] == Space
            && r[i + 2] == children[i]
            && r[i + 2..] == children[i..]
            && IndexOfLink(r, id) == Some(i + 2)
  {
    var i := IndexOfLink(children, id).value;
    var r := WithBadge(children, id, star);
    InsertTwo(children, i, BadgeNode(star), Space);
    LinkFoundAt(r, id, i + 2);
  }

  /** Two elements put in at `i`: what comes before stays, what follows moves two places on. */
  lemma InsertTwo<T>(s: seq<T>, i: nat, a: T, b: T)
    requires i <= |s|
    ensures var r := s[..i] + [a, b] + s[i..];
            && |r| == |s| + 2
            && r[..i] == s[..i] && r[i] == a && r[i + 1] == b && r[i + 2..] == s[i..]
            && (forall j :: 0 <= j < i ==> r[j] == s[j])
  {
    var r := s[..i] + [a, b] + s[i..];
    assert r[i + 2..] == s[i..];
  }

  /** A link found at `i` with no earlier link of that id is the one `IndexOfLink` returns. */
  lemma {:induction false} LinkFoundAt(children: seq<Node>, id: nat, i: nat)
    requires i < |children| && children[i].kind.Link? && children[i].kind.id == id
    requires forall j :: 0 <= j < i ==> !(children[j].kind.Link? && children[j].kind.id == id)
    ensures IndexOfLink(children, id) == Some(i)
  {
    if i > 0 {
      LinkFoundAt(children[1..], id, i - 1);
    }
  }
}
