/**
 * The clean-up the Go version applies to the Awesome Go README before adding
 * stars (the `RemoveUnusedParts` of the Awesome Go entry in
 * awesome/awesome_list.go): every top-level node before the `Contents`
 * heading goes.
 */
module GoAwesome {
  import opened GoMarkdown

  /** A heading whose text is exactly `Contents`. */
  predicate IsContents(n: Node) {
    n.kind.Heading? && n.kind.text == "Contents"
  }

  predicate HasContents(nodes: seq<Node>) {
    exists i :: 0 <= i < |nodes| && IsContents(nodes[i])
  }

  /** The position of the first `Contents` heading. */
  function FirstContents(nodes: seq<Node>): (r: nat)
    requires HasContents(nodes)
    ensures r < |nodes| && IsContents(nodes[r])
    ensures forall j :: 0 <= j < r ==> !IsContents(nodes[j])
  {
    if IsContents(nodes[0]) then 0
    else
      assert HasContents(nodes[1..]) by {
        var i :| 0 <= i < |nodes| && IsContents(nodes[i]);
        assert nodes[1..][i - 1] == nodes[i];
      }
      1 + FirstContents(nodes[1..])
  }

  /** `RemoveChild` of goldmark: the child goes if it is there, the others keep their order. */
  function RemoveChild(children: seq<Node>, node: Node): (r: seq<Node>)
    ensures node !in children ==> r == children
    ensures children != [] && children[0] == node ==> r == children[1..]
  {
    if children == [] then []
    else if children[0] == node then children[1..]
    else [children[0]] + RemoveChild(children[1..], node)
  }

  /**
   * The clean-up: walk the top-level nodes up to the first `Contents`
   * heading, collecting them, then remove each collected node from the root.
   * The collected nodes are returned as `removed`. Without a `Contents`
   * heading the source dereferences nil, hence the precondition.
   */
  method RemoveUnusedParts(root: Block) returns (removed: seq<Node>)
    requires HasContents(root.children)
    modifies root
    ensures removed == old(root.children)[..FirstContents(old(root.children))]
    ensures root.children == old(root.children)[FirstContents(old(root.children))..]
  {
    var nodes := root.children;
    var stop := FirstContents(nodes);
    removed := [];
    var next := 0;
    while !IsContents(nodes[next])
      invariant 0 <= next <= stop
      invariant removed == nodes[..next]
      decreases stop - next
    {
      assert nodes[..next + 1] == nodes[..next] + [nodes[next]];
      removed := removed + [nodes[next]];
      next := next + 1;
    }
    assert next == stop;
    var j := 0;
    while j < |removed|
      invariant 0 <= j <= |removed|
      invariant root.children == nodes[j..]
    {
      assert nodes[j..][0] == removed[j];
      assert nodes[j..][1..] == nodes[j + 1..];
      root.children := RemoveChild(root.children, removed[j]);
      j := j + 1;
    }
  }

  /**
   * What is kept opens with the `Contents` heading, and the removed prefix
   * followed by what is kept is the document as it was.
   */
  lemma KeptOpensWithContents(nodes: seq<Node>)
    requires HasContents(nodes)
    ensures var k := FirstContents(nodes);
            && nodes[k..] != [] && IsContents(nodes[k..][0])
            && nodes[..k] + nodes[k..] == nodes
            && (forall j :: 0 <= j < |nodes[..k]| ==> !IsContents(nodes[..k][j]))
  {
    var k := FirstContents(nodes);
    assert nodes[..k] + nodes[k..] == nodes;
  }

  /** A document that already opens with `Contents` is left as it is. */
  lemma ContentsFirstKeepsAll(nodes: seq<Node>)
    requires nodes != [] && IsContents(nodes[0])
    ensures HasContents(nodes) && FirstContents(nodes) == 0 && nodes[FirstContents(nodes)..] == nodes
  {
  }
}
