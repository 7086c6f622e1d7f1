/** An abstract view of the page markup: element nodes as values, and the
    document order in which selector queries visit them. */
module Dom {

  /** An element: tag name, class list, attributes and child elements. */
  datatype Node = Node(tag: string, classes: set<string>, attributes: map<string, string>, children: seq<Node>)

  /** Document (pre-)order of a node and everything below it. */
  function Subtree(n: Node): (order: seq<Node>)
    decreases n, 1
  {
    [n] + DocumentOrder(n.children)
  }

  /** Document order of a list of sibling elements and their descendants:
      each element comes before its descendants, which come before the
      element's later siblings. */
  function DocumentOrder(nodes: seq<Node>): (order: seq<Node>)
    decreases nodes, 0
  {
    if nodes == [] then [] else Subtree(nodes[0]) + DocumentOrder(nodes[1..])
  }

  /** Document order distributes over concatenation of sibling lists. */
  lemma {:induction false} DocumentOrderAppend(a: seq<Node>, b: seq<Node>)
    ensures DocumentOrder(a + b) == DocumentOrder(a) + DocumentOrder(b)
    decreases a
  {
    if a == [] {
      assert a + b == b;
    } else {
      assert (a + b)[0] == a[0];
      assert (a + b)[1..] == a[1..] + b;
      DocumentOrderAppend(a[1..], b);
    }
  }

  /** A new element with no attributes. */
  function Element(tag: string, classes: set<string>, children: seq<Node>): Node {
    Node(tag, classes, map[], children)
  }

  /** `buildBlock(name, { elems })` of the page library, whose source is not
      part of this model: a `div` carrying the block name as its class and
      holding the given elements. Its inner row/column wrappers are not
      modelled. */
  function BuildBlock(name: string, elems: seq<Node>): (block: Node)
    ensures block.tag == "div" && name in block.classes && block.children == elems
  {
    Element("div", {name}, elems)
  }

  /** `createOptimizedPicture(src)` of the page library, whose source is not
      part of this model: a `picture` element for `src`. */
  function OptimizedPicture(src: string): (picture: Node)
    ensures picture.tag == "picture" && picture.children == []
  {
    Node("picture", {}, map["src" := src], [])
  }
}
