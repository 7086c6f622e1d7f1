/** `buildHeroBlock`: promoting a leading picture and the first heading into
    a hero block in a new first section. */
module Hero {
  import opened Wrappers
  import opened Dom

  /** `querySelector(tag)` over elements listed in document order: the
      position of the first element with that tag, if any. */
  function FirstWithTag(order: seq<Node>, tag: string): (r: Option<nat>)
    ensures r.Some? ==> r.value < |order| && order[r.value].tag == tag
                        && forall j :: 0 <= j < r.value ==> order[j].tag != tag
    ensures r.None? <==> forall j :: 0 <= j < |order| ==> order[j].tag != tag
  {
    if order == [] then None
    else if order[0].tag == tag then Some(0)
    else match FirstWithTag(order[1..], tag)
      case None => None
      case Some(i) => Some(i + 1)
  }

  /** The condition of `buildHeroBlock`: among the descendants of `main`
      (its children and everything below them, in document order) there is an
      `h1` and a `picture`, and the first `picture` comes before the first
      `h1`. */
  predicate PicturePrecedesHeading(children: seq<Node>) {
    PictureBeforeHeading(DocumentOrder(children))
  }

  /** The test on elements already listed in document order: both queries
      find something and the picture's position is the smaller. This is what
      `h1.compareDocumentPosition(picture) & DOCUMENT_POSITION_PRECEDING`
      decides, an ancestor counting as preceding. */
  predicate PictureBeforeHeading(order: seq<Node>) {
    var h1 := FirstWithTag(order, "h1");
    var picture := FirstWithTag(order, "picture");
    h1.Some? && picture.Some? && picture.value < h1.value
  }

  /** The same test stated without first-occurrence searches: some `picture`
      has an `h1` after it and no `h1` before it. */
  lemma PictureBeforeHeadingIff(order: seq<Node>)
    ensures PictureBeforeHeading(order)
            <==> exists p, h :: 0 <= p < h < |order| && order[p].tag == "picture" && order[h].tag == "h1"
                                && forall k :: 0 <= k < p ==> order[k].tag != "h1"
  {
    var h1 := FirstWithTag(order, "h1");
    var picture := FirstWithTag(order, "picture");
    if PictureBeforeHeading(order) {
      var p, h := picture.value, h1.value;
      assert 0 <= p < h < |order| && order[p].tag == "picture" && order[h].tag == "h1";
    }
    if exists p, h :: 0 <= p < h < |order| && order[p].tag == "picture" && order[h].tag == "h1"
                      && forall k :: 0 <= k < p ==> order[k].tag != "h1" {
      var p, h :| 0 <= p < h < |order| && order[p].tag == "picture" && order[h].tag == "h1"
                  && forall k :: 0 <= k < p ==> order[k].tag != "h1";
      assert h1.Some? && h1.value > p;
      assert picture.Some? && picture.value <= p;
    }
  }

  /** A picture followed by a heading qualifies; the heading followed by
      the picture does not. */
  lemma HeroOrderExample(picture: Node, h1: Node)
    requires picture.tag == "picture" && picture.children == []
    requires h1.tag == "h1" && h1.children == []
    ensures PicturePrecedesHeading([picture, h1])
    ensures !PicturePrecedesHeading([h1, picture])
  {
    assert Subtree(picture) == [picture] && Subtree(h1) == [h1];
    assert DocumentOrder([h1]) == [h1] && DocumentOrder([picture]) == [picture] by {
      assert [h1][1..] == [] && [picture][1..] == [];
    }
    assert DocumentOrder([picture, h1]) == [picture, h1] by {
      assert [picture, h1][1..] == [h1];
    }
    assert DocumentOrder([h1, picture]) == [h1, picture] by {
      assert [h1, picture][1..] == [picture];
    }
    assert [picture, h1][1..] == [h1] && [h1, picture][1..] == [picture];
  }

  /** The new section `buildHeroBlock` prepends: a `div` holding a hero block
      built from the picture and the heading, in that order. */
  function HeroSection(picture: Node, h1: Node): (section: Node)
    ensures section.tag == "div" && |section.children| == 1
    ensures section.children[0] == BuildBlock("hero", [picture, h1])
  {
    Element("div", {}, [BuildBlock("hero", [picture, h1])])
  }

  /** After prepending, the new section and then its hero block lead the
      document order, followed by the picture and the heading, and then
      everything that was there before. */
  lemma HeroSectionLeads(picture: Node, h1: Node, children: seq<Node>)
    ensures DocumentOrder([HeroSection(picture, h1)] + children)
            == [HeroSection(picture, h1), BuildBlock("hero", [picture, h1])]
               + Subtree(picture) + Subtree(h1) + DocumentOrder(children)
  {
    var section := HeroSection(picture, h1);
    var block := BuildBlock("hero", [picture, h1]);
    DocumentOrderAppend([section], children);
    assert DocumentOrder([h1]) == Subtree(h1) by {
      assert [h1][1..] == [];
    }
    assert DocumentOrder([picture, h1]) == Subtree(picture) + Subtree(h1) by {
      assert [picture, h1][1..] == [h1];
    }
    assert DocumentOrder([block]) == [block] + Subtree(picture) + Subtree(h1) by {
      assert [block][1..] == [];
    }
    assert DocumentOrder([section]) == [section, block] + Subtree(picture) + Subtree(h1) by {
      assert [section][1..] == [];
    }
  }

  /** The `main` element of the page, whose children `buildHeroBlock` updates. */
  class Main {
    var children: seq<Node>

    constructor (children: seq<Node>)
      ensures this.children == children
    {
      this.children := children;
    }

    /** `buildHeroBlock(main)`: when the first picture precedes the first
        `h1`, a section holding a hero block of exactly those two becomes
        the first child of main; otherwise main is left as it was. */
    method BuildHeroBlock()
      modifies this
      ensures var order := DocumentOrder(old(children));
              if PicturePrecedesHeading(old(children)) then
                children == [HeroSection(order[FirstWithTag(order, "picture").value],
                                         order[FirstWithTag(order, "h1").value])] + old(children)
              else children == old(children)
    {
      var order := DocumentOrder(children);
      var h1 := FirstWithTag(order, "h1");
      var picture := FirstWithTag(order, "picture");
      if h1.Some? && picture.Some? && picture.value < h1.value {
        var section := HeroSection(order[picture.value], order[h1.value]);
        children := [section] + children;
      }
    }
  }
}
