/** `decorateSectionsWithBackgrounds`: choosing a background image per device
    class from a section's data attributes, and marking the section with it. */
module Backgrounds {
  import opened Wrappers
  import opened Dom

  const GenericAttribute := "data-bg-image"
  const DesktopAttribute := "data-bg-image-desktop"
  const MobileAttribute := "data-bg-image-mobile"
  const TabletAttribute := "data-bg-image-tablet"

  const SectionClass := "section"
  const BackgroundClass := "with-background-image"
  const StaticBackgroundClass := "with-static-background-image"
  const BackgroundPictureClass := "background-image"

  /** `element.getAttribute(name)`: the value, or `null` when absent. */
  function GetAttribute(attributes: map<string, string>, name: string): (v: Option<string>)
    ensures v.Some? <==> name in attributes
    ensures v.Some? ==> v.value == attributes[name]
  {
    if name in attributes then Some(attributes[name]) else None
  }

  /** JavaScript truthiness of an attribute value: neither `null` nor "". */
  predicate Truthy(v: Option<string>) {
    v.Some? && v.value != []
  }

  /** JavaScript `a || b`: the left operand when it is truthy, else the right. */
  function Or(a: Option<string>, b: Option<string>): Option<string> {
    if Truthy(a) then a else b
  }

  /** The fallback chain of `decorateSectionsWithBackgrounds`, written with
      `||` as the source writes it, for `window.deviceType` and the values of
      the four attributes: a truthy value comes out exactly when the device's
      preference order holds one, and it is the first such value in that order. */
  function ChooseBackground(deviceType: string, generic: Option<string>, desktop: Option<string>,
                            mobile: Option<string>, tablet: Option<string>): (r: Option<string>)
    ensures var order := Preference(deviceType, generic, desktop, mobile, tablet);
            (Truthy(r) <==> exists i :: 0 <= i < |order| && Truthy(order[i]))
            && (Truthy(r) ==> exists i :: 0 <= i < |order| && order[i] == r
                                       && forall j :: 0 <= j < i ==> !Truthy(order[j]))
  {
    var order := Preference(deviceType, generic, desktop, mobile, tablet);
    var r :=
      if deviceType == "Mobile" then Or(Or(Or(mobile, tablet), desktop), generic)
      else if deviceType == "Tablet" then Or(Or(Or(tablet, desktop), generic), mobile)
      else Or(Or(Or(desktop, generic), tablet), mobile);
    assert r == Or(Or(Or(order[0], order[1]), order[2]), order[3]);
    OrChainPicksFirst(order);
    r
  }

  /** `a || b || c || d` yields the first truthy operand, if there is one. */
  lemma OrChainPicksFirst(order: seq<Option<string>>)
    requires |order| == 4
    ensures var r := Or(Or(Or(order[0], order[1]), order[2]), order[3]);
            (Truthy(r) <==> exists i :: 0 <= i < |order| && Truthy(order[i]))
            && (Truthy(r) ==> exists i :: 0 <= i < |order| && order[i] == r
                                       && forall j :: 0 <= j < i ==> !Truthy(order[j]))
  {
    var i := if Truthy(order[0]) then 0 else if Truthy(order[1]) then 1
             else if Truthy(order[2]) then 2 else 3;
    assert forall j :: 0 <= j < i ==> !Truthy(order[j]);
  }

  /** The order in which each device class prefers the attribute values:
      Mobile: mobile, tablet, desktop, generic; Tablet: tablet, desktop,
      generic, mobile; anything else: desktop, generic, tablet, mobile. */
  function Preference<T>(deviceType: string, generic: T, desktop: T, mobile: T, tablet: T): (order: seq<T>)
    ensures |order| == 4
  {
    if deviceType == "Mobile" then [mobile, tablet, desktop, generic]
    else if deviceType == "Tablet" then [tablet, desktop, generic, mobile]
    else [desktop, generic, tablet, mobile]
  }

  /** Every device class considers all four attributes and nothing else. */
  lemma PreferenceListsAll<T>(deviceType: string, generic: T, desktop: T, mobile: T, tablet: T)
    ensures var order := Preference(deviceType, generic, desktop, mobile, tablet);
            forall v :: v in order <==> v == generic || v == desktop || v == mobile || v == tablet
  {
    var order := Preference(deviceType, generic, desktop, mobile, tablet);
    if deviceType == "Mobile" {
      assert order == [mobile, tablet, desktop, generic];
    } else if deviceType == "Tablet" {
      assert order == [tablet, desktop, generic, mobile];
    } else {
      assert order == [desktop, generic, tablet, mobile];
    }
  }

  /** So a background is chosen, whatever the device class, exactly when at
      least one of the four attributes is present and non-empty. */
  lemma ChosenIffAnyPresent(deviceType: string, generic: Option<string>, desktop: Option<string>,
                            mobile: Option<string>, tablet: Option<string>)
    ensures Truthy(ChooseBackground(deviceType, generic, desktop, mobile, tablet))
            <==> Truthy(generic) || Truthy(desktop) || Truthy(mobile) || Truthy(tablet)
  {
    var order := Preference(deviceType, generic, desktop, mobile, tablet);
    PreferenceListsAll(deviceType, generic, desktop, mobile, tablet);
    if Truthy(generic) || Truthy(desktop) || Truthy(mobile) || Truthy(tablet) {
      var v := if Truthy(generic) then generic else if Truthy(desktop) then desktop
               else if Truthy(mobile) then mobile else tablet;
      assert v in order;
    } else {
      forall i | 0 <= i < |order| ensures !Truthy(order[i]) {
        assert order[i] in order;
      }
    }
  }

  /** With a mobile and a generic image, a Mobile device gets the mobile one
      and the default device class, lacking a desktop image, the generic one. */
  lemma ChooseBackgroundExample(m: string, g: string)
    requires m != [] && g != []
    ensures ChooseBackground("Mobile", Some(g), None, Some(m), None) == Some(m)
    ensures ChooseBackground("Desktop", Some(g), None, Some(m), None) == Some(g)
    ensures ChooseBackground("Tablet", Some(g), Some([]), Some(m), Some([])) == Some(g)
  {
  }

  /** The class a section receives with its background: the static variant
      when the section already carries it (so nothing new is added), and the
      plain one otherwise. */
  function AddedClass(classes: set<string>): (c: string)
    ensures c in {StaticBackgroundClass, BackgroundClass}
    ensures c == StaticBackgroundClass <==> StaticBackgroundClass in classes
  {
    if StaticBackgroundClass in classes then StaticBackgroundClass else BackgroundClass
  }

  /** The picture appended to a section for background `src`:
      `createOptimizedPicture(src)` with the class `background-image` added. */
  function BackgroundPicture(src: string): (p: Node)
    ensures p.tag == "picture" && BackgroundPictureClass in p.classes
  {
    var pic := OptimizedPicture(src);
    pic.(classes := pic.classes + {BackgroundPictureClass})
  }

  /** The observable state of a section element. */
  datatype SectionView = SectionView(classes: set<string>, attributes: map<string, string>, children: seq<Node>)

  /** Whether the selector `.section[data-bg-image], .section[data-bg-image-desktop],
      .section[data-bg-image-mobile], .section[data-bg-image-tablet]` matches. */
  predicate Selected(v: SectionView) {
    SectionClass in v.classes
    && (GenericAttribute in v.attributes || DesktopAttribute in v.attributes
        || MobileAttribute in v.attributes || TabletAttribute in v.attributes)
  }

  /** The background value the chain yields for a section. */
  function Background(v: SectionView, deviceType: string): Option<string> {
    ChooseBackground(deviceType,
      GetAttribute(v.attributes, GenericAttribute), GetAttribute(v.attributes, DesktopAttribute),
      GetAttribute(v.attributes, MobileAttribute), GetAttribute(v.attributes, TabletAttribute))
  }

  /** A section after decoration: when the section is selected and a
      background is chosen, one class is added and one picture appended;
      otherwise it is left as it was. */
  function Decorated(v: SectionView, deviceType: string): (r: SectionView)
    ensures r.attributes == v.attributes
    ensures v.classes <= r.classes && r.classes - v.classes <= {BackgroundClass}
    ensures StaticBackgroundClass in r.classes <==> StaticBackgroundClass in v.classes
    ensures v.children <= r.children && |r.children| <= |v.children| + 1
    ensures |r.children| == |v.children| + 1 <==> Selected(v) && Truthy(Background(v, deviceType))
    ensures r != v ==> Selected(v) && Truthy(Background(v, deviceType))
    ensures Selected(v) && Truthy(Background(v, deviceType)) ==> r.classes == v.classes + {AddedClass(v.classes)}
    ensures |r.children| == |v.children| + 1 ==>
              r.children[|v.children|] == BackgroundPicture(Background(v, deviceType).value)
              && (BackgroundClass in r.classes || StaticBackgroundClass in r.classes)
  {
    var bg := Background(v, deviceType);
    if Selected(v) && Truthy(bg) then
      v.(classes := v.classes + {AddedClass(v.classes)},
         children := v.children + [BackgroundPicture(bg.value)])
    else v
  }

  /** A page element that can be decorated with a background, updated in place. */
  class Section {
    var classes: set<string>
    var attributes: map<string, string>
    var children: seq<Node>

    constructor (classes: set<string>, attributes: map<string, string>, children: seq<Node>)
      ensures View() == SectionView(classes, attributes, children)
    {
      this.classes := classes;
      this.attributes := attributes;
      this.children := children;
    }

    function View(): SectionView
      reads this
    {
      SectionView(classes, attributes, children)
    }

    /** The body of the `forEach` over the selected sections: read the four
        attributes, follow the device's fallback chain and, when a background
        comes out, add the class and append the picture. */
    method DecorateBackground(deviceType: string)
      requires Selected(View())
      modifies this
      ensures View() == Decorated(old(View()), deviceType)
    {
      var bgImage := GetAttribute(attributes, GenericAttribute);
      var bgImageDesktop := GetAttribute(attributes, DesktopAttribute);
      var bgImageMobile := GetAttribute(attributes, MobileAttribute);
      var bgImageTablet := GetAttribute(attributes, TabletAttribute);
      var background := ChooseBackground(deviceType, bgImage, bgImageDesktop, bgImageMobile, bgImageTablet);
      if Truthy(background) {
        if StaticBackgroundClass in classes {
          classes := classes + {StaticBackgroundClass};
        } else {
          classes := classes + {BackgroundClass};
        }
        children := children + [BackgroundPicture(background.value)];
      }
    }
  }

  /** `decorateSectionsWithBackgrounds`: `elements` are the elements under
      the container in document order; each one the selector matches is
      decorated, and every other one is left alone. */
  method DecorateSectionsWithBackgrounds(elements: seq<Section>, deviceType: string)
    requires forall i, j :: 0 <= i < j < |elements| ==> elements[i] != elements[j]
    modifies set e | e in elements
    ensures forall i :: 0 <= i < |elements| ==>
              elements[i].View() == Decorated(old(elements[i].View()), deviceType)
  {
    for i := 0 to |elements|
      invariant forall j :: 0 <= j < i ==>
                  elements[j].View() == Decorated(old(elements[j].View()), deviceType)
      invariant forall j :: i <= j < |elements| ==> elements[j].View() == old(elements[j].View())
    {
      var section := elements[i];
      if Selected(section.View()) {
        section.DecorateBackground(deviceType);
      }
    }
  }
}
