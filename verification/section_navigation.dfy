/** The landing page's full-screen sections (smooth-scroll-layout.jsx) and
    the navigation bar that jumps between them (NavBar.jsx). Clock values
    are milliseconds from `Date.now()`. */
module SectionNavigation {
  import opened Common

  /** The five full-screen sections, in scrolling order. */
  datatype Section = Home | About | Featured | Faq | Cta

  /** The `sections` array: the landing page's order of sections. */
  const Sections: seq<Section> := [Home, About, Featured, Faq, Cta]

  /** A section's name, as the `sections` arrays spell it. */
  function Name(s: Section): string {
    match s
    case Home => "home"
    case About => "about"
    case Featured => "featured"
    case Faq => "faq"
    case Cta => "cta"
  }

  /** Different sections have different names, so comparing names is
      comparing sections. */
  lemma NamesIdentifySections(a: Section, b: Section)
    ensures Name(a) == Name(b) <==> a == b
  {
    if a != b {
      assert |Name(a)| != |Name(b)| || Name(a)[0] != Name(b)[0];
    }
  }

  /** Section changes closer together than this are ignored. */
  const ThrottleMs: int := 1000

  /** A touch must travel further than this many pixels to count. Pointer
      coordinates are fractional, so they are reals. */
  const SwipeThreshold: real := 50.0

  /** `activeSection` and `lastScrollTime.current`. */
  datatype Layout = Layout(active: int, lastScrollTime: int)

  /** The component mounts on the first section, with the clock read then. */
  function Mount(now: int): Layout {
    Layout(0, now)
  }

  function Clamp(x: int, lo: int, hi: int): (r: int)
    requires lo <= hi
    ensures lo <= r <= hi
    ensures lo <= x <= hi ==> r == x
    ensures x < lo ==> r == lo
    ensures x > hi ==> r == hi
  {
    if x < lo then lo else if x > hi then hi else x
  }

  /** `handleSectionChange(direction)` at clock `now`: throttled to one
      change per second, and the new index is clamped to the sections. */
  function HandleSectionChange(l: Layout, direction: int, now: int): (l': Layout)
    ensures now - l.lastScrollTime < ThrottleMs ==> l' == l
    ensures now - l.lastScrollTime >= ThrottleMs ==>
      && l'.lastScrollTime == now
      && 0 <= l'.active < |Sections|
      && (0 <= l.active + direction < |Sections| ==> l'.active == l.active + direction)
      && (l.active + direction < 0 ==> l'.active == 0)
      && (l.active + direction >= |Sections| ==> l'.active == |Sections| - 1)
  {
    if now - l.lastScrollTime < ThrottleMs then l
    else Layout(Clamp(l.active + direction, 0, |Sections| - 1), now)
  }

  /** `handleWheel`: the sign of `deltaY` picks the direction; zero does nothing. */
  function WheelDirection(deltaY: real): (d: Option<int>)
    ensures d.Some? <==> deltaY != 0.0
    ensures d.Some? ==> (d.value == 1 <==> deltaY > 0.0) && (d.value == -1 <==> deltaY < 0.0)
  {
    if deltaY > 0.0 then Some(1) else if deltaY < 0.0 then Some(-1) else None
  }

  /** `handleTouchMove`: a swipe counts only beyond the threshold; swiping up
      (finger moving to a smaller y) goes forward. */
  function TouchDirection(startY: real, endY: real): (d: Option<int>)
    ensures d.Some? <==> startY - endY > SwipeThreshold || endY - startY > SwipeThreshold
    ensures d.Some? ==> (d.value == 1 <==> startY > endY) && (d.value == -1 <==> startY < endY)
  {
    var diff := startY - endY;
    if diff > SwipeThreshold || -diff > SwipeThreshold then
      (if diff > 0.0 then Some(1) else Some(-1))
    else None
  }

  /** A swipe of 50.5 pixels counts and one of exactly 50 does not. */
  lemma FractionalSwipeCounts()
    ensures TouchDirection(100.0, 49.5) == Some(1)
    ensures TouchDirection(49.5, 100.0) == Some(-1)
    ensures TouchDirection(100.0, 50.0) == None
  {
  }

  /** `scrollToSection(i)`: a direct jump, neither clamped nor throttled. */
  function ScrollToSection(l: Layout, i: int): (l': Layout)
    ensures l'.active == i && l'.lastScrollTime == l.lastScrollTime
  {
    l.(active := i)
  }

  /** `isCtaActive`: the last section is showing. */
  predicate IsCtaActive(l: Layout) {
    l.active == |Sections| - 1
  }

  /** `sections[activeSection]`, undefined outside the array. */
  function ActiveSectionName(l: Layout): (n: Option<string>)
    ensures n.Some? <==> 0 <= l.active < |Sections|
    ensures n.Some? ==> n.value == Name(Sections[l.active])
  {
    if 0 <= l.active < |Sections| then Some(Name(Sections[l.active])) else None
  }

  // ---------------------------------------------------------------------------
  // NavBar

  /** The navigation bar's links: every section but the call to action. */
  const Links: seq<Section> := [Home, About, Featured, Faq]

  /** The filter's test, `section !== "cta"`. */
  predicate IsLink(s: Section) {
    Name(s) != Name(Cta)
  }

  /** Filtering the sections leaves exactly the links. */
  lemma FilterLeavesLinks()
    ensures Filter(IsLink, Sections) == Links
  {
    assert Sections == Links + [Cta];
    FilterDropsRejectedLast(IsLink, Links, Cta);
  }

  /** `filteredSections`, the filter that produces the links. */
  function FilteredSections(): (r: seq<Section>)
    ensures r == Links
  {
    FilterLeavesLinks();
    Filter(IsLink, Sections)
  }

  function UpperChar(c: char): char {
    if 'a' <= c <= 'z' then (c as int - 32) as char else c
  }

  /** `section.charAt(0).toUpperCase() + section.slice(1)`. */
  function Label(section: string): (r: string)
    ensures |r| == |section|
    ensures |section| > 0 ==> r[0] == UpperChar(section[0]) && r[1..] == section[1..]
  {
    if |section| == 0 then "" else [UpperChar(section[0])] + section[1..]
  }

  /** A link is highlighted when the layout's active section has its name. */
  predicate Highlighted(l: Layout, link: Section) {
    ActiveSectionName(l) == Some(Name(link))
  }

  /** The events the landing page reacts to. */
  datatype Event = Wheel(deltaY: real, at: int) | Touch(startY: real, endY: real, at: int) | LinkClick(index: nat)

  /** One event: wheel and touch go through the throttled change, a link
      click of the navigation bar jumps to that link's index. */
  function Step(l: Layout, e: Event): Layout
    requires e.LinkClick? ==> e.index < 4
  {
    match e
    case Wheel(deltaY, at) =>
      (match WheelDirection(deltaY)
       case Some(d) => HandleSectionChange(l, d, at)
       case None => l)
    case Touch(startY, endY, at) =>
      (match TouchDirection(startY, endY)
       case Some(d) => HandleSectionChange(l, d, at)
       case None => l)
    case LinkClick(i) => ScrollToSection(l, i)
  }

  predicate ClickableLinks(es: seq<Event>) {
    forall k :: 0 <= k < |es| && es[k].LinkClick? ==> es[k].index < 4
  }

  /** The layout after a sequence of events. From a layout showing a real
      section, every reachable layout shows a real section. */
  function Run(l: Layout, es: seq<Event>): (l': Layout)
    requires ClickableLinks(es)
    ensures 0 <= l.active < |Sections| ==> 0 <= l'.active < |Sections|
    decreases |es|
  {
    if |es| == 0 then l
    else
      assert ClickableLinks(es[1..]) by {
        forall k | 0 <= k < |es| - 1 && es[1..][k].LinkClick?
          ensures es[1..][k].index < 4
        {
          assert es[1..][k] == es[k + 1];
        }
      }
      Run(Step(l, es[0]), es[1..])
  }

  /** Clicking link `i` shows the section the link names, so that link, and
      only that one, is highlighted. */
  lemma LinkIndexNamesSameSection(l: Layout, i: nat, j: nat)
    requires i < |Links| && j < |Links|
    ensures Links[i] == Sections[i]
    ensures Highlighted(ScrollToSection(l, i), Links[j]) <==> i == j
    ensures !IsCtaActive(ScrollToSection(l, i))
  {
    NamesIdentifySections(Sections[i], Links[j]);
  }

  /** While the call to action shows, no link is highlighted. */
  lemma CtaHighlightsNoLink(l: Layout, j: nat)
    requires IsCtaActive(l) && j < |Links|
    ensures !Highlighted(l, Links[j])
  {
    NamesIdentifySections(Cta, Links[j]);
  }

  /** The link labels. */
  lemma LinkLabels()
    ensures Label(Name(Home)) == "Home" && Label(Name(About)) == "About"
    ensures Label(Name(Featured)) == "Featured" && Label(Name(Faq)) == "Faq"
  {
  }
}
