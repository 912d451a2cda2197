/**
 * The older `generateTableOfContent` of the new-site template
 * (help/templates/new/bulma.js). It walks the headings like the current
 * script, with three differences: a heading without a link is still listed
 * (with an empty `href`), a drop to a shallower heading closes exactly one
 * level however many it climbs, and the menu is shown whenever the page has
 * any h2..h7 heading, listed or not. There is no count of listed headings.
 */
module TemplateTableOfContents {
  import opened Wrappers
  import opened TocMarkup

  datatype State = State(markup: seq<Tag>, headingCount: Option<nat>, levels: int)

  function Start(h1: Option<string>): State
  {
    State(Opening(h1), None, 0)
  }

  /** A heading is listed unless it sits in an alert or has no level; a missing link does not matter. */
  predicate Listed(h: Heading)
  {
    !h.inAlert && h.level.Some?
  }

  /** One round of the loop. */
  function Step(s: State, h: Heading): State
  {
    if !Listed(h) then s
    else
      var current := h.level.value;
      var markup :=
        match s.headingCount
        case None => s.markup + Item(h)
        case Some(previous) =>
          if current > previous then s.markup + [ListOpen] + Item(h)
          else if current < previous then s.markup + [ItemClose, ListClose] + Item(h)
          else s.markup + [ItemClose] + Item(h);
      var levels :=
        match s.headingCount
        case None => s.levels
        case Some(previous) =>
          if current > previous then s.levels + 1
          else if current < previous then s.levels - 1
          else s.levels;
      State(markup, Some(current), levels)
  }

  /** The loop over all headings, from state `s`. */
  function Scan(s: State, headings: seq<Heading>): State
  {
    if headings == [] then s
    else Step(Scan(s, headings[..|headings| - 1]), headings[|headings| - 1])
  }

  /** The whole menu markup for a non-empty heading list. */
  function Markup(h1: Option<string>, headings: seq<Heading>): seq<Tag>
  {
    var s := Scan(Start(h1), headings);
    s.markup + Closing(s.levels)
  }

  /** The menu after the script has run: shown exactly when the page has headings at all. */
  function TableOfContents(h1: Option<string>, headings: seq<Heading>): (menu: Menu)
    ensures menu.visible <==> headings != []
    ensures menu.innerHtml.Some? <==> headings != []
  {
    if headings == [] then Menu(None, false)
    else Menu(Some(Render(Markup(h1, headings))), true)
  }

  lemma ScanNext(s: State, headings: seq<Heading>, i: nat)
    requires i < |headings|
    ensures Scan(s, headings[..i + 1]) == Step(Scan(s, headings[..i]), headings[i])
  {
    assert headings[..i + 1][..i] == headings[..i];
  }

  /** Headings in an alert or without a level leave the whole state as it was. */
  lemma StepSkip(s: State, h: Heading)
    requires !Listed(h)
    ensures Step(s, h) == s
  {
  }

  /** A heading without a link is listed all the same, with an empty `href`. */
  lemma StepUnlinked(s: State, h: Heading)
    requires !h.inAlert && h.level.Some? && h.href == ""
    ensures var m := Step(s, h).markup;
      |m| >= |s.markup| + 2 && m[|m| - 2..] == [ItemOpen, Link("", h.text)]
    ensures Step(s, h).headingCount == h.level
  {
  }

  /** The first listed heading opens an item in the outer list. */
  lemma StepFirst(s: State, h: Heading)
    requires Listed(h) && s.headingCount.None?
    ensures Step(s, h) == State(s.markup + Item(h), h.level, s.levels)
  {
  }

  /** A deeper heading opens one nested list and one level. */
  lemma StepRise(s: State, h: Heading)
    requires Listed(h) && s.headingCount.Some? && h.level.value > s.headingCount.value
    ensures Step(s, h) == State(s.markup + [ListOpen] + Item(h), h.level, s.levels + 1)
    ensures Depth(Step(s, h).markup) == Depth(s.markup) + 1
  {
    DepthOfTag(ListOpen);
    DepthItem(h);
    DepthAppend(s.markup + [ListOpen], Item(h));
    DepthAppend(s.markup, [ListOpen]);
  }

  /** A shallower heading closes exactly one item and list and one level, however far it climbs. */
  lemma StepDrop(s: State, h: Heading)
    requires Listed(h) && s.headingCount.Some? && h.level.value < s.headingCount.value
    ensures Step(s, h) == State(s.markup + [ItemClose, ListClose] + Item(h), h.level, s.levels - 1)
    ensures Depth(Step(s, h).markup) == Depth(s.markup) - 1
  {
    DepthItem(h);
    DepthOfPair(ItemClose, ListClose);
    DepthOfTag(ItemClose);
    DepthOfTag(ListClose);
    DepthAppend(s.markup + [ItemClose, ListClose], Item(h));
    DepthAppend(s.markup, [ItemClose, ListClose]);
  }

  /** A heading at the same level closes the previous item and opens its own. */
  lemma StepSame(s: State, h: Heading)
    requires Listed(h) && s.headingCount.Some? && h.level.value == s.headingCount.value
    ensures Step(s, h) == State(s.markup + [ItemClose] + Item(h), h.level, s.levels)
    ensures Depth(Step(s, h).markup) == Depth(s.markup)
  {
    DepthOfTag(ItemClose);
    DepthItem(h);
    DepthAppend(s.markup + [ItemClose], Item(h));
    DepthAppend(s.markup, [ItemClose]);
  }

  /** The first listed heading, written as the script writes it. */
  lemma FirstHtml(s: State, h: Heading, menuHtml: string)
    requires Listed(h) && s.headingCount.None? && menuHtml == Render(s.markup)
    ensures Render(Step(s, h).markup) == menuHtml + "<li><a href=\"" + h.href + "\">" + h.text + "</a>"
    ensures Step(s, h).levels == s.levels
  {
    StepFirst(s, h);
    RenderMoreItem(s.markup, menuHtml, h);
  }

  /** A deeper heading, written as the script writes it. */
  lemma RiseHtml(s: State, h: Heading, menuHtml: string)
    requires Listed(h) && s.headingCount.Some? && h.level.value > s.headingCount.value && menuHtml == Render(s.markup)
    ensures Render(Step(s, h).markup) == menuHtml + "<ul class=\"menu-list\">" + "<li><a href=\"" + h.href + "\">" + h.text + "</a>"
    ensures Step(s, h).levels == s.levels + 1
  {
    StepRise(s, h);
    RenderTags([ListOpen]);
    RenderMore(s.markup, menuHtml, [ListOpen], "<ul class=\"menu-list\">");
    RenderMoreItem(s.markup + [ListOpen], menuHtml + "<ul class=\"menu-list\">", h);
  }

  /** A heading at the same level, written as the script writes it. */
  lemma SameHtml(s: State, h: Heading, menuHtml: string)
    requires Listed(h) && s.headingCount.Some? && h.level.value == s.headingCount.value && menuHtml == Render(s.markup)
    ensures Render(Step(s, h).markup) == menuHtml + "</li>" + "<li><a href=\"" + h.href + "\">" + h.text + "</a>"
    ensures Step(s, h).levels == s.levels
  {
    StepSame(s, h);
    RenderTags([ItemClose]);
    RenderMore(s.markup, menuHtml, [ItemClose], "</li>");
    RenderMoreItem(s.markup + [ItemClose], menuHtml + "</li>", h);
  }

  /** A shallower heading, written as the script writes it: one level closed whatever the distance. */
  lemma DropHtml(s: State, h: Heading, menuHtml: string)
    requires Listed(h) && s.headingCount.Some? && h.level.value < s.headingCount.value && menuHtml == Render(s.markup)
    ensures Render(Step(s, h).markup) == menuHtml + "</li></ul>" + "<li><a href=\"" + h.href + "\">" + h.text + "</a>"
    ensures Step(s, h).levels == s.levels - 1
  {
    StepDrop(s, h);
    RenderTags([ItemClose, ListClose]);
    RenderMore(s.markup, menuHtml, [ItemClose, ListClose], "</li></ul>");
    RenderMoreItem(s.markup + [ItemClose, ListClose], menuHtml + "</li></ul>", h);
  }

  /** The body of the heading loop for a listed heading: the markup for the change of level, and the new depth. */
  method AddHeading(menuHtml: string, headingCount: Option<nat>, levels: int, heading: Heading, ghost s: State)
    returns (html: string, newLevels: int)
    requires Listed(heading)
    requires menuHtml == Render(s.markup) && headingCount == s.headingCount && levels == s.levels
    ensures html == Render(Step(s, heading).markup)
    ensures newLevels == Step(s, heading).levels
  {
    var currentHeadingCount := heading.level.value;
    var href := heading.href;
    if headingCount.None? {
      FirstHtml(s, heading, menuHtml);
      html := menuHtml + "<li><a href=\"" + href + "\">" + heading.text + "</a>";
      newLevels := levels;
    } else if currentHeadingCount > headingCount.value {
      // increase level
      RiseHtml(s, heading, menuHtml);
      html := menuHtml + "<ul class=\"menu-list\">" + "<li><a href=\"" + href + "\">" + heading.text + "</a>";
      newLevels := levels + 1;
    } else if currentHeadingCount < headingCount.value {
      // decrease level
      DropHtml(s, heading, menuHtml);
      html := menuHtml + "</li></ul>" + "<li><a href=\"" + href + "\">" + heading.text + "</a>";
      newLevels := levels - 1;
    } else {
      // same level
      SameHtml(s, heading, menuHtml);
      html := menuHtml + "</li>" + "<li><a href=\"" + href + "\">" + heading.text + "</a>";
      newLevels := levels;
    }
  }

  method GenerateTableOfContent(h1: Option<string>, headings: seq<Heading>) returns (menu: Menu)
    ensures menu == TableOfContents(h1, headings)
  {
    if |headings| == 0 {
      return Menu(None, false);
    }
    var menuHtml: string := "<ul class=\"menu-list\">";
    var headingCount: Option<nat> := None;
    var levels: int := 0;
    if h1.Some? {
      menuHtml := menuHtml + "<p class=\"menu-label\">" + h1.value + "</p>";
    }
    RenderOpening(h1);
    ghost var st := Start(h1);
    assert Scan(Start(h1), headings[..0]) == st by {
      assert headings[..0] == [];
    }

    for i := 0 to |headings|
      invariant st == Scan(Start(h1), headings[..i])
      invariant menuHtml == Render(st.markup)
      invariant headingCount == st.headingCount && levels == st.levels
    {
      var heading := headings[i];
      ScanNext(Start(h1), headings, i);
      ghost var before := st;
      st := Step(st, heading);

      if heading.inAlert {
        continue;
      }
      if heading.level.None? {
        continue;
      }
      var currentHeadingCount := heading.level.value;
      menuHtml, levels := AddHeading(menuHtml, headingCount, levels, heading, before);
      headingCount := Some(currentHeadingCount);
    }

    assert st == Scan(Start(h1), headings) by {
      assert headings[..|headings|] == headings;
    }
    menuHtml := CloseMenu(menuHtml, levels, st.markup);
    return Menu(Some(menuHtml), true);
  }

  // Properties of the menu

  /** The levels of the listed headings, in page order. */
  function ListedLevels(headings: seq<Heading>): seq<nat>
  {
    if headings == [] then []
    else
      var h := headings[|headings| - 1];
      ListedLevels(headings[..|headings| - 1]) + if Listed(h) then [h.level.value] else []
  }

  /**
   * What the loop keeps true: it remembers the level of the last listed
   * heading, only appends to the markup it started with, and the lists left
   * open are always one (the outer list) plus `levels`.
   */
  lemma {:induction false} ScanInvariant(h1: Option<string>, headings: seq<Heading>)
    ensures var s, k := Scan(Start(h1), headings), ListedLevels(headings);
      && s.headingCount == (if k == [] then None else Some(k[|k| - 1]))
      && |Opening(h1)| <= |s.markup|
      && s.markup[..|Opening(h1)|] == Opening(h1)
      && Depth(s.markup) == 1 + s.levels
  {
    var m := |Opening(h1)|;
    if headings == [] {
      DepthOpening(h1);
    } else {
      var before, h := headings[..|headings| - 1], headings[|headings| - 1];
      ScanInvariant(h1, before);
      var s := Scan(Start(h1), before);
      if Listed(h) {
        match s.headingCount
        case None =>
          StepFirst(s, h);
          DepthItem(h);
          DepthAppend(s.markup, Item(h));
        case Some(previous) =>
          if h.level.value > previous {
            StepRise(s, h);
          } else if h.level.value < previous {
            StepDrop(s, h);
          } else {
            StepSame(s, h);
          }
        assert Step(s, h).markup[..m] == s.markup[..m];
      }
    }
  }

  /**
   * Every `<ul>` of the menu is closed exactly when `levels` never ends below
   * zero; otherwise the closing tags outnumber the opening ones by that much.
   */
  lemma MarkupDepth(h1: Option<string>, headings: seq<Heading>)
    ensures var levels := Scan(Start(h1), headings).levels;
      Depth(Markup(h1, headings)) == if levels >= 0 then 0 else levels
  {
    var s := Scan(Start(h1), headings);
    ScanInvariant(h1, headings);
    DepthClosing(s.levels);
    DepthAppend(s.markup, Closing(s.levels));
  }

  /**
   * The menu markup starts with the outer list and the h1 label, if any, and
   * ends by closing the outer list.
   */
  lemma MarkupFrame(h1: Option<string>, headings: seq<Heading>)
    ensures var markup, start := Markup(h1, headings), Start(h1).markup;
      && |start| < |markup|
      && markup[..|start|] == start
      && markup[|markup| - 1] == ListClose
  {
    ScanInvariant(h1, headings);
  }
}
