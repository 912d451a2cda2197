/**
 * `generateTableOfContent` of the site scripts (assets/js/bulma.js): builds the
 * side menu from the page's h2..h7 headings as nested lists, following the
 * heading levels, and shows the menu only when some heading was listed.
 *
 * The loop keeps four variables: the markup so far, the level of the last
 * listed heading (`headingNumber`, unset at first), the nesting depth
 * (`levels`) and the number of listed headings (`headersCount`). `Step` is one
 * round of that loop on a `State`, `Scan` runs it over the headings, and the
 * method `GenerateTableOfContent` is the script's own loop, proved to compute
 * the same.
 */
module TableOfContents {
  import opened Wrappers
  import opened TocMarkup

  datatype State = State(markup: seq<Tag>, headingNumber: Option<nat>, levels: int, headersCount: nat)

  /** The state before the loop: the outer list, labelled with the h1 text if the page has one. */
  function Start(h1: Option<string>): State
  {
    State(Opening(h1), None, 0, 0)
  }

  /** A heading is listed unless it sits in an alert, has no level, or has no link. */
  predicate Listed(h: Heading)
  {
    !h.inAlert && h.level.Some? && h.href != ""
  }

  /** One round of the loop. */
  function Step(s: State, h: Heading): State
  {
    if !Listed(h) then s
    else
      var current := h.level.value;
      var markup :=
        match s.headingNumber
        case None => s.markup + Item(h)
        case Some(previous) =>
          if current > previous then s.markup + [ListOpen] + Item(h)
          else if current < previous then s.markup + Repeat([ItemClose, ListClose], previous - current) + Item(h)
          else s.markup + [ItemClose] + Item(h);
      var levels :=
        match s.headingNumber
        case None => s.levels
        case Some(previous) =>
          if current > previous then s.levels + 1
          else if current < previous then s.levels - (previous - current)
          else s.levels;
      State(markup, Some(current), levels, s.headersCount + 1)
  }

  /** The loop over all headings, from state `s`. */
  function Scan(s: State, headings: seq<Heading>): State
  {
    if headings == [] then s
    else Step(Scan(s, headings[..|headings| - 1]), headings[|headings| - 1])
  }

  /** The whole menu markup for a non-empty heading list. */
  function Markup(h1: Option<string>, headings: seq<Heading>): seq<Tag>
  {
    var s := Scan(Start(h1), headings);
    s.markup + Closing(s.levels)
  }

  /** The menu after the script has run on a page with an aside menu and a content element. */
  function TableOfContents(h1: Option<string>, headings: seq<Heading>): (menu: Menu)
    ensures menu.innerHtml.Some? <==> headings != []
    ensures headings == [] ==> !menu.visible
  {
    if headings == [] then Menu(None, false)
    else Menu(Some(Render(Markup(h1, headings))), Scan(Start(h1), headings).headersCount > 0)
  }

  /** One more round of the loop extends the scan by one heading. */
  lemma ScanNext(s: State, headings: seq<Heading>, i: nat)
    requires i < |headings|
    ensures Scan(s, headings[..i + 1]) == Step(Scan(s, headings[..i]), headings[i])
  {
    assert headings[..i + 1][..i] == headings[..i];
  }

  /** Skipped headings leave the whole state as it was. */
  lemma StepSkip(s: State, h: Heading)
    requires !Listed(h)
    ensures Step(s, h) == s
  {
  }

  /** The first listed heading opens an item in the outer list. */
  lemma StepFirst(s: State, h: Heading)
    requires Listed(h) && s.headingNumber.None?
    ensures Step(s, h) == State(s.markup + Item(h), h.level, s.levels, s.headersCount + 1)
  {
  }

  /** A deeper heading opens one nested list and one level, however many levels deeper it is. */
  lemma StepRise(s: State, h: Heading)
    requires Listed(h) && s.headingNumber.Some? && h.level.value > s.headingNumber.value
    ensures Step(s, h) == State(s.markup + [ListOpen] + Item(h), h.level, s.levels + 1, s.headersCount + 1)
    ensures Depth(Step(s, h).markup) == Depth(s.markup) + 1
  {
    DepthOfTag(ListOpen);
    DepthItem(h);
    DepthAppend(s.markup + [ListOpen], Item(h));
    DepthAppend(s.markup, [ListOpen]);
  }

  /** A heading `k` levels shallower closes `k` items and lists and drops `k` levels. */
  lemma StepDrop(s: State, h: Heading, k: nat)
    requires Listed(h) && s.headingNumber.Some? && h.level.value < s.headingNumber.value
    requires k == s.headingNumber.value - h.level.value
    ensures Step(s, h) == State(s.markup + Repeat([ItemClose, ListClose], k) + Item(h), h.level, s.levels - k, s.headersCount + 1)
    ensures Depth(Step(s, h).markup) == Depth(s.markup) - k
  {
    DepthItem(h);
    DepthOfPair(ItemClose, ListClose);
    DepthOfTag(ItemClose);
    DepthOfTag(ListClose);
    DepthRepeat([ItemClose, ListClose], k);
    DepthAppend(s.markup + Repeat([ItemClose, ListClose], k), Item(h));
    DepthAppend(s.markup, Repeat([ItemClose, ListClose], k));
  }

  /** A heading at the same level closes the previous item and opens its own. */
  lemma StepSame(s: State, h: Heading)
    requires Listed(h) && s.headingNumber.Some? && h.level.value == s.headingNumber.value
    ensures Step(s, h) == State(s.markup + [ItemClose] + Item(h), h.level, s.levels, s.headersCount + 1)
    ensures Depth(Step(s, h).markup) == Depth(s.markup)
  {
    DepthOfTag(ItemClose);
    DepthItem(h);
    DepthAppend(s.markup + [ItemClose], Item(h));
    DepthAppend(s.markup, [ItemClose]);
  }

  /** The first listed heading, written as the script writes it. */
  lemma FirstHtml(s: State, h: Heading, menuHtml: string)
    requires Listed(h) && s.headingNumber.None? && menuHtml == Render(s.markup)
    ensures Render(Step(s, h).markup) == menuHtml + "<li><a href=\"" + h.href + "\">" + h.text + "</a>"
    ensures Step(s, h).levels == s.levels
  {
    StepFirst(s, h);
    RenderMoreItem(s.markup, menuHtml, h);
  }

  /** A deeper heading, written as the script writes it. */
  lemma RiseHtml(s: State, h: Heading, menuHtml: string)
    requires Listed(h) && s.headingNumber.Some? && h.level.value > s.headingNumber.value && menuHtml == Render(s.markup)
    ensures Render(Step(s, h).markup) == menuHtml + "<ul class=\"menu-list\">" + "<li><a href=\"" + h.href + "\">" + h.text + "</a>"
    ensures Step(s, h).levels == s.levels + 1
  {
    StepRise(s, h);
    RenderTags([ListOpen]);
    RenderMore(s.markup, menuHtml, [ListOpen], "<ul class=\"menu-list\">");
    RenderMoreItem(s.markup + [ListOpen], menuHtml + "<ul class=\"menu-list\">", h);
  }

  /** A heading at the same level, written as the script writes it. */
  lemma SameHtml(s: State, h: Heading, menuHtml: string)
    requires Listed(h) && s.headingNumber.Some? && h.level.value == s.headingNumber.value && menuHtml == Render(s.markup)
    ensures Render(Step(s, h).markup) == menuHtml + "</li>" + "<li><a href=\"" + h.href + "\">" + h.text + "</a>"
    ensures Step(s, h).levels == s.levels
  {
    StepSame(s, h);
    RenderTags([ItemClose]);
    RenderMore(s.markup, menuHtml, [ItemClose], "</li>");
    RenderMoreItem(s.markup + [ItemClose], menuHtml + "</li>", h);
  }

  /** A shallower heading after the closing tags the script wrote for it, as the script writes it. */
  lemma DropHtml(s: State, h: Heading, k: nat, html: string)
    requires Listed(h) && s.headingNumber.Some? && h.level.value < s.headingNumber.value
    requires k == s.headingNumber.value - h.level.value
    requires html == Render(s.markup + Repeat([ItemClose, ListClose], k))
    ensures Render(Step(s, h).markup) == html + "<li><a href=\"" + h.href + "\">" + h.text + "</a>"
    ensures Step(s, h).levels == s.levels - k
  {
    StepDrop(s, h, k);
    RenderMoreItem(s.markup + Repeat([ItemClose, ListClose], k), html, h);
  }

  /** The inner loop of a drop: `</li></ul>` once for each level climbed. */
  method CloseLevels(menuHtml: string, headingNumDif: nat, ghost markup: seq<Tag>) returns (html: string)
    requires menuHtml == Render(markup)
    ensures html == Render(markup + Repeat([ItemClose, ListClose], headingNumDif))
  {
    html := menuHtml;
    RepeatNone(markup, [ItemClose, ListClose]);
    RenderTags([ItemClose, ListClose]);
    for d := 0 to headingNumDif
      invariant html == Render(markup + Repeat([ItemClose, ListClose], d))
    {
      RenderRepeatMore(markup, [ItemClose, ListClose], d, html, "</li></ul>");
      html := html + "</li></ul>";
    }
  }

  /**
   * The body of the heading loop for a heading that is listed: the markup
   * that goes with the change of level, and the new depth.
   */
  method AddHeading(menuHtml: string, headingNumber: Option<nat>, levels: int, heading: Heading, ghost s: State)
    returns (html: string, newLevels: int)
    requires Listed(heading)
    requires menuHtml == Render(s.markup) && headingNumber == s.headingNumber && levels == s.levels
    ensures html == Render(Step(s, heading).markup)
    ensures newLevels == Step(s, heading).levels
  {
    var currentHeadingCount := heading.level.value;
    var href := heading.href;
    if headingNumber.None? {
      FirstHtml(s, heading, menuHtml);
      html := menuHtml + "<li><a href=\"" + href + "\">" + heading.text + "</a>";
      newLevels := levels;
    } else if currentHeadingCount > headingNumber.value {
      // increase level
      RiseHtml(s, heading, menuHtml);
      html := menuHtml + "<ul class=\"menu-list\">" + "<li><a href=\"" + href + "\">" + heading.text + "</a>";
      newLevels := levels + 1;
    } else if currentHeadingCount < headingNumber.value {
      // decrease level, possibly by more than one
      var headingNumDif := headingNumber.value - currentHeadingCount;
      html := CloseLevels(menuHtml, headingNumDif, s.markup);
      DropHtml(s, heading, headingNumDif, html);
      html := html + "<li><a href=\"" + href + "\">" + heading.text + "</a>";
      newLevels := levels - headingNumDif;
    } else {
      // same level
      SameHtml(s, heading, menuHtml);
      html := menuHtml + "</li>" + "<li><a href=\"" + href + "\">" + heading.text + "</a>";
      newLevels := levels;
    }
  }

  method GenerateTableOfContent(h1: Option<string>, headings: seq<Heading>) returns (menu: Menu)
    ensures menu == TableOfContents(h1, headings)
  {
    if |headings| == 0 {
      return Menu(None, false);
    }
    var menuHtml: string := "<ul class=\"menu-list\">";
    var headingNumber: Option<nat> := None;
    var levels: int := 0;
    var headersCount: nat := 0;
    if h1.Some? {
      menuHtml := menuHtml + "<p class=\"menu-label\">" + h1.value + "</p>";
    }
    RenderOpening(h1);
    ghost var st := Start(h1);
    assert Scan(Start(h1), headings[..0]) == st by {
      assert headings[..0] == [];
    }

    for i := 0 to |headings|
      invariant st == Scan(Start(h1), headings[..i])
      invariant menuHtml == Render(st.markup)
      invariant headingNumber == st.headingNumber && levels == st.levels && headersCount == st.headersCount
    {
      var heading := headings[i];
      ScanNext(Start(h1), headings, i);
      ghost var before := st;
      st := Step(st, heading);

      if heading.inAlert {
        continue;
      }
      if heading.level.None? {
        continue;
      }
      var currentHeadingCount := heading.level.value;
      var href := heading.href;
      if href == "" {
        continue;
      }
      menuHtml, levels := AddHeading(menuHtml, headingNumber, levels, heading, before);
      headingNumber := Some(currentHeadingCount);
      headersCount := headersCount + 1;
    }

    assert st == Scan(Start(h1), headings) by {
      assert headings[..|headings|] == headings;
    }
    menuHtml := CloseMenu(menuHtml, levels, st.markup);
    return Menu(Some(menuHtml), headersCount > 0);
  }

  // Properties of the menu

  /** The levels of the listed headings, in page order. */
  function ListedLevels(headings: seq<Heading>): seq<nat>
  {
    if headings == [] then []
    else
      var h := headings[|headings| - 1];
      ListedLevels(headings[..|headings| - 1]) + if Listed(h) then [h.level.value] else []
  }

  /** No listed heading is more than one level deeper than the listed heading before it. */
  predicate RisesByOne(levels: seq<nat>)
  {
    forall i :: 0 < i < |levels| ==> levels[i] <= levels[i - 1] + 1
  }

  /** No listed heading is shallower than the first one. */
  predicate NoneAboveFirst(levels: seq<nat>)
  {
    forall i :: 0 <= i < |levels| ==> levels[0] <= levels[i]
  }

  /**
   * What the loop keeps true: it counts and remembers exactly the listed
   * headings, only ever appends to the markup it started with, and the lists
   * left open in the markup are always one (the outer list) plus `levels`.
   */
  lemma {:induction false} ScanInvariant(h1: Option<string>, headings: seq<Heading>)
    ensures var s, k := Scan(Start(h1), headings), ListedLevels(headings);
      && s.headersCount == |k|
      && s.headingNumber == (if k == [] then None else Some(k[|k| - 1]))
      && |Start(h1).markup| <= |s.markup|
      && s.markup[..|Start(h1).markup|] == Start(h1).markup
      && Depth(s.markup) == 1 + s.levels
  {
    var m := |Start(h1).markup|;
    if headings == [] {
      DepthOpening(h1);
    } else {
      var before, h := headings[..|headings| - 1], headings[|headings| - 1];
      ScanInvariant(h1, before);
      var s := Scan(Start(h1), before);
      if Listed(h) {
        match s.headingNumber
        case None =>
          StepFirst(s, h);
          DepthItem(h);
          DepthAppend(s.markup, Item(h));
        case Some(previous) =>
          if h.level.value > previous {
            StepRise(s, h);
          } else if h.level.value < previous {
            StepDrop(s, h, previous - h.level.value);
          } else {
            StepSame(s, h);
          }
        assert Step(s, h).markup[..m] == s.markup[..m];
      }
    }
  }

  /** The menu is shown exactly when at least one heading was listed. */
  lemma VisibleIffListed(h1: Option<string>, headings: seq<Heading>)
    ensures TableOfContents(h1, headings).visible <==> exists i :: 0 <= i < |headings| && Listed(headings[i])
  {
    ScanInvariant(h1, headings);
    ListedLevelsNonEmpty(headings);
  }

  lemma {:induction false} ListedLevelsNonEmpty(headings: seq<Heading>)
    ensures ListedLevels(headings) != [] <==> exists i :: 0 <= i < |headings| && Listed(headings[i])
  {
    if headings != [] {
      var before := headings[..|headings| - 1];
      ListedLevelsNonEmpty(before);
      if exists i :: 0 <= i < |before| && Listed(before[i]) {
        var i :| 0 <= i < |before| && Listed(before[i]);
        assert headings[i] == before[i];
      }
      if exists i :: 0 <= i < |headings| && Listed(headings[i]) {
        var i :| 0 <= i < |headings| && Listed(headings[i]);
        if i < |before| {
          assert before[i] == headings[i];
        }
      }
    }
  }

  /**
   * When every rise between consecutive listed headings is by one level,
   * `levels` is how far the last listed heading sits below the first.
   */
  lemma {:induction false} LevelsFollowHeadings(h1: Option<string>, headings: seq<Heading>)
    requires RisesByOne(ListedLevels(headings))
    ensures var k := ListedLevels(headings);
      Scan(Start(h1), headings).levels == if k == [] then 0 else k[|k| - 1] as int - k[0]
  {
    if headings != [] {
      var before, h := headings[..|headings| - 1], headings[|headings| - 1];
      var kb := ListedLevels(before);
      assert RisesByOne(kb) by {
        forall i | 0 < i < |kb| ensures kb[i] <= kb[i - 1] + 1 {
          assert ListedLevels(headings)[i] == kb[i] && ListedLevels(headings)[i - 1] == kb[i - 1];
        }
      }
      LevelsFollowHeadings(h1, before);
      ScanInvariant(h1, before);
      var s := Scan(Start(h1), before);
      if Listed(h) {
        var k := ListedLevels(headings);
        assert k == kb + [h.level.value];
        match s.headingNumber
        case None =>
          StepFirst(s, h);
        case Some(previous) =>
          assert k[|k| - 2] == previous;
          if h.level.value > previous {
            StepRise(s, h);
          } else if h.level.value < previous {
            StepDrop(s, h, previous - h.level.value);
          } else {
            StepSame(s, h);
          }
      }
    }
  }

  /**
   * Every `<ul>` of the menu is closed exactly when `levels` never ends below
   * zero; otherwise the closing tags outnumber the opening ones by that much.
   */
  lemma MarkupDepth(h1: Option<string>, headings: seq<Heading>)
    ensures var levels := Scan(Start(h1), headings).levels;
      Depth(Markup(h1, headings)) == if levels >= 0 then 0 else levels
  {
    var s := Scan(Start(h1), headings);
    ScanInvariant(h1, headings);
    DepthClosing(s.levels);
    DepthAppend(s.markup, Closing(s.levels));
  }

  /**
   * When every rise between consecutive listed headings is by one level and
   * no listed heading is shallower than the first, the menu opens and
   * closes the same number of lists.
   */
  lemma MarkupBalanced(h1: Option<string>, headings: seq<Heading>)
    requires RisesByOne(ListedLevels(headings)) && NoneAboveFirst(ListedLevels(headings))
    ensures Count(Markup(h1, headings), ListOpen) == Count(Markup(h1, headings), ListClose)
  {
    LevelsFollowHeadings(h1, headings);
    MarkupDepth(h1, headings);
  }

  /**
   * The menu markup starts with the outer list and the h1 label, if any, and
   * ends by closing the outer list.
   */
  lemma MarkupFrame(h1: Option<string>, headings: seq<Heading>)
    ensures var markup, start := Markup(h1, headings), Start(h1).markup;
      && |start| < |markup|
      && markup[..|start|] == start
      && markup[|markup| - 1] == ListClose
  {
    ScanInvariant(h1, headings);
  }

  /** The same, on the HTML text the menu receives. */
  lemma MenuFrame(h1: Option<string>, headings: seq<Heading>)
    requires headings != []
    ensures var html := TableOfContents(h1, headings).innerHtml;
      var start := ListOpenHtml + (if h1.Some? then LabelStartHtml + h1.value + LabelEndHtml else "");
      && html.Some?
      && |start| + |ListCloseHtml| <= |html.value|
      && html.value[..|start|] == start
      && html.value[|html.value| - |ListCloseHtml|..] == ListCloseHtml
  {
    var markup, m := Markup(h1, headings), Start(h1).markup;
    MarkupFrame(h1, headings);
    assert markup == m + markup[|m|..|markup| - 1] + [ListClose];
    RenderOpening(h1);
    RenderFrame(m, markup[|m|..|markup| - 1], ListClose);
  }
}
