/**
 * What the two `generateTableOfContent` scripts (assets/js/bulma.js and
 * help/templates/new/bulma.js) read from the page and what they write.
 *
 * A heading is reduced to what the scripts look at: whether its parent
 * element has the class `alert`, the number in its tag name (None when
 * `parseInt` gives NaN), the `href` of its first anchor ("" when it has none)
 * and its text. The menu markup is kept as the sequence of tags the scripts
 * concatenate, so that open and closed lists can be counted even when a
 * heading's text itself contains markup; `Render` gives the string.
 */
module TocMarkup {
  import opened Wrappers

  datatype Heading = Heading(level: Option<nat>, inAlert: bool, href: string, text: string)

  /** The pieces of markup the scripts emit. */
  datatype Tag =
    | ListOpen                           // <ul class="menu-list">
    | ListClose                          // </ul>
    | ItemOpen                           // <li>
    | ItemClose                          // </li>
    | Link(href: string, text: string)   // <a href="...">...</a>
    | Label(text: string)                // <p class="menu-label">...</p>

  /** What the aside menu ends up with: the HTML assigned to it, if any, and whether it shows. */
  datatype Menu = Menu(innerHtml: Option<string>, visible: bool)

  const ListOpenHtml: string := "<ul class=\"menu-list\">"
  const ListCloseHtml: string := "</ul>"
  const ItemOpenHtml: string := "<li>"
  const ItemCloseHtml: string := "</li>"
  const LinkStartHtml: string := "<a href=\""
  const LinkMiddleHtml: string := "\">"
  const LinkEndHtml: string := "</a>"
  const LabelStartHtml: string := "<p class=\"menu-label\">"
  const LabelEndHtml: string := "</p>"

  function TagHtml(t: Tag): string
  {
    match t
    case ListOpen => ListOpenHtml
    case ListClose => ListCloseHtml
    case ItemOpen => ItemOpenHtml
    case ItemClose => ItemCloseHtml
    case Link(href, text) => LinkStartHtml + href + LinkMiddleHtml + text + LinkEndHtml
    case Label(text) => LabelStartHtml + text + LabelEndHtml
  }

  /** The HTML text of a sequence of tags. */
  function Render(tags: seq<Tag>): string
  {
    if tags == [] then ""
    else TagHtml(tags[0]) + Render(tags[1..])
  }

  lemma {:induction false} RenderAppend(a: seq<Tag>, b: seq<Tag>)
    ensures Render(a + b) == Render(a) + Render(b)
  {
    if a == [] {
      assert a + b == b;
    } else {
      assert (a + b)[1..] == a[1..] + b;
      RenderAppend(a[1..], b);
    }
  }

  /** `unit` written `n` times, as the scripts' closing loops do. */
  function Repeat(unit: seq<Tag>, n: nat): seq<Tag>
  {
    if n == 0 then [] else Repeat(unit, n - 1) + unit
  }

  /** How many times `t` occurs in `tags`. */
  function Count(tags: seq<Tag>, t: Tag): nat
  {
    if tags == [] then 0
    else Count(tags[..|tags| - 1], t) + (if tags[|tags| - 1] == t then 1 else 0)
  }

  lemma {:induction false} CountAppend(a: seq<Tag>, b: seq<Tag>, t: Tag)
    ensures Count(a + b, t) == Count(a, t) + Count(b, t)
  {
    if b == [] {
      assert a + b == a;
    } else {
      var b' := b[..|b| - 1];
      assert (a + b)[..|a + b| - 1] == a + b';
      CountAppend(a, b', t);
    }
  }

  /** Lists opened minus lists closed: 0 when every `<ul>` has its `</ul>`. */
  function Depth(tags: seq<Tag>): int
  {
    Count(tags, ListOpen) - Count(tags, ListClose)
  }

  lemma DepthAppend(a: seq<Tag>, b: seq<Tag>)
    ensures Depth(a + b) == Depth(a) + Depth(b)
  {
    CountAppend(a, b, ListOpen);
    CountAppend(a, b, ListClose);
  }

  /** Depth of a single tag: +1 for an opened list, -1 for a closed one. */
  lemma DepthOfTag(t: Tag)
    ensures Depth([t]) == if t == ListOpen then 1 else if t == ListClose then -1 else 0
  {
    assert [t][..0] == [] && [t][0] == t;
    assert Count([t], ListOpen) == Count([], ListOpen) + (if t == ListOpen then 1 else 0);
    assert Count([t], ListClose) == Count([], ListClose) + (if t == ListClose then 1 else 0);
  }

  lemma DepthOfPair(t: Tag, u: Tag)
    ensures Depth([t, u]) == Depth([t]) + Depth([u])
  {
    assert [t, u] == [t] + [u];
    DepthAppend([t], [u]);
  }

  lemma {:induction false} DepthRepeat(unit: seq<Tag>, n: nat)
    ensures Depth(Repeat(unit, n)) == n * Depth(unit)
  {
    if n > 0 {
      DepthRepeat(unit, n - 1);
      DepthAppend(Repeat(unit, n - 1), unit);
      assert (n - 1) * Depth(unit) + Depth(unit) == n * Depth(unit);
    }
  }

  /** Markup that starts with `prefix` and ends with `last` renders with the same ends. */
  lemma RenderFrame(prefix: seq<Tag>, middle: seq<Tag>, last: Tag)
    ensures var html := Render(prefix + middle + [last]);
      && |Render(prefix)| + |TagHtml(last)| <= |html|
      && html[..|Render(prefix)|] == Render(prefix)
      && html[|html| - |TagHtml(last)|..] == TagHtml(last)
  {
    RenderAppend(prefix, middle);
    RenderAppend(prefix + middle, [last]);
    assert Render([last]) == TagHtml(last) + Render([]);
  }

  // Pieces both scripts share

  /** The start of the menu: the outer list, labelled with the h1 text if the page has one. */
  function Opening(h1: Option<string>): seq<Tag>
  {
    [ListOpen] + if h1.Some? then [Label(h1.value)] else []
  }

  /** A new list item holding the heading's link. */
  function Item(h: Heading): seq<Tag>
  {
    [ItemOpen, Link(h.href, h.text)]
  }

  /** After the loop: close the open item, then `levels` nested lists and items, then the outer list. */
  function Closing(levels: int): seq<Tag>
  {
    [ItemClose] + Repeat([ListClose, ItemClose], if levels > 0 then levels else 0) + [ListClose]
  }

  lemma RenderOpening(h1: Option<string>)
    ensures Render(Opening(h1)) ==
      "<ul class=\"menu-list\">" + if h1.Some? then "<p class=\"menu-label\">" + h1.value + "</p>" else ""
  {
    assert Render([ListOpen]) == TagHtml(ListOpen) + Render([]);
    if h1.Some? {
      assert Render([Label(h1.value)]) == TagHtml(Label(h1.value)) + Render([]);
      RenderAppend([ListOpen], [Label(h1.value)]);
    }
  }

  /** Appending `more` tags to markup already rendered as `html`. */
  lemma RenderMore(markup: seq<Tag>, html: string, more: seq<Tag>, moreHtml: string)
    requires html == Render(markup)
    requires moreHtml == Render(more)
    ensures Render(markup + more) == html + moreHtml
  {
    RenderAppend(markup, more);
  }

  lemma RenderItem(h: Heading)
    ensures Render(Item(h)) == "<li><a href=\"" + h.href + "\">" + h.text + "</a>"
  {
    var link := Link(h.href, h.text);
    assert Render([link]) == TagHtml(link) + Render([]);
    assert Item(h)[1..] == [link];
    assert Render(Item(h)) == ItemOpenHtml + TagHtml(link);
    assert ItemOpenHtml + (LinkStartHtml + h.href + LinkMiddleHtml + h.text + LinkEndHtml)
        == "<li><a href=\"" + h.href + "\">" + h.text + "</a>";
  }


  /** A new item after markup rendered as `html`, written as the script writes it. */
  lemma RenderMoreItem(markup: seq<Tag>, html: string, h: Heading)
    requires html == Render(markup)
    ensures Render(markup + Item(h)) == html + "<li><a href=\"" + h.href + "\">" + h.text + "</a>"
  {
    RenderItem(h);
    RenderAppend(markup, Item(h));
    AppendItemHtml(html, h.href, h.text);
  }

  /** A step stated on its own: proved inside its callers, it costs them far more solver effort. */
  lemma AppendItemHtml(html: string, href: string, text: string)
    ensures html + ("<li><a href=\"" + href + "\">" + text + "</a>")
         == html + "<li><a href=\"" + href + "\">" + text + "</a>"
  {
  }

  /** A step stated on its own: proved inside its callers, it costs them far more solver effort. */
  lemma RenderTags(tags: seq<Tag>)
    requires 0 < |tags| <= 2
    requires forall t :: t in tags ==> !t.Link? && !t.Label?
    ensures |tags| == 1 ==> Render(tags) == TagHtml(tags[0])
    ensures |tags| == 2 ==> Render(tags) == TagHtml(tags[0]) + TagHtml(tags[1])
  {
    if |tags| == 1 {
      assert tags[1..] == [];
    } else {
      assert tags[1..][1..] == [];
    }
  }


  /** A step stated on its own: proved inside its callers, it costs them far more solver effort. */
  lemma RepeatOnce(prefix: seq<Tag>, unit: seq<Tag>, d: nat)
    ensures prefix + Repeat(unit, d + 1) == prefix + Repeat(unit, d) + unit
  {
  }

  /** One more `unit` rendered as `unitHtml` at the end of a run of repeats. */
  lemma RenderRepeatMore(prefix: seq<Tag>, unit: seq<Tag>, d: nat, html: string, unitHtml: string)
    requires html == Render(prefix + Repeat(unit, d))
    requires unitHtml == Render(unit)
    ensures Render(prefix + Repeat(unit, d + 1)) == html + unitHtml
  {
    RepeatOnce(prefix, unit, d);
    RenderMore(prefix + Repeat(unit, d), html, unit, unitHtml);
  }

  lemma DepthItem(h: Heading)
    ensures Depth(Item(h)) == 0
  {
    DepthOfPair(ItemOpen, Link(h.href, h.text));
    DepthOfTag(ItemOpen);
    DepthOfTag(Link(h.href, h.text));
  }

  /** A step stated on its own: proved inside its callers, it costs them far more solver effort. */
  lemma ClosingRepeat(markup: seq<Tag>, levels: int, total: nat)
    requires total == if levels > 0 then levels else 0
    ensures markup + Closing(levels) == markup + [ItemClose] + Repeat([ListClose, ItemClose], total) + [ListClose]
  {
  }

  /** A step stated on its own: proved inside its callers, it costs them far more solver effort. */
  lemma RepeatNone(markup: seq<Tag>, unit: seq<Tag>)
    ensures markup + Repeat(unit, 0) == markup
  {
  }

  lemma DepthClosing(levels: int)
    ensures Depth(Closing(levels)) == -1 - (if levels > 0 then levels else 0)
  {
    var n := if levels > 0 then levels else 0;
    DepthOfTag(ItemClose);
    DepthOfTag(ListClose);
    DepthOfPair(ListClose, ItemClose);
    DepthRepeat([ListClose, ItemClose], n);
    DepthAppend([ItemClose], Repeat([ListClose, ItemClose], n));
    DepthAppend([ItemClose] + Repeat([ListClose, ItemClose], n), [ListClose]);
  }

  lemma DepthOpening(h1: Option<string>)
    ensures Depth(Opening(h1)) == 1
  {
    DepthOfTag(ListOpen);
    if h1.Some? {
      DepthOfTag(Label(h1.value));
      DepthAppend([ListOpen], [Label(h1.value)]);
    } else {
      assert Opening(h1) == [ListOpen];
    }
  }

  /** After the loop: close the last item, the `levels` nested lists, and the outer list. */
  method CloseMenu(menuHtml: string, levels: int, ghost markup: seq<Tag>) returns (html: string)
    requires menuHtml == Render(markup)
    ensures html == Render(markup + Closing(levels))
  {
    ghost var total: nat := if levels > 0 then levels else 0;
    ghost var closed := markup + [ItemClose];
    RenderTags([ItemClose]);
    RenderMore(markup, menuHtml, [ItemClose], "</li>");
    html := menuHtml + "</li>";
    RepeatNone(closed, [ListClose, ItemClose]);
    RenderTags([ListClose, ItemClose]);
    var open := levels;
    ghost var done: nat := 0;
    while open > 0
      invariant done <= total
      invariant open > 0 ==> open + done == total
      invariant open <= 0 ==> done == total
      invariant html == Render(closed + Repeat([ListClose, ItemClose], done))
    {
      RenderRepeatMore(closed, [ListClose, ItemClose], done, html, "</ul></li>");
      html := html + "</ul></li>";
      open := open - 1;
      done := done + 1;
    }
    RenderTags([ListClose]);
    RenderMore(closed + Repeat([ListClose, ItemClose], total), html, [ListClose], "</ul>");
    html := html + "</ul>";
    ClosingRepeat(markup, levels, total);
  }
}
