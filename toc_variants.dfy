/**
 * How the two copies of `generateTableOfContent` relate: on pages where
 * every heading carries a link and no listed heading is more than one level
 * shallower than the listed heading before it, they build the same HTML;
 * elsewhere they can part ways. Also a few concrete pages that show what
 * either script emits.
 */
module TocVariants {
  import opened Wrappers
  import opened TocMarkup
  import Current = TableOfContents
  import Template = TemplateTableOfContents

  /** Every heading of the page has an anchor. */
  predicate Linked(headings: seq<Heading>)
  {
    forall i :: 0 <= i < |headings| ==> headings[i].href != ""
  }

  /** No listed heading is more than one level shallower than the listed heading before it. */
  predicate DropsByAtMostOne(levels: seq<nat>)
  {
    forall i :: 0 < i < |levels| ==> levels[i - 1] <= levels[i] + 1
  }

  /** The two loops are in the same state: same markup, same last level, same depth. */
  predicate Agree(a: Current.State, b: Template.State)
  {
    a.markup == b.markup && a.headingNumber == b.headingCount && a.levels == b.levels
  }

  /**
   * One round of both loops keeps them together when the heading has a link
   * and is at most one level shallower than the last listed heading.
   */
  lemma StepsAgree(a: Current.State, b: Template.State, h: Heading)
    requires Agree(a, b) && h.href != ""
    requires Current.Listed(h) && a.headingNumber.Some? ==> a.headingNumber.value <= h.level.value + 1
    ensures Agree(Current.Step(a, h), Template.Step(b, h))
  {
    if Current.Listed(h) && a.headingNumber.Some? && h.level.value < a.headingNumber.value {
      Current.StepDrop(a, h, 1);
      Template.StepDrop(b, h);
      assert a.markup + Repeat([ItemClose, ListClose], 1) == a.markup + Repeat([ItemClose, ListClose], 0) + [ItemClose, ListClose];
      assert Repeat([ItemClose, ListClose], 0) == [];
    }
  }

  lemma {:induction false} ScansAgree(h1: Option<string>, headings: seq<Heading>)
    requires Linked(headings) && DropsByAtMostOne(Current.ListedLevels(headings))
    ensures Agree(Current.Scan(Current.Start(h1), headings), Template.Scan(Template.Start(h1), headings))
  {
    if headings != [] {
      var before, h := headings[..|headings| - 1], headings[|headings| - 1];
      var k, kb := Current.ListedLevels(headings), Current.ListedLevels(before);
      assert Linked(before) by {
        forall i | 0 <= i < |before|
          ensures before[i].href != ""
        {
          assert before[i] == headings[i];
        }
      }
      assert k == kb + if Current.Listed(h) then [h.level.value] else [];
      assert DropsByAtMostOne(kb) by {
        forall i | 0 < i < |kb|
          ensures kb[i - 1] <= kb[i] + 1
        {
          assert kb[i - 1] == k[i - 1] && kb[i] == k[i];
        }
      }
      ScansAgree(h1, before);
      Current.ScanInvariant(h1, before);
      var a := Current.Scan(Current.Start(h1), before);
      if Current.Listed(h) && a.headingNumber.Some? {
        assert k[|kb|] == h.level.value && k[|kb| - 1] == a.headingNumber.value;
      }
      StepsAgree(a, Template.Scan(Template.Start(h1), before), h);
    }
  }

  /** Under those two conditions both scripts write the same menu markup. */
  lemma SameMenuWhenLinkedAndGradual(h1: Option<string>, headings: seq<Heading>)
    requires Linked(headings) && DropsByAtMostOne(Current.ListedLevels(headings))
    ensures Current.Markup(h1, headings) == Template.Markup(h1, headings)
    ensures Current.TableOfContents(h1, headings).innerHtml == Template.TableOfContents(h1, headings).innerHtml
  {
    ScansAgree(h1, headings);
  }

  /** A linked heading of the given level, outside any alert. */
  predicate Plain(h: Heading, level: nat)
  {
    h.level == Some(level) && !h.inAlert && h.href != ""
  }

  /**
   * h2, h3, h4 and then h2 again: the current script climbs back to the top
   * list, while the template closes only the h4 list and leaves the last h2
   * one level down, beside the h3, so the two menus differ.
   */
  lemma ClimbTwoLevels(a: Heading, b: Heading, c: Heading, d: Heading)
    requires Plain(a, 2) && Plain(b, 3) && Plain(c, 4) && Plain(d, 2)
    ensures Current.Scan(Current.Start(None), [a, b, c, d]).levels == 0
    ensures Template.Scan(Template.Start(None), [a, b, c, d]).levels == 1
    ensures Current.Markup(None, [a, b, c, d]) != Template.Markup(None, [a, b, c, d])
  {
    CurrentClimb(a, b, c, d);
    TemplateClimb(a, b, c, d);
    assert Current.Markup(None, [a, b, c, d])[11] != Template.Markup(None, [a, b, c, d])[11];
  }

  /** The current script's state after h2, h3, h4, h2: two `</li></ul>` before the last item. */
  lemma CurrentClimb(a: Heading, b: Heading, c: Heading, d: Heading)
    requires Plain(a, 2) && Plain(b, 3) && Plain(c, 4) && Plain(d, 2)
    ensures var s := Current.Scan(Current.Start(None), [a, b, c, d]);
      s.levels == 0 && |s.markup| > 11 && s.markup[11] == ItemClose
  {
    var page := [a, b, c, d];
    var s0 := Current.Start(None);
    assert page[..0] == [] && page[..4] == page;
    Current.ScanNext(s0, page, 0);
    Current.ScanNext(s0, page, 1);
    Current.ScanNext(s0, page, 2);
    Current.ScanNext(s0, page, 3);
    var s1 := Current.Step(s0, a);
    var s2 := Current.Step(s1, b);
    var s3 := Current.Step(s2, c);
    Current.StepFirst(s0, a);
    Current.StepRise(s1, b);
    Current.StepRise(s2, c);
    assert |s3.markup| == 9;
    Current.StepDrop(s3, d, 2);
    assert Repeat([ItemClose, ListClose], 2) == Repeat([ItemClose, ListClose], 1) + [ItemClose, ListClose];
    assert Repeat([ItemClose, ListClose], 1) == Repeat([ItemClose, ListClose], 0) + [ItemClose, ListClose];
  }

  /** The template's state after h2, h3, h4, h2: one `</li></ul>` before the last item. */
  lemma TemplateClimb(a: Heading, b: Heading, c: Heading, d: Heading)
    requires Plain(a, 2) && Plain(b, 3) && Plain(c, 4) && Plain(d, 2)
    ensures var s := Template.Scan(Template.Start(None), [a, b, c, d]);
      s.levels == 1 && |s.markup| > 11 && s.markup[11] == ItemOpen
  {
    var page := [a, b, c, d];
    var s0 := Template.Start(None);
    assert page[..0] == [] && page[..4] == page;
    Template.ScanNext(s0, page, 0);
    Template.ScanNext(s0, page, 1);
    Template.ScanNext(s0, page, 2);
    Template.ScanNext(s0, page, 3);
    var s1 := Template.Step(s0, a);
    var s2 := Template.Step(s1, b);
    var s3 := Template.Step(s2, c);
    Template.StepFirst(s0, a);
    Template.StepRise(s1, b);
    Template.StepRise(s2, c);
    assert |s3.markup| == 9;
    Template.StepDrop(s3, d);
  }

  /**
   * A heading without an anchor: the current script leaves it out, the
   * template lists it with an empty link.
   */
  lemma HeadingWithoutAnchor()
    ensures var page := [Heading(Some(2), false, "", "x")];
      && Current.Markup(None, page) == [ListOpen, ItemClose, ListClose]
      && !Current.TableOfContents(None, page).visible
      && Template.Markup(None, page) == [ListOpen, ItemOpen, Link("", "x"), ItemClose, ListClose]
      && Template.TableOfContents(None, page).visible
  {
    var page := [Heading(Some(2), false, "", "x")];
    assert page[..0] == [];
    assert Repeat([ListClose, ItemClose], 0) == [];
  }

  /**
   * A section that skips a level (h2, h4, h3, h2) leaves `levels` below
   * zero, and the current script then writes one `</ul>` more than it
   * opened.
   */
  lemma SkippedLevelOvercloses(a: Heading, b: Heading, c: Heading, d: Heading)
    requires Plain(a, 2) && Plain(b, 4) && Plain(c, 3) && Plain(d, 2)
    ensures Current.Scan(Current.Start(None), [a, b, c, d]).levels == -1
    ensures Depth(Current.Markup(None, [a, b, c, d])) == -1
  {
    var page := [a, b, c, d];
    var s0 := Current.Start(None);
    assert page[..0] == [] && page[..4] == page;
    Current.ScanNext(s0, page, 0);
    Current.ScanNext(s0, page, 1);
    Current.ScanNext(s0, page, 2);
    Current.ScanNext(s0, page, 3);
    var s1 := Current.Step(s0, a);
    var s2 := Current.Step(s1, b);
    var s3 := Current.Step(s2, c);
    Current.StepFirst(s0, a);
    Current.StepRise(s1, b);
    Current.StepDrop(s2, c, 1);
    Current.StepDrop(s3, d, 1);
    Current.MarkupDepth(None, page);
  }

  /** The markup both scripts write for h2, h3, h2. */
  function DropMarkup(a: Heading, b: Heading, c: Heading): seq<Tag>
  {
    [ListOpen] + Item(a) + [ListOpen] + Item(b) + [ItemClose, ListClose] + Item(c) + [ItemClose, ListClose]
  }

  lemma CurrentDropMarkup(a: Heading, b: Heading, c: Heading)
    requires Plain(a, 2) && Plain(b, 3) && Plain(c, 2)
    ensures Current.Markup(None, [a, b, c]) == DropMarkup(a, b, c)
  {
    var page := [a, b, c];
    var s0 := Current.Start(None);
    assert page[..0] == [] && page[..3] == page;
    Current.ScanNext(s0, page, 0);
    Current.ScanNext(s0, page, 1);
    Current.ScanNext(s0, page, 2);
    var s1 := Current.Step(s0, a);
    var s2 := Current.Step(s1, b);
    Current.StepFirst(s0, a);
    Current.StepRise(s1, b);
    Current.StepDrop(s2, c, 1);
    assert Repeat([ItemClose, ListClose], 1) == Repeat([ItemClose, ListClose], 0) + [ItemClose, ListClose];
    assert Closing(0) == [ItemClose, ListClose];
  }

  lemma TemplateDropMarkup(a: Heading, b: Heading, c: Heading)
    requires Plain(a, 2) && Plain(b, 3) && Plain(c, 2)
    ensures Template.Markup(None, [a, b, c]) == DropMarkup(a, b, c)
  {
    var page := [a, b, c];
    var s0 := Template.Start(None);
    assert page[..0] == [] && page[..3] == page;
    Template.ScanNext(s0, page, 0);
    Template.ScanNext(s0, page, 1);
    Template.ScanNext(s0, page, 2);
    var s1 := Template.Step(s0, a);
    var s2 := Template.Step(s1, b);
    Template.StepFirst(s0, a);
    Template.StepRise(s1, b);
    Template.StepDrop(s2, c);
    assert Closing(0) == [ItemClose, ListClose];
  }


  /**
   * On a drop the parent item is never closed: h2, h3, h2 opens three items
   * and closes two, in both scripts, leaving the end of the first one to the
   * browser.
   */
  lemma ParentItemLeftOpen(a: Heading, b: Heading, c: Heading)
    requires Plain(a, 2) && Plain(b, 3) && Plain(c, 2)
    ensures Current.Markup(None, [a, b, c]) == Template.Markup(None, [a, b, c])
    ensures Count(Current.Markup(None, [a, b, c]), ItemOpen) == 3
    ensures Count(Current.Markup(None, [a, b, c]), ItemClose) == 2
  {
    CurrentDropMarkup(a, b, c);
    TemplateDropMarkup(a, b, c);
    var p1 := [ListOpen] + Item(a);
    var p2 := p1 + [ListOpen];
    var p3 := p2 + Item(b);
    var p4 := p3 + [ItemClose, ListClose];
    var p5 := p4 + Item(c);
    CountItemTags([ListOpen], Item(a));
    CountItemTags(p1, [ListOpen]);
    CountItemTags(p2, Item(b));
    CountItemTags(p3, [ItemClose, ListClose]);
    CountItemTags(p4, Item(c));
    CountItemTags(p5, [ItemClose, ListClose]);
  }

  lemma CountItemTags(a: seq<Tag>, b: seq<Tag>)
    ensures Count(a + b, ItemOpen) == Count(a, ItemOpen) + Count(b, ItemOpen)
    ensures Count(a + b, ItemClose) == Count(a, ItemClose) + Count(b, ItemClose)
  {
    CountAppend(a, b, ItemOpen);
    CountAppend(a, b, ItemClose);
  }
}
