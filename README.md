# Greeting samples and the documentation menu builder, in Dafny

This project models two small groups of code from the FAKE repository and
proves properties of the models.

**Greetings.**
- The `Communicator` class of the advanced CMake sample holds one name, and `hello()` greets it. Module `CommunicatorLib`, file `communicator.dfy`.
- Two command-line `main` programs reject a run without names and otherwise print one greeting per argument. The advanced one greets through a `Communicator` (`AdvancedHello`, `hello_advanced.dfy`). The simple one writes the greeting inline (`SimpleHello`, `hello_simple.dfy`).
- `Process` (`process.dfy`) describes what a run leaves behind: the lines written to standard output, the lines written to standard error, and the exit status.
- The TypeScript `greeter` formats a `Person` (`Greetings`, `greetings.ts` → `greetings.dfy`).

**Table of contents.**
- `generateTableOfContent` turns a documentation page's h2..h7 headings into a side menu of nested lists. There are two copies of it:
  - the site script assets/js/bulma.js, modelled in `TableOfContents` (`table_of_contents.dfy`);
  - the older help/templates/new/bulma.js, modelled in `TemplateTableOfContents` (`template_table_of_contents.dfy`).
- What both copies share is in `TocMarkup` (`toc_markup.dfy`):
  - the heading record the scripts read;
  - the markup they emit, as a sequence of tags with `Render` giving the HTML text;
  - the opening and the closing of the menu. The closing loop is `CloseMenu`.
- `TocVariants` (`toc_variants.dfy`) relates the two copies and works through a few concrete pages.

Each script loop has two parts:
- A specification. `Step` is one round of the loop on a state record, `Scan` folds it over the headings, and `TableOfContents` is the resulting menu.
- An imperative method. `GenerateTableOfContent` builds the HTML string exactly as the script does, with the same `continue`s, the same inner closing loop and the same trailing loop. It is proved to produce `TableOfContents`.

The main driver loops follow the same pattern: `Run` is proved equal to `Outcome`.

Properties proved:
- **Greetings:** round trips between each greeting and a parser for it; the exact error and success transcripts of both drivers; that the two drivers agree on every argument vector.
- **Table of contents:** how each kind of heading changes the markup and the depth counter; that the number of unclosed lists is always one plus `levels`; when the menu's `<ul>`s balance; the menu's first and last tags; when the menu is shown.
- **The two copies:** on pages where every heading has a link and no listed heading is more than one level shallower than the listed heading before it, they write the same HTML (`SameMenuWhenLinkedAndGradual`). Visibility can still differ there when no heading is listed. Where those conditions fail the two can differ; `ClimbTwoLevels` and `HeadingWithoutAnchor` show two such pages.

The C++ constructor accepts any string, so `EmptyNameGreeting` greets the empty name.

Behaviour of the menu builders that the lemmas record:
- **Both copies leave the parent item open on a drop.** A drop writes `</li></ul><li>` and never closes the parent `<li>`; the browser's implied end tags close it (`ParentItemLeftOpen`).
- **The site script can close too many lists.** It opens one list per rise, however many levels the rise skips, but closes one list per level on a drop. A page h2, h4, h3, h2 therefore ends with one more `</ul>` than `<ul>` (`SkippedLevelOvercloses`).
- **The template closes too few.** After a drop of two levels it leaves the heading one list too deep (`ClimbTwoLevels`).

## Model

| member | source | states |
|---|---|---|
| CommunicatorLib.Communicator.Hello | Samples/CMakeSupport/Advanced/Communicator/Communicator.cxx:10-13 | the greeting is 7 characters longer than the name, starts with "Hello " and ends with "!" |
| CommunicatorLib.Interlocutor | Samples/CMakeSupport/Advanced/Communicator/Communicator.cxx:12 | a text is read as a greeting exactly when it starts with "Hello " and ends with "!", and the name read is 7 characters shorter |
| CommunicatorLib.HelloRoundTrip | Samples/CMakeSupport/Advanced/Communicator/Communicator.cxx:5-13 | removing the 6-character salutation and the final "!" from `hello()` gives back the name the constructor stored |
| CommunicatorLib.InterlocutorRoundTrip | Samples/CMakeSupport/Advanced/Communicator/Communicator.cxx:12 | every text shaped like a greeting is exactly the greeting of the name read from it |
| CommunicatorLib.HelloInjective | Samples/CMakeSupport/Advanced/Communicator/Communicator.h:9-14 | two communicators greet alike if and only if they hold the same name; the name is their only state |
| CommunicatorLib.EmptyNameGreeting | Samples/CMakeSupport/Advanced/Communicator/Communicator.cxx:5-13 | nothing validates the name: the empty name is greeted "Hello !" |
| AdvancedHello.Greetings | Samples/CMakeSupport/Advanced/Hello/main.cxx:14-18 | one line per name, line i being the communicator greeting of name i |
| AdvancedHello.Outcome | Samples/CMakeSupport/Advanced/Hello/main.cxx:7-20 | fails exactly when argc < 2, with only the error line on stderr and nothing on stdout; otherwise succeeds with nothing on stderr and argc - 1 lines, line i being `Communicator(argv[i]).hello()` |
| AdvancedHello.Run | Samples/CMakeSupport/Advanced/Hello/main.cxx:7-20 | the argument check and the greeting loop produce exactly `Outcome(argv)` |
| AdvancedHello.GreetingsAppend | Samples/CMakeSupport/Advanced/Hello/main.cxx:14-18 | greeting two runs of names one after the other gives their lines one after the other, so order is kept |
| AdvancedHello.ProgramNameIgnored | Samples/CMakeSupport/Advanced/Hello/main.cxx:14 | the program name argv[0] is never greeted: replacing it leaves the transcript unchanged |
| AdvancedHello.LinesMatchArguments | Samples/CMakeSupport/Advanced/Hello/main.cxx:14-18 | two output lines are equal if and only if their arguments are equal |
| AdvancedHello.NoDeduplication | Samples/CMakeSupport/Advanced/Hello/main.cxx:14-18 | the names Bob and Bob give "Hello Bob!" twice |
| SimpleHello.Outcome | src/legacy/Samples/CMakeSupport/Simple/main.cxx:4-14 | fails exactly when argc < 2, with the error line on stderr only; otherwise succeeds with argc - 1 lines, line i being "Hello " + argv[i] + "!" |
| SimpleHello.Run | src/legacy/Samples/CMakeSupport/Simple/main.cxx:4-14 | the argument check and the inline greeting loop produce exactly `Outcome(argv)` |
| SimpleHello.SameAsAdvanced | src/legacy/Samples/CMakeSupport/Simple/main.cxx:6-13 | for every argument vector the simple program's stdout, stderr and status equal the advanced program's, error message included |
| Greetings.Greeter | src/legacy/Samples/typescript/greetings.ts:6-8 | the greeting is 8 characters longer than the two names, starts with "Hello, ", followed by the first name, a space, and the last name at the end |
| Greetings.SampleUserGreeting | src/legacy/Samples/typescript/greetings.ts:10-12 | the sample user Jane User is greeted "Hello, Jane User" |
| Greetings.SplitGreeting | src/legacy/Samples/typescript/greetings.ts:7 | a text read as a greeting has the length the two names imply, and the first name read has no space |
| Greetings.SplitGreeter | src/legacy/Samples/typescript/greetings.ts:7 | a person whose first name has no space is read back from their greeting |
| Greetings.GreeterSplit | src/legacy/Samples/typescript/greetings.ts:7 | every text read as a greeting is exactly the greeting of the person read |
| Greetings.GreeterNotInjective | src/legacy/Samples/typescript/greetings.ts:7 | the names run together: "Jane Q" "User" and "Jane" "Q User" get the same greeting |
| TocMarkup.RenderOpening | assets/js/bulma.js:10-17 | the menu starts with `<ul class="menu-list">`, then the h1 label when the page has an h1 |
| TocMarkup.DepthOpening | assets/js/bulma.js:10-17 | the opening leaves exactly one list open |
| TocMarkup.DepthClosing | assets/js/bulma.js:53-57 | the closing closes one list plus `levels` more when `levels` is positive, and no more |
| TocMarkup.CloseMenu | assets/js/bulma.js:53-57 | "</li>", then "</ul></li>" once for each remaining level while `levels` > 0, then "</ul>"; the template's lines 48-52 do the same |
| TableOfContents.TableOfContents | assets/js/bulma.js:9-67 | a page without headings gets no HTML and a hidden menu; any other page gets the rendered markup |
| TableOfContents.GenerateTableOfContent | assets/js/bulma.js:9-67 | the script's loop, with its skips, inner closing loop and trailing loop, yields exactly `TableOfContents(h1, headings)` |
| TableOfContents.AddHeading | assets/js/bulma.js:32-50 | one round for a listed heading writes the HTML of `Step` and updates `levels` as `Step` does |
| TableOfContents.CloseLevels | assets/js/bulma.js:40-41 | the inner loop of a drop writes `</li></ul>` exactly once for each level climbed |
| TableOfContents.StepSkip | assets/js/bulma.js:23-30 | a heading in an alert, without a level number or without a link leaves markup, last level, depth and count unchanged |
| TableOfContents.StepFirst | assets/js/bulma.js:32-33 | the first listed heading adds one item at the current depth |
| TableOfContents.StepRise | assets/js/bulma.js:34-37 | a deeper heading opens exactly one list and raises `levels` by 1, however large the rise |
| TableOfContents.StepDrop | assets/js/bulma.js:38-43 | a drop of k levels writes k times `</li></ul>` and lowers `levels` and the open-list count by k |
| TableOfContents.StepSame | assets/js/bulma.js:44-46 | a heading at the same level writes `</li>` before its item and keeps `levels` |
| TableOfContents.ScanInvariant | assets/js/bulma.js:19-51 | `headersCount` is the number of listed headings, `headingNumber` is the last listed level, the opening is never rewritten, and the open lists are always 1 + `levels` |
| TableOfContents.VisibleIffListed | assets/js/bulma.js:50-64 | the menu is shown if and only if at least one heading is listed, on every page |
| TableOfContents.LevelsFollowHeadings | assets/js/bulma.js:32-50 | when every rise between consecutive listed headings is by one level, `levels` equals the last listed level minus the first |
| TableOfContents.MarkupDepth | assets/js/bulma.js:53-57 | the finished menu closes every list when `levels` ends at 0 or more, and has `-levels` extra `</ul>`s otherwise |
| TableOfContents.MarkupBalanced | assets/js/bulma.js:32-57 | when every rise between consecutive listed headings is by one level and no listed heading is shallower than the first, `<ul>` and `</ul>` are equal in number |
| TableOfContents.MarkupFrame | assets/js/bulma.js:10-57 | the menu markup starts with the opening and ends by closing a list |
| TableOfContents.MenuFrame | assets/js/bulma.js:10-59 | the HTML given to the menu starts with `<ul class="menu-list">` and the h1 label, and ends with `</ul>` |
| TemplateTableOfContents.TableOfContents | help/templates/new/bulma.js:9-58 | the menu is shown, and gets HTML, exactly when the page has at least one h2..h7 heading, even if none is listed |
| TemplateTableOfContents.GenerateTableOfContent | help/templates/new/bulma.js:9-58 | the template's loop and trailing loop yield exactly `TableOfContents(h1, headings)` |
| TemplateTableOfContents.AddHeading | help/templates/new/bulma.js:30-45 | one round for a listed heading writes the HTML of `Step` and updates `levels` as `Step` does |
| TemplateTableOfContents.StepSkip | help/templates/new/bulma.js:22-25 | a heading in an alert or without a level number changes nothing |
| TemplateTableOfContents.StepUnlinked | help/templates/new/bulma.js:27-31 | a heading without an anchor is still listed, with the link `href=""`, and becomes the last level |
| TemplateTableOfContents.StepFirst | help/templates/new/bulma.js:30-31 | the first listed heading adds one item at the current depth |
| TemplateTableOfContents.StepRise | help/templates/new/bulma.js:32-35 | a deeper heading opens one list and raises `levels` by 1 |
| TemplateTableOfContents.StepDrop | help/templates/new/bulma.js:36-39 | a drop of any size writes `</li></ul>` once and lowers `levels` and the open-list count by exactly 1 |
| TemplateTableOfContents.StepSame | help/templates/new/bulma.js:40-42 | a heading at the same level writes `</li>` before its item and keeps `levels` |
| TemplateTableOfContents.ScanInvariant | help/templates/new/bulma.js:18-46 | `headingCount` is the last listed level, the opening is never rewritten, and the open lists are always 1 + `levels` |
| TemplateTableOfContents.MarkupDepth | help/templates/new/bulma.js:48-53 | the finished menu closes every list when `levels` ends at 0 or more, and has `-levels` extra `</ul>`s otherwise |
| TemplateTableOfContents.MarkupFrame | help/templates/new/bulma.js:10-53 | the menu markup starts with the opening and ends by closing a list |
| TocVariants.StepsAgree | help/templates/new/bulma.js:36-39 | for a linked heading at most one level shallower than the last listed heading, one round of each loop keeps the two states equal |
| TocVariants.ScansAgree | help/templates/new/bulma.js:18-46 | on pages whose headings all have links and whose listed headings are each at most one level shallower than the listed heading before, the two loops end in the same state |
| TocVariants.SameMenuWhenLinkedAndGradual | assets/js/bulma.js:28-43 | on pages whose headings all have links and whose listed headings are each at most one level shallower than the listed heading before, both scripts produce the same markup and the same HTML |
| TocVariants.ClimbTwoLevels | help/templates/new/bulma.js:36-39 | on h2, h3, h4, h2 the site script ends at `levels` 0 and the template at 1, and their menus differ |
| TocVariants.HeadingWithoutAnchor | help/templates/new/bulma.js:27-31 | a page whose only heading has no anchor gets a hidden menu with no item from the site script, and a visible one-item menu from the template |
| TocVariants.SkippedLevelOvercloses | assets/js/bulma.js:34-43 | on h2, h4, h3, h2 the site script ends at `levels` -1, with one `</ul>` more than `<ul>` |
| TocVariants.ParentItemLeftOpen | assets/js/bulma.js:38-42 | on h2, h3, h2 both scripts write the same menu, with three `<li>` and only two `</li>` |

## Left out

- The DOM lookups are not modelled. When the page has no `aside.menu` or no `#content`, both scripts return before doing anything; the model starts after those checks (assets/js/bulma.js:2-6). A heading becomes a record of four fields: whether its parent has the class `alert`; the number `parseInt` reads from its tag name, or None for NaN; its first anchor's `href`, or ""; and its `innerText`. A browser turns `anchor.href` into an absolute URL; the model takes the string as given.
- Writing `menu.style.display` and `menu.innerHTML` is a `Menu` value (HTML text and visibility). The class swaps in `hideMenu` are left out. So are `registerNavbarBurger` and the `DOMContentLoaded` wiring; they are UI event code.
- In both scripts the last branch tests that the new level equals the previous one (assets/js/bulma.js:44, help/templates/new/bulma.js:40). For level numbers that test always holds when the others fail, so both `AddHeading` methods use a plain else.
- The C++ streams are sequences of lines, one per `std::endl`. The exit status is the symbolic `EXIT_SUCCESS`/`EXIT_FAILURE`, whose numbers are platform-defined.
- `argc` is the length of `argv`, program name included. The C++ `int` loop counter cannot overflow for any real argument vector, so it is unbounded.
- The C++ class's `private` field, `explicit` constructor, missing default constructor and lack of other public operations are expressed only by the shape of `CommunicatorLib.Communicator`. It is a datatype whose one constructor takes the name and whose one operation is `Hello`.
- `hello()` being `const`, and repeated calls giving the same string, are not separate lemmas. Both hold for any Dafny function on a value.
- `greeter` not modifying its argument holds because a `Person` is a value. The `Person` interface is a datatype. Line 12, which writes the greeting into `document.body`, is DOM output and is left out; the sample user's greeting is `SampleUserGreeting`.
- Greetings.SplitGreeting: it inverts `Greeter` only for first names without a space. `GreeterNotInjective` shows that no reader can do better.
- In `TocMarkup.CloseMenu` the trailing loop counts down a copy of `levels`. In the scripts it counts down `levels` itself, which is not used afterwards.
- The lemmas whose names end in `Html`, and `RenderMore`, `RenderMoreItem` and similar, only line up the scripts' string concatenations with `Render`. They carry no meaning of their own.
