# Page-bootstrap transforms of `scripts/scripts.js`, modelled in Dafny

The page bootstrap of this content-managed site does three things with data
behaviour that can be stated precisely. This project models those three, each
in the form the script gives it, and proves what the script promises about
them.

- **`cropString`** shortens display text at word boundaries. It splits the
  text on whitespace runs. It keeps whole words greedily while each word's
  length plus one still fits the budget, and stops at the first word that
  does not fit. It then trims the result and appends `"..."`.
  Module `Crop` (`crop.dfy`). The loop is the method `CropString`, proved
  equal to the specification function `Cropped`. The lemmas state what that
  function guarantees.
- **Responsive background images** (`decorateSectionsWithBackgrounds`). A
  section's four `data-bg-image*` attributes are combined with JavaScript
  `||` in a fixed order per device class. When a value comes out, the section
  gets a marker class and one background picture is appended to it. Module
  `Backgrounds` (`backgrounds.dfy`). Sections are objects of class `Section`
  updated in place; the choice is a pure function.
- **Hero promotion** (`buildHeroBlock`). When the first `picture` inside
  `main` precedes the first `h1` in document order, a new first section
  holding a hero block of the two is prepended. Module `Hero` (`hero.dfy`);
  `main` is an object of class `Main` whose children are replaced.

Shared pieces: `Wrappers` (an `Option` type for JavaScript `null`) and `Dom`
(element nodes as values, document order as pre-order, and stand-ins for the
page library's `buildBlock` and `createOptimizedPicture`).

Modelling choices:
- A string is `seq<char>`, with each UTF-16 code unit standing for one
  `char`. A `char` is a Unicode scalar value and cannot hold a surrogate half,
  so surrogate halves are taken to be encoded as some non-whitespace `char`.
  `|s|` equals the JavaScript `s.length` only under that encoding.
- `IsWhitespace` is the ECMAScript WhiteSpace and LineTerminator set. This is
  exactly what both `\s` and `trim()` use.
- `window.deviceType` is an explicit `deviceType: string` parameter.
- Document order is the pre-order of `main`'s children. `querySelector`
  searches only descendants, so `main` itself is not in that order.
  "Precedes" (`compareDocumentPosition` with `DOCUMENT_POSITION_PRECEDING`)
  becomes a strict comparison of positions in that order. An ancestor counts
  as preceding, as it does in the DOM.
- The sections `querySelectorAll` could match are passed as a sequence of
  distinct `Section` objects in document order. The selector itself is the
  predicate `Selected`.

The hero section is created only when the first picture comes before the
first `h1` (scripts/scripts.js:27). `Hero.HeroOrderExample` proves this order
and its converse.

## Model

| member | source | states |
|---|---|---|
| `Crop.Split` | scripts/scripts.js:178 | `split(/\s+/)` gives at least one piece, and no piece contains whitespace. |
| `Crop.JoinSplit` | scripts/scripts.js:178 | Joining the pieces with single spaces gives the input with each whitespace run collapsed to one space. `Collapse` is an independent character-by-character definition. So the split keeps every word whole and in order. |
| `Crop.SplitJoin` | scripts/scripts.js:178 | Round trip: non-empty, whitespace-free words joined by single spaces split back into exactly those words. |
| `Crop.Trim` | scripts/scripts.js:194 | `trim()` returns the piece of the input that starts at its first non-whitespace character. That piece neither starts nor ends with whitespace, and everything dropped after it is whitespace. |
| `Crop.TrimTrailingSpace` | scripts/scripts.js:185-194 | Trimming ignores a trailing space: `Trim(s + " ") == Trim(s)`. |
| `Crop.TrimTrimmed` | scripts/scripts.js:194 | `trim()` leaves a string unchanged when it neither starts nor ends with whitespace. |
| `Crop.CropString` | scripts/scripts.js:173-200 | The `every` loop, with its two accumulators, returns exactly `Cropped(s, maxLength)`. An input within the budget is returned unchanged. |
| `Crop.SpacedLength` | scripts/scripts.js:185-186 | The accumulated text is exactly as long as the budget it was charged: `currentLength` tracks the length of `croppedString`. |
| `Crop.GreedyIsLongestFit` | scripts/scripts.js:182-191 | The number of words the loop keeps is the length of the longest word prefix whose summed cost (length + 1 per word) fits the budget. Every longer prefix overshoots, so no word after the first misfit is kept, however short. |
| `Crop.SpacedTrimIsJoinTrim` | scripts/scripts.js:185-194 | The trimmed accumulated text (each word followed by a space) equals the trimmed single-space join of the same words. |
| `Crop.CroppedTruncates` | scripts/scripts.js:178-197 | Over the budget, the kept words are the longest fitting prefix of the split. The result is their trimmed single-space join followed by `"..."`. That text is within the budget (0 for a negative budget) and shorter than a non-empty input. The empty input with a negative budget yields `""`. |
| `Crop.CroppedLengthBound` | scripts/scripts.js:183-197 | For a budget `0 <= maxLength < |s|`, the result ends in `"..."` and is at most `maxLength + 3` long. |
| `Crop.CroppedFirstWordTooLong` | scripts/scripts.js:183-197 | When the first piece of the split does not fit, the result is exactly `"..."`. |
| `Crop.CroppedExample` | scripts/scripts.js:173-200 | `"The quick brown fox"` with budget 10 gives `"The quick..."`. |
| `Crop.CroppedLongerThanInput` | scripts/scripts.js:183-197 | `"a b"` with budget 2 gives `"a..."`. The result can be longer than the input. |
| `Crop.CroppedOverBudgetUnchanged` | scripts/scripts.js:174-197 | `"..."` with budget 2 comes back unchanged even though it is over the budget. "Unchanged" therefore does not imply "within the budget". |
| `Backgrounds.GetAttribute` | scripts/scripts.js:40-43 | `getAttribute` is present exactly when the attribute is, and then carries its value. |
| `Backgrounds.ChooseBackground` | scripts/scripts.js:46-56 | The `||` chain yields a truthy value exactly when the device's preference order holds one. That value is the first truthy entry in the order; absent and empty attributes are skipped. |
| `Backgrounds.OrChainPicksFirst` | scripts/scripts.js:48-54 | `a || b || c || d` on attribute values yields the first truthy operand, and yields a truthy value exactly when some operand is truthy. |
| `Backgrounds.PreferenceListsAll` | scripts/scripts.js:46-56 | Each device order (Mobile: mobile, tablet, desktop, generic; Tablet: tablet, desktop, generic, mobile; anything else: desktop, generic, tablet, mobile) lists all four attributes and nothing else. |
| `Backgrounds.ChosenIffAnyPresent` | scripts/scripts.js:46-57 | For every device class, a background is chosen exactly when at least one of the four attributes is present and non-empty. |
| `Backgrounds.ChooseBackgroundExample` | scripts/scripts.js:46-56 | With mobile and generic images, Mobile gets the mobile image. The default class, which has no desktop image, gets the generic one. Tablet skips empty tablet and desktop values. |
| `Backgrounds.AddedClass` | scripts/scripts.js:58-62 | The class added is `with-static-background-image` exactly when the section already has it, and `with-background-image` otherwise. |
| `Backgrounds.BackgroundPicture` | scripts/scripts.js:63-64 | The appended element is a picture carrying the class `background-image`. |
| `Backgrounds.Decorated` | scripts/scripts.js:35-66 | Attributes are kept. A class is added only when it is the plain background class, so the two are never both added. The static class is never gained or lost. When the selector matches and a background is chosen, the classes gain exactly `AddedClass` of the old classes, so a section already carrying the static class gains nothing. Exactly one picture is appended, as the last child, in that case and only then. Otherwise the section is unchanged. |
| `Backgrounds.Section.DecorateBackground` | scripts/scripts.js:39-66 | One `forEach` step updates the section in place. Its new state is `Decorated` of its old state. |
| `Backgrounds.DecorateSectionsWithBackgrounds` | scripts/scripts.js:34-68 | Every element ends up as `Decorated` of its old state. Those the selector does not match are untouched. |
| `Hero.FirstWithTag` | scripts/scripts.js:24-25 | `querySelector` returns the position of an element with the tag that has no earlier element with the tag. It returns nothing exactly when no element has the tag. |
| `Hero.PictureBeforeHeadingIff` | scripts/scripts.js:27 | The hero test holds exactly when some `picture` has an `h1` after it and no `h1` before it. |
| `Hero.HeroOrderExample` | scripts/scripts.js:27 | A picture followed by an `h1` qualifies; an `h1` followed by a picture does not. |
| `Hero.HeroSection` | scripts/scripts.js:28-29 | The new section is a `div` with a single child, the hero block built from `[picture, h1]`. |
| `Dom.DocumentOrderAppend` | scripts/scripts.js:24-30 | Document order distributes over concatenation of sibling lists. |
| `Hero.HeroSectionLeads` | scripts/scripts.js:28-30 | After the prepend, document order starts with the new section and its hero block, then the picture and the heading, then the old content. |
| `Hero.Main.BuildHeroBlock` | scripts/scripts.js:23-32 | When the first picture precedes the first `h1`, a section holding a hero block of exactly those two becomes main's first child. Otherwise main is unchanged. |

## Left out

- `loadEager`, `loadLazy`, `loadDelayed`, `loadPage` (scripts/scripts.js:114-171): asynchronous phase sequencing, a timer, a dynamic `import` and scroll-into-view. They are browser scheduling, with no data behaviour to state.
- `loadFonts` and the font condition (scripts/scripts.js:73-80, 124-131): stylesheet loading, `sessionStorage`, host name and viewport width are I/O and ambient globals.
- `decorateMain` and `buildAutoBlocks` (scripts/scripts.js:86-108): they only order calls into the page library, plus a `try`/`catch` that logs. The model cannot throw, so the catch has nothing to catch.
- The page library `aem.js` is not part of this model. `buildBlock` is the stand-in `Dom.BuildBlock`, a `div` with the block name as class that holds the given elements; its inner row and column wrappers are not modelled. `createOptimizedPicture` is the stand-in `Dom.OptimizedPicture`.
- `Hero.Main.BuildHeroBlock`: in the DOM, appending the picture and the heading into the hero block moves them out of their old places. The value model copies them, so the old positions still hold them. The model captures the prepend and the block's contents, not that removal.
- `Backgrounds.DecorateSectionsWithBackgrounds`: the elements arrive already listed. `querySelectorAll`'s traversal of `main` is not modelled; only its selector (`Selected`) is. The sections are assumed distinct objects, as a `NodeList` is.
- `Crop.CropString`: `maxLength` is an integer. JavaScript's coercion of non-numeric or fractional arguments is not modelled. A string holding a character outside the Basic Multilingual Plane, written directly as a single Dafny `char`, has length 1 where JavaScript counts 2. The model matches JavaScript lengths only when each surrogate half is encoded as its own non-whitespace `char`.

## Findings

None. The result being longer than the input (`Crop.CroppedLongerThanInput`) and over-budget text returned unchanged (`Crop.CroppedOverBudgetUnchanged`) follow from the documented rule. They are recorded as properties, not as defects.
