# html2canvas layout bounds, modelled in Dafny

This project models `src/css/layout/bounds.ts` of html2canvas. That file is the code that turns the browser's layout measurements into a rectangle in document coordinates. It covers five things:

- the immutable `Bounds` rectangle (left, top, width, height), with `add` and the `EMPTY` sentinel;
- `Bounds.fromClientRect`, which moves a viewport-relative rectangle by the window offset (`context.windowBounds`);
- `Bounds.fromDOMRectList`, which takes the first line fragment whose width is not zero, or `EMPTY` when there is none;
- `parseBounds`, which copies an element's measured rectangle and, when its width or height is zero, puts in the non-zero integer that `parseInt(style.width, 10)` (or `height`) gives;
- `parseDocumentSize`, which makes each side of the page the least of six metrics (scroll, offset and client size of `body` and of `documentElement`) and fails when either element is missing.

Files:

- `wrappers.dfy`: `Option` (a number or JavaScript's `NaN`/`undefined`) and `Result` (a value or a thrown error).
- `leading_int.dfy`, module `LeadingInt`: the leading-integer parse that `parseInt(text, 10)` performs. It skips ECMAScript white space, reads an optional sign, then the longest run of decimal digits, and ignores the rest. Its lemmas prove the round trip with a decimal rendering followed by any unit suffix. They also prove that text without digits in that position has no value.
- `bounds.dfy`, module `LayoutBounds`: the rest of `bounds.ts`. `parseBounds` is a method. It edits a fresh `RectSnapshot` object in place, just as the source edits its JSON copy of the measured rectangle. Everything else is a function over values.

The fallback follows the source's truthiness tests. A declared size replaces a measured one only when the measurement is exactly 0 and the declared integer is not 0. A declared `"0px"` therefore never replaces anything, and neither does a negative measurement.

Numbers are exact: rectangle coordinates are `real`, and the DOM's integer size metrics are `int`. The window offset is passed in as a `Bounds` value, not read from a `Context`. The measured rectangle and the line fragments are passed in as `ClientRect` values. The element's inline style is passed in as `Option<InlineStyle>`, where `None` means the element has no `style` object. In that case `style?.width` is `undefined`, which `parseInt` reads as the text `"undefined"`, and that gives no value.

## Model

| member | source | states |
|---|---|---|
| `LayoutBounds.AddIsFieldwise` | src/css/layout/bounds.ts:11-13 | `b.Add(x, y, w, h)` offsets each of the four fields by its own argument |
| `LayoutBounds.AddZeroIsIdentity` | src/css/layout/bounds.ts:11-13 | adding zero offsets gives back the same rectangle |
| `LayoutBounds.AddComposes` | src/css/layout/bounds.ts:11-13 | two offsets applied one after the other equal their sum applied once |
| `LayoutBounds.AddCancels` | src/css/layout/bounds.ts:11-13 | adding the opposite offsets undoes an `Add` |
| `LayoutBounds.FromClientRectTranslates` | src/css/layout/bounds.ts:15-22 | the translation keeps width and height, adds the window's left and top to the corner, and equals `Add(window.left, window.top, 0, 0)` of the measured rectangle |
| `LayoutBounds.FromClientRectIgnoresWindowSize` | src/css/layout/bounds.ts:15-22 | only the window offset's position is used, never its size |
| `LayoutBounds.Bounds.FromDOMRectList` | src/css/layout/bounds.ts:24-36 | the result is `EMPTY` exactly when every fragment has zero width; otherwise it is the translation of the fragment with non-zero width that has only zero-width fragments before it |
| `LayoutBounds.FirstNonZeroWidth` | src/css/layout/bounds.ts:25 | the index `find` stops at has non-zero width and every earlier fragment has zero width; no index means every fragment has zero width |
| `LayoutBounds.FromDOMRectListOfEmpty` | src/css/layout/bounds.ts:24-36 | an empty fragment list gives `EMPTY` |
| `LayoutBounds.FromDOMRectListIgnoresLater` | src/css/layout/bounds.ts:25-32 | once some fragment has a width, appending more fragments does not change the result |
| `LayoutBounds.FirstNonZeroWidthIgnoresLater` | src/css/layout/bounds.ts:25 | once some fragment has a width, appending more fragments does not change the index found |
| `LayoutBounds.FromDOMRectListSkipsDegenerate` | src/css/layout/bounds.ts:24-36 | zero-width fragments in front do not change the result |
| `LayoutBounds.FirstNonZeroWidthSkipsDegenerate` | src/css/layout/bounds.ts:25 | zero-width fragments in front shift the index found by their count |
| `LayoutBounds.FromDOMRectListPicksFirstNotLargest` | src/css/layout/bounds.ts:24-36 | for fragments of width 0, 5 and 50, the width-5 fragment is chosen and translated |
| `LayoutBounds.DeclaredWidth` | src/css/layout/bounds.ts:42 | an element with no style object has no declared width |
| `LayoutBounds.DeclaredHeight` | src/css/layout/bounds.ts:43 | an element with no style object has no declared height |
| `LayoutBounds.ParseBounds` | src/css/layout/bounds.ts:38-47 | left and top are the measured ones plus the window offset; a dimension becomes the declared integer exactly when it measures 0 and the declared value is a non-zero number, and otherwise stays as measured; width and height are decided independently; with both dimensions non-zero, or with no style, the result is the plain translation |
| `LayoutBounds.ParseBoundsOfCollapsedBox` | src/css/layout/bounds.ts:38-47 | a 0-by-0 box at the origin that declares "120px" by "40px" resolves to a 120-by-40 rectangle at the window offset |
| `LayoutBounds.DeclaredPixelsParse` | src/css/layout/bounds.ts:42-43 | "120px" declares 120 and "40px" declares 40 |
| `LayoutBounds.NonNumericDeclarationKeepsMeasurement` | src/css/layout/bounds.ts:42-45 | a declaration such as "auto" or "" never replaces a measurement |
| `LayoutBounds.ParseDocumentSize` | src/css/layout/bounds.ts:49-69 | fails with "Unable to get document size" exactly when the body or the root element is missing; otherwise the rectangle is at (0, 0), its width is at most each of the six width metrics and equal to one of them, and its height is likewise the least of the six height metrics |
| `LayoutBounds.LeastOfSix` | src/css/layout/bounds.ts:56-66 | the minimum of the three pairwise minima is the least of all six values |
| `LayoutBounds.Min` | src/css/layout/bounds.ts:57-59 | `Math.min` of two values is at most both and equals one of them |
| `LayoutBounds.Min3` | src/css/layout/bounds.ts:56-60 | `Math.min` of three values is at most all three and equals one of them |
| `LayoutBounds.ParseDocumentSizeIsSymmetric` | src/css/layout/bounds.ts:49-69 | swapping the body and the root element gives the same result |
| `LayoutBounds.ParseDocumentSizeExample` | src/css/layout/bounds.ts:56-60 | scroll widths 1000 and 900, offset widths 950 and 920, and client widths 800 and 850 give a page 800 wide |
| `LeadingInt.SpacePrefixLength` | src/css/layout/bounds.ts:42-43 | the white space skipped before the number is a prefix of white space that cannot be extended |
| `LeadingInt.DigitPrefixLength` | src/css/layout/bounds.ts:42-43 | the digits read are a prefix of digits that cannot be extended |
| `LeadingInt.ParseAfterSpaces` | src/css/layout/bounds.ts:42-43 | the parse skips exactly the leading white space and reads what follows |
| `LeadingInt.ParseDigitRun` | src/css/layout/bounds.ts:42-43 | white space, digits, then text that does not start with a digit parse to the value of the digits, so the unit suffix and any fraction are ignored |
| `LeadingInt.ParseSignedDigitRun` | src/css/layout/bounds.ts:42-43 | the same with a sign before the digits: '-' negates the value and '+' keeps it |
| `LeadingInt.ParseRejectsNonNumeric` | src/css/layout/bounds.ts:42-43 | text whose first non-space character is neither a digit nor a sign has no value |
| `LeadingInt.ParseRejectsBareSign` | src/css/layout/bounds.ts:42-43 | a sign with no digit after it has no value |
| `LeadingInt.DigitsValueOfNatToDigits` | src/css/layout/bounds.ts:42-43 | reading back the decimal digits of a natural number gives the number |
| `LeadingInt.ParseRendered` | src/css/layout/bounds.ts:42-43 | any integer written in decimal, after any white space and before any unit suffix, parses back to itself |

## Left out

- DOM access is not modelled: `getBoundingClientRect`, `Array.from` over a `DOMRectList` and the `node.style` lookup. Their results are parameters.
- The JSON round trip that snapshots the measured rectangle is modelled as copying the four fields into a fresh `RectSnapshot`. The snapshot's other properties (`x`, `y`, `right`, `bottom`) are not modelled, because the resolver never reads them.
- How `Context` obtains `windowBounds` is not modelled. The offset is a parameter.
- Floating point is not modelled: numbers are exact `real`s and `int`s. So `!rect.width` is true only for 0 here, while JavaScript also treats `NaN` as false. `NaN` metrics in `Math.min` are not modelled either.
- `ParseLeadingInt` returns the exact integer. For digit runs too long for a double, JavaScript's `parseInt` returns a rounded value or `Infinity`. Radix prefixes do not arise, because the radix is always 10.
- Laziness: the first-match choice is proved, but the source materialises the whole list with `Array.from` before calling `find`, so no short-circuiting is modelled.
- The thrown `Error` is modelled as a `Failure` result carrying the same message; the exception mechanism itself is not modelled.
