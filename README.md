# ColorKit colour scheme — Dafny model

ColorKit is a Swift library that converts colours between the RGB, HEX, HSV,
HSL and CMYK models and derives colour schemes from a base colour. This project
models the library's `ColorScheme` container (`Sources/ColorKit/ColorScheme.swift`).
A scheme is an ordered list of colour values. It has an aggregate equality
(`==`), a printable `description`, and four bulk conversions (`getRGB`, `getHEX`,
`getHSV` and `getHSL`).

The model is one module, `ColorSchemes`, in `ColorScheme.dfy`:

- The colour value (`ColorValue`) is abstract and is passed in as parameters:
  - the type parameter `Color` stands for the value itself;
  - the relation `same` is its equality;
  - `show` is its description;
  - a function `Color -> T` is each conversion.

  `ColorValue`'s equality is the synthesized equality on its one `color: RGB` field
  (`Sources/ColorKit/ColorValue.swift:10,18`). That field's own `==` compares the
  three channels as `Double`s (`Sources/ColorKit/CKColor Representations/RGB.swift:26-31`).
  This is why element equality is a relation and not Dafny's `==`: the model
  assumes no more of it than each lemma states.
- `ColorScheme` is a class whose `colors` field is a `const`. In the source,
  `colors` is `private(set)` and no method assigns it, so the array is never
  reassigned. The colours inside it are shared RGB objects, which the model
  treats as values (see "## Left out").
- `==` and `description` are loops in the source, so they are methods with loop
  invariants. Each is proved against a specification function: `SameColors`
  (same length, pairwise equal in order) for `==`, and `Describe` for
  `description`. `Describe` builds the string piece by piece, exactly as the loop
  appends to `line`.
- The four getters are `map`s. They are functions over the recursive `Mapped`,
  and each states that it keeps the length and converts position by position.
- `Joined` is an independent reference: the colour descriptions joined with
  `"; "` between every pair of neighbours. `DescribeIsJoinedIff` proves that the
  source's description equals this join exactly when no colour before the last
  is equal to the last colour.

## Model

| member | source | states |
|---|---|---|
| `ColorSchemes.ColorScheme.constructor` | Sources/ColorKit/ColorScheme.swift:39-44 | the scheme stores the given list unchanged; the field is constant, so no method reassigns the array |
| `ColorSchemes.ColorScheme.Equal` | Sources/ColorKit/ColorScheme.swift:14-24 | false when the lengths differ; false when any position holds unequal colours; true exactly when the lengths agree and every position holds equal colours |
| `ColorSchemes.SameColorsEquivalence` | Sources/ColorKit/ColorScheme.swift:14-24 | scheme equality is reflexive, symmetric and transitive whenever colour equality is |
| `ColorSchemes.ColorScheme.Description` | Sources/ColorKit/ColorScheme.swift:26-37 | the empty scheme describes as the empty string (the last colour is never looked up then); otherwise the result is the piece-by-piece rendering judged against the last colour's value |
| `ColorSchemes.SeparatorRule` | Sources/ColorKit/ColorScheme.swift:29-34 | for every position k: the description is the rendering of the colours before k, then colour k's description, then `"; "` exactly when colour k is not equal to the last colour, then the rendering of the colours after k |
| `ColorSchemes.FinalColorHasNoSeparator` | Sources/ColorKit/ColorScheme.swift:31-33 | if the last colour equals itself, the description ends with the last colour's description and no separator |
| `ColorSchemes.DescribeIsJoinedIff` | Sources/ColorKit/ColorScheme.swift:29-34 | if the last colour equals itself: the description equals the plain `"; "`-join exactly when no earlier colour equals the last one |
| `ColorSchemes.DescribeShorterWithMatch` | Sources/ColorKit/ColorScheme.swift:31-33 | an earlier colour equal to the last one gets no separator: the description is the rendering before it, its own description, then the rendering after it; so the description is shorter than the plain join |
| `ColorSchemes.DuplicateOfLastLosesSeparator` | Sources/ColorKit/ColorScheme.swift:31 | a scheme [A, B, A] describes as `AB; A`, while the plain join gives `A; B; A` |
| `ColorSchemes.ColorScheme.JoinedDescription` | Sources/ColorKit/ColorScheme.swift:26-37 | corrected description, with the separator decided by position: the result is always the plain `"; "`-join |
| `ColorSchemes.Mapped` | Sources/ColorKit/ColorScheme.swift:48-68 | a map over the colour list keeps its length and holds the conversion of the i-th colour at position i |
| `ColorSchemes.ColorScheme.GetRGB` | Sources/ColorKit/ColorScheme.swift:48-50 | same length as the scheme; entry i is the RGB conversion of colour i |
| `ColorSchemes.ColorScheme.GetHEX` | Sources/ColorKit/ColorScheme.swift:54-56 | same length as the scheme; entry i is the HEX conversion of colour i |
| `ColorSchemes.ColorScheme.GetHSV` | Sources/ColorKit/ColorScheme.swift:60-62 | same length as the scheme; entry i is the HSV conversion of colour i |
| `ColorSchemes.ColorScheme.GetHSL` | Sources/ColorKit/ColorScheme.swift:66-68 | same length as the scheme; entry i is the HSL conversion of colour i |

## Findings

| source | as written | input that shows it | evidently intended | confidence | as-written member | corrected member |
|---|---|---|---|---|---|---|
| Sources/ColorKit/ColorScheme.swift:31 | `"; "` is appended after a colour when the colour differs from the *value* of the last colour | the scheme [red, blue, red] describes as `(red)(blue); (red)`: the first red gets no separator because it equals the last colour | a separator between every pair of adjacent colours, decided by position | high; not executed | `ColorSchemes.DuplicateOfLastLosesSeparator` | `ColorSchemes.ColorScheme.JoinedDescription` |

`ColorSchemes.ColorScheme.Description` still models the code as written. `DescribeIsJoinedIff` states exactly which schemes are affected.

## Left out

- The colour-conversion formulas (RGB to and from HEX, HSV, HSL and CMYK) are floating-point numerics. Each conversion is a function parameter of the getters. `ColorValue`'s initialisers and getters only forward to these formulas (`Sources/ColorKit/ColorValue.swift:28-66`).
- The text of each colour's description is left out. RGB prints `Double` channels, and number formatting is not modelled. `show` is a parameter.
- Floating-point equality of colours is left out. Colour equality is the parameter `same`. The lemmas that need reflexivity, symmetry or transitivity require it. The final-separator lemmas require only that the last colour equals itself. A colour holding a NaN channel would not equal itself.
- `Utility.roundTo` is floating-point rounding. Its `10^precision` in `Sources/ColorKit/Utility.swift:12` is a bitwise XOR in Swift, not a power.
- The scheme generator (complementary, triadic, tetradic, analogous) is hue arithmetic in floating point. `ColorGenerator` is not part of this model.
- The `random()` factories use randomness. `CKColor` only declares the colour protocol.
- ColorSchemes.ColorScheme.constructor and ColorSchemes.ColorScheme.GetRGB: the colours are shared, changeable RGB objects. `ColorValue` holds a reference to an `RGB` instance with public setters (`Sources/ColorKit/CKColor Representations/RGB.swift:17`). `RGB.getRGB` returns that same object, so `getRGB` hands out the scheme's own colours. A caller holding one of these objects can change what a later `==` or `description` sees. The model treats colours as values that nothing changes between calls. It does not capture this aliasing.
- Swift's reference identity of `ColorScheme` objects is not modelled. Equality is compared on the colour lists only, as in the source.
