/** Model of ColorKit's ColorScheme: an ordered list of colour values with
    aggregate equality, a printable description and bulk conversions.

    The colour value is kept abstract. It is the type parameter `Color`; its
    equality is the relation `same` (the colour's synthesized equality, which
    compares the wrapped RGB channels as floating-point numbers and so need not
    be identity); its printable form is `show`; and each conversion (to RGB,
    HEX, HSV or HSL) is a function `Color -> T`. */
module ColorSchemes {

  // ---------------------------------------------------------------------------
  // Equality of colour lists
  // ---------------------------------------------------------------------------

  /** Two colour lists are equal as schemes: same length and element-wise
      equal, in order. */
  predicate SameColors<Color>(a: seq<Color>, b: seq<Color>, same: (Color, Color) -> bool)
  {
    |a| == |b| && forall i | 0 <= i < |a| :: same(a[i], b[i])
  }

  /** Scheme equality inherits reflexivity, symmetry and transitivity from
      element equality. */
  lemma SameColorsEquivalence<Color>(a: seq<Color>, b: seq<Color>, c: seq<Color>, same: (Color, Color) -> bool)
    requires forall x :: same(x, x)
    requires forall x, y :: same(x, y) ==> same(y, x)
    requires forall x, y, z :: same(x, y) && same(y, z) ==> same(x, z)
    ensures SameColors(a, a, same)
    ensures SameColors(a, b, same) ==> SameColors(b, a, same)
    ensures SameColors(a, b, same) && SameColors(b, c, same) ==> SameColors(a, c, same)
  {
  }

  // ---------------------------------------------------------------------------
  // Description
  // ---------------------------------------------------------------------------

  /** What the description loop appends for colour `c` when the list's last
      colour is `last`: its own description, then "; " unless `c` equals `last`. */
  function Piece<Color>(c: Color, last: Color, show: Color -> string, same: (Color, Color) -> bool): string
  {
    show(c) + (if same(c, last) then "" else "; ")
  }

  /** The pieces of `cs`, in order, each judged against `last`. */
  function Rendered<Color>(cs: seq<Color>, last: Color, show: Color -> string, same: (Color, Color) -> bool): string
    decreases |cs|
  {
    if cs == [] then ""
    else Rendered(cs[..|cs| - 1], last, show, same) + Piece(cs[|cs| - 1], last, show, same)
  }

  /** The description of a scheme with colours `cs`, as the source computes it:
      every colour is judged against the value of the last colour. */
  function Describe<Color>(cs: seq<Color>, show: Color -> string, same: (Color, Color) -> bool): string
  {
    if cs == [] then "" else Rendered(cs, cs[|cs| - 1], show, same)
  }

  /** Reference: the descriptions of `cs` joined with "; " between every pair
      of adjacent colours. */
  function Joined<Color>(cs: seq<Color>, show: Color -> string): string
    decreases |cs|
  {
    if |cs| == 0 then ""
    else if |cs| == 1 then show(cs[0])
    else Joined(cs[..|cs| - 1], show) + "; " + show(cs[|cs| - 1])
  }

  /** Total length of the colour descriptions in `cs`. */
  function Width<Color>(cs: seq<Color>, show: Color -> string): nat
    decreases |cs|
  {
    if cs == [] then 0 else Width(cs[..|cs| - 1], show) + |show(cs[|cs| - 1])|
  }

  /** Number of colours in `cs` not equal to `last`: those that get a separator. */
  function Separators<Color>(cs: seq<Color>, last: Color, same: (Color, Color) -> bool): nat
    decreases |cs|
  {
    if cs == [] then 0
    else Separators(cs[..|cs| - 1], last, same) + (if same(cs[|cs| - 1], last) then 0 else 1)
  }

  /** Rendering distributes over concatenation of colour lists. */
  lemma {:induction false} RenderedAppend<Color>(a: seq<Color>, b: seq<Color>, last: Color, show: Color -> string, same: (Color, Color) -> bool)
    ensures Rendered(a + b, last, show, same) == Rendered(a, last, show, same) + Rendered(b, last, show, same)
    decreases |b|
  {
    if b == [] {
      assert a + b == a;
    } else {
      var front, x := b[..|b| - 1], b[|b| - 1];
      var ab := a + b;
      assert ab[..|ab| - 1] == a + front && ab[|ab| - 1] == x;
      calc {
        Rendered(ab, last, show, same);
        Rendered(a + front, last, show, same) + Piece(x, last, show, same);
        { RenderedAppend(a, front, last, show, same); }
        Rendered(a, last, show, same) + Rendered(front, last, show, same) + Piece(x, last, show, same);
      }
    }
  }

  /** The description is, colour by colour in list order, the colour's own
      description followed by "; " exactly when that colour is not equal to
      the last colour of the list. */
  lemma SeparatorRule<Color>(cs: seq<Color>, k: nat, show: Color -> string, same: (Color, Color) -> bool)
    requires k < |cs|
    ensures var last := cs[|cs| - 1];
      Describe(cs, show, same)
      == Rendered(cs[..k], last, show, same)
         + show(cs[k]) + (if same(cs[k], last) then "" else "; ")
         + Rendered(cs[k + 1..], last, show, same)
  {
    var last := cs[|cs| - 1];
    assert cs == cs[..k] + [cs[k]] + cs[k + 1..];
    RenderedAppend(cs[..k] + [cs[k]], cs[k + 1..], last, show, same);
    RenderedAppend(cs[..k], [cs[k]], last, show, same);
    assert Rendered([cs[k]], last, show, same) == Piece(cs[k], last, show, same) by {
      assert [cs[k]][..0] == [];
    }
  }

  /** When element equality is reflexive on the last colour, the last colour
      never gets a trailing separator. */
  lemma FinalColorHasNoSeparator<Color>(cs: seq<Color>, show: Color -> string, same: (Color, Color) -> bool)
    requires cs != [] && same(cs[|cs| - 1], cs[|cs| - 1])
    ensures Describe(cs, show, same) == Rendered(cs[..|cs| - 1], cs[|cs| - 1], show, same) + show(cs[|cs| - 1])
  {
  }

  lemma {:induction false} RenderedLength<Color>(cs: seq<Color>, last: Color, show: Color -> string, same: (Color, Color) -> bool)
    ensures |Rendered(cs, last, show, same)| == Width(cs, show) + 2 * Separators(cs, last, same)
    decreases |cs|
  {
    if cs != [] {
      RenderedLength(cs[..|cs| - 1], last, show, same);
    }
  }

  lemma {:induction false} JoinedLength<Color>(cs: seq<Color>, show: Color -> string)
    requires cs != []
    ensures |Joined(cs, show)| == Width(cs, show) + 2 * (|cs| - 1)
    decreases |cs|
  {
    if |cs| == 1 {
      assert cs[..0] == [];
    } else {
      JoinedLength(cs[..|cs| - 1], show);
    }
  }

  /** A colour in `cs` equal to `last` saves one separator. */
  lemma {:induction false} SeparatorsBound<Color>(cs: seq<Color>, last: Color, same: (Color, Color) -> bool)
    ensures Separators(cs, last, same) <= |cs|
    ensures (exists i | 0 <= i < |cs| :: same(cs[i], last)) ==> Separators(cs, last, same) < |cs|
    decreases |cs|
  {
    if cs != [] {
      var front := cs[..|cs| - 1];
      SeparatorsBound(front, last, same);
      if exists i | 0 <= i < |cs| :: same(cs[i], last) {
        var i :| 0 <= i < |cs| && same(cs[i], last);
        if i < |cs| - 1 {
          assert same(front[i], last);
        }
      }
    }
  }

  /** With no colour of `p` equal to `last`, rendering `p` is the reference
      join followed by one trailing separator. */
  lemma {:induction false} RenderedWithoutMatches<Color>(p: seq<Color>, last: Color, show: Color -> string, same: (Color, Color) -> bool)
    requires p != []
    requires forall i | 0 <= i < |p| :: !same(p[i], last)
    ensures Rendered(p, last, show, same) == Joined(p, show) + "; "
    decreases |p|
  {
    var front := p[..|p| - 1];
    if |p| == 1 {
      assert front == [];
    } else {
      RenderedWithoutMatches(front, last, show, same);
    }
  }

  /** With no earlier colour equal to the last one, the description is the
      reference join. */
  lemma DescribeJoinedWithoutMatches<Color>(cs: seq<Color>, show: Color -> string, same: (Color, Color) -> bool)
    requires cs != [] && same(cs[|cs| - 1], cs[|cs| - 1])
    requires forall i | 0 <= i < |cs| - 1 :: !same(cs[i], cs[|cs| - 1])
    ensures Describe(cs, show, same) == Joined(cs, show)
  {
    var n, last := |cs|, cs[|cs| - 1];
    var front := cs[..n - 1];
    assert cs[..n - 1] == front;
    if n > 1 {
      RenderedWithoutMatches(front, last, show, same);
      assert Describe(cs, show, same) == Joined(front, show) + "; " + show(last);
    } else {
      assert front == [];
      assert Rendered(cs, last, show, same) == "" + Piece(last, last, show, same);
      assert Piece(last, last, show, same) == show(last) + "";
    }
  }

  /** An earlier colour equal to the last one gets no separator, which makes
      the description two characters shorter than the reference join, at least. */
  lemma DescribeShorterWithMatch<Color>(cs: seq<Color>, k: nat, show: Color -> string, same: (Color, Color) -> bool)
    requires k < |cs| - 1 && same(cs[|cs| - 1], cs[|cs| - 1]) && same(cs[k], cs[|cs| - 1])
    ensures Describe(cs, show, same)
      == Rendered(cs[..k], cs[|cs| - 1], show, same) + show(cs[k])
         + Rendered(cs[k + 1..], cs[|cs| - 1], show, same)
    ensures |Describe(cs, show, same)| < |Joined(cs, show)|
  {
    var n, last := |cs|, cs[|cs| - 1];
    var front := cs[..n - 1];
    SeparatorRule(cs, k, show, same);
    assert same(front[k], last);
    SeparatorsBound(front, last, same);
    assert Separators(cs, last, same) == Separators(front, last, same);
    RenderedLength(cs, last, show, same);
    JoinedLength(cs, show);
  }

  /** The description is the plain "; "-join of the colour descriptions exactly
      when no colour before the last one equals the last one (given that the
      last colour equals itself). */
  lemma DescribeIsJoinedIff<Color>(cs: seq<Color>, show: Color -> string, same: (Color, Color) -> bool)
    requires cs != [] && same(cs[|cs| - 1], cs[|cs| - 1])
    ensures Describe(cs, show, same) == Joined(cs, show)
        <==> forall i | 0 <= i < |cs| - 1 :: !same(cs[i], cs[|cs| - 1])
  {
    if forall i | 0 <= i < |cs| - 1 :: !same(cs[i], cs[|cs| - 1]) {
      DescribeJoinedWithoutMatches(cs, show, same);
    } else {
      var k :| 0 <= k < |cs| - 1 && same(cs[k], cs[|cs| - 1]);
      DescribeShorterWithMatch(cs, k, show, same);
    }
  }

  /** A scheme whose first and last colours are equal and whose middle colour
      differs: the first colour loses its separator. With descriptions "A" and
      "B", the scheme [A, B, A] renders as "AB; A" instead of "A; B; A". */
  lemma DuplicateOfLastLosesSeparator()
    ensures Describe([0, 1, 0], Label, (x: int, y: int) => x == y) == "AB; A"
    ensures Joined([0, 1, 0], Label) == "A; B; A"
  {
    var same := (x: int, y: int) => x == y;
    var cs := [0, 1, 0];
    assert cs[..2] == [0, 1] && [0, 1][..1] == [0] && [0][..0] == [];
    assert Rendered([0], 0, Label, same) == "A";
    assert Rendered([0, 1], 0, Label, same) == "AB; ";
    assert [0, 1, 0][..2] == [0, 1];
  }

  /** Descriptions of two stand-in colours. */
  function Label(x: int): string
  {
    if x == 0 then "A" else "B"
  }

  // ---------------------------------------------------------------------------
  // Bulk conversion
  // ---------------------------------------------------------------------------

  /** The list of conversions of the colours of `cs`, in the same order. */
  function Mapped<Color, T>(cs: seq<Color>, convert: Color -> T): (r: seq<T>)
    ensures |r| == |cs|
    ensures forall i | 0 <= i < |cs| :: r[i] == convert(cs[i])
  {
    if cs == [] then [] else [convert(cs[0])] + Mapped(cs[1..], convert)
  }

  // ---------------------------------------------------------------------------
  // The scheme
  // ---------------------------------------------------------------------------

  /** An ordered list of colours. The list is fixed at construction: the
      source's setter is private and no method assigns it. */
  class ColorScheme<Color> {
    const colors: seq<Color>

    constructor (colors: seq<Color>)
      ensures this.colors == colors
    {
      this.colors := colors;
    }

    /** Scheme equality: false as soon as the lengths differ or some position
        holds unequal colours. */
    static method Equal(lhs: ColorScheme<Color>, rhs: ColorScheme<Color>, same: (Color, Color) -> bool)
      returns (equal: bool)
      ensures |lhs.colors| != |rhs.colors| ==> !equal
      ensures forall i | 0 <= i < |lhs.colors| && i < |rhs.colors| ::
                !same(lhs.colors[i], rhs.colors[i]) ==> !equal
      ensures equal <==> SameColors(lhs.colors, rhs.colors, same)
    {
      if |lhs.colors| != |rhs.colors| {
        return false;
      }
      for i := 0 to |lhs.colors|
        invariant forall j | 0 <= j < i :: same(lhs.colors[j], rhs.colors[j])
      {
        if !same(lhs.colors[i], rhs.colors[i]) {
          return false;
        }
      }
      return true;
    }

    /** The printable form: each colour's description, followed by "; " when
        the colour is not equal to the last colour of the scheme. */
    method Description(show: Color -> string, same: (Color, Color) -> bool) returns (line: string)
      ensures colors == [] ==> line == ""
      ensures line == Describe(colors, show, same)
    {
      line := "";
      for i := 0 to |colors|
        invariant colors == [] ==> line == ""
        invariant colors != [] ==> line == Rendered(colors[..i], colors[|colors| - 1], show, same)
      {
        var color := colors[i];
        line := line + show(color);
        if !same(color, colors[|colors| - 1]) {
          line := line + "; ";
        }
        assert colors[..i + 1][..i] == colors[..i];
      }
      assert colors[..|colors|] == colors;
    }

    /** The evidently intended printable form: the separator is decided by
        position, so it stands between every pair of adjacent colours. */
    method JoinedDescription(show: Color -> string) returns (line: string)
      ensures line == Joined(colors, show)
    {
      line := "";
      for i := 0 to |colors|
        invariant i == 0 ==> line == ""
        invariant 0 < i < |colors| ==> line == Joined(colors[..i], show) + "; "
        invariant 0 < i == |colors| ==> line == Joined(colors[..i], show)
      {
        line := line + show(colors[i]);
        if i != |colors| - 1 {
          line := line + "; ";
        }
        assert colors[..i + 1][..i] == colors[..i];
      }
      assert colors[..|colors|] == colors;
    }

    /** The scheme's colours in RGB representation, in order. */
    function GetRGB<Rgb>(toRGB: Color -> Rgb): (rgb: seq<Rgb>)
      ensures |rgb| == |colors|
      ensures forall i | 0 <= i < |colors| :: rgb[i] == toRGB(colors[i])
    {
      Mapped(colors, toRGB)
    }

    /** The scheme's colours in HEX representation, in order. */
    function GetHEX<Hex>(toHEX: Color -> Hex): (hex: seq<Hex>)
      ensures |hex| == |colors|
      ensures forall i | 0 <= i < |colors| :: hex[i] == toHEX(colors[i])
    {
      Mapped(colors, toHEX)
    }

    /** The scheme's colours in HSV representation, in order. */
    function GetHSV<Hsv>(toHSV: Color -> Hsv): (hsv: seq<Hsv>)
      ensures |hsv| == |colors|
      ensures forall i | 0 <= i < |colors| :: hsv[i] == toHSV(colors[i])
    {
      Mapped(colors, toHSV)
    }

    /** The scheme's colours in HSL representation, in order. */
    function GetHSL<Hsl>(toHSL: Color -> Hsl): (hsl: seq<Hsl>)
      ensures |hsl| == |colors|
      ensures forall i | 0 <= i < |colors| :: hsl[i] == toHSL(colors[i])
    {
      Mapped(colors, toHSL)
    }
  }
}
