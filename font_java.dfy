/**
 * The Java client's bitmap `Font`: glyph widths measured from the font
 * image, string width, `sanitize`, the shadow darkening of a colour, and the
 * sequence of display lists `draw` calls for a string.
 *
 * `SharedConstants.acceptableLetters` is not part of this model; it is the
 * parameter `letters`. Glyph `c` of `letters` at index k is drawn with
 * display list k + 32 and has width `charWidths[k + 32]`.
 */
module FontJava {
  import opened Wrappers
  import opened Argb

  /** The colour-code escape: character 223 starts a two-character code. */
  const Section: char := 223 as char

  /** `String.indexOf(char)`: the first index of `c`, or -1. */
  function IndexOf(s: seq<char>, c: char): (k: int)
    ensures -1 <= k < |s|
    ensures k >= 0 ==> s[k] == c && c !in s[..k]
    ensures k == -1 <==> c !in s
  {
    if |s| == 0 then -1
    else if s[0] == c then 0
    else
      var k := IndexOf(s[1..], c);
      assert s == [s[0]] + s[1..];
      if k == -1 then -1 else k + 1
  }

  // ---------------------------------------------------------------------
  // Glyph widths from the font image (the constructor)
  // ---------------------------------------------------------------------

  /** The image is a 16x16 grid of 8x8 glyph cells and at least 128x128. */
  predicate GoodImage(pixels: seq<int>, w: nat, h: nat)
  {
    w >= 128 && h >= 128 && |pixels| == w * h
  }

  lemma CellInImage(pixels: seq<int>, w: nat, h: nat, i: nat, x: nat, y: nat)
    requires GoodImage(pixels, w, h) && i < 256 && x < 8 && y < 8
    ensures (i % 16) * 8 + x < w
    ensures PixelIndex(w, i, x, y) < |pixels|
  {
    var row := (i / 16) * 8 + y;
    assert row <= 127;
    assert row * w <= 127 * w;
    assert 128 * w <= h * w;
  }

  /** Column x of glyph i has a lit pixel in one of its 8 rows. */
  predicate ColumnInked(pixels: seq<int>, w: nat, h: nat, i: nat, x: nat)
    requires GoodImage(pixels, w, h) && i < 256 && x < 8
  {
    exists y: nat :: y < 8 && Lit(pixels, w, h, i, x, y)
  }

  predicate Lit(pixels: seq<int>, w: nat, h: nat, i: nat, x: nat, y: nat)
    requires GoodImage(pixels, w, h) && i < 256 && x < 8 && y < 8
  {
    GlyphPixel(pixels, w, h, i, x, y) > 0
  }

  /** The blue byte of pixel (x, y) of glyph cell i. */
  function GlyphPixel(pixels: seq<int>, w: nat, h: nat, i: nat, x: nat, y: nat): int
    requires GoodImage(pixels, w, h) && i < 256 && x < 8 && y < 8
  {
    CellInImage(pixels, w, h, i, x, y);
    pixels[PixelIndex(w, i, x, y)] % 256
  }

  /** Where pixel (x, y) of glyph cell i sits in the row-major pixel array. */
  function PixelIndex(w: nat, i: nat, x: nat, y: nat): nat
  {
    (i % 16) * 8 + x + ((i / 16) * 8 + y) * w
  }

  /** The rightmost inked column of glyph i at or left of x, or -1. */
  function RightmostInk(pixels: seq<int>, w: nat, h: nat, i: nat, x: int): (r: int)
    requires GoodImage(pixels, w, h) && i < 256 && -1 <= x < 8
    ensures -1 <= r <= x
    ensures r >= 0 ==> ColumnInked(pixels, w, h, i, r)
    ensures forall c :: r < c <= x ==> !ColumnInked(pixels, w, h, i, c)
    decreases x + 1
  {
    if x < 0 then -1
    else if ColumnInked(pixels, w, h, i, x) then x
    else RightmostInk(pixels, w, h, i, x - 1)
  }

  /** The width of glyph i: two more than its rightmost inked column; space
      is forced to 4. */
  function GlyphWidth(pixels: seq<int>, w: nat, h: nat, i: nat): int
    requires GoodImage(pixels, w, h) && i < 256
  {
    (if i == 32 then 2 else RightmostInk(pixels, w, h, i, 7)) + 2
  }

  /** The inner scan of the constructor: stops at the first lit row. */
  method ScanColumn(pixels: seq<int>, w: nat, h: nat, i: nat, x: nat) returns (empty: bool)
    requires GoodImage(pixels, w, h) && i < 256 && x < 8
    ensures empty <==> !ColumnInked(pixels, w, h, i, x)
  {
    var xt, yt := i % 16, i / 16;
    var xPixel := xt * 8 + x;
    empty := true;
    var y := 0;
    while y < 8 && empty
      invariant 0 <= y <= 8
      invariant empty <==> forall y' :: 0 <= y' < y ==> !Lit(pixels, w, h, i, x, y')
      invariant !empty ==> ColumnInked(pixels, w, h, i, x)
    {
      CellInImage(pixels, w, h, i, x, y);
      var yPixel := (yt * 8 + y) * w;
      assert xPixel + yPixel == PixelIndex(w, i, x, y);
      var pixel := pixels[xPixel + yPixel] % 256;
      if pixel > 0 {
        assert Lit(pixels, w, h, i, x, y);
        empty := false;
      } else {
        assert !Lit(pixels, w, h, i, x, y);
      }
      y := y + 1;
    }
  }

  /** The constructor's first loop: every glyph's width, for all 256 glyphs. */
  method MeasureGlyphs(pixels: seq<int>, w: nat, h: nat) returns (widths: seq<int>)
    requires GoodImage(pixels, w, h)
    ensures |widths| == 256
    ensures forall i :: 0 <= i < 256 ==> widths[i] == GlyphWidth(pixels, w, h, i)
    ensures forall i :: 0 <= i < 256 ==> 1 <= widths[i] <= 9
    ensures widths[32] == 4
  {
    widths := [];
    var i := 0;
    while i < 256
      invariant 0 <= i <= 256 && |widths| == i
      invariant forall j :: 0 <= j < i ==> widths[j] == GlyphWidth(pixels, w, h, j)
    {
      var x := 7;
      while x >= 0
        invariant -1 <= x <= 7
        invariant RightmostInk(pixels, w, h, i, 7) == RightmostInk(pixels, w, h, i, x)
        decreases x + 1
      {
        var empty := ScanColumn(pixels, w, h, i, x);
        if !empty {
          break;
        }
        x := x - 1;
      }
      if i == 32 {
        x := 2;
      }
      widths := widths + [x + 2];
      i := i + 1;
    }
  }

  // ---------------------------------------------------------------------
  // Width and sanitize
  // ---------------------------------------------------------------------

  /** The width one character adds: its glyph's width when it is an
      acceptable letter, else nothing. */
  function CharWidth(widths: seq<int>, letters: seq<char>, c: char): int
    requires |widths| == 256 && |letters| <= 224
  {
    var k := IndexOf(letters, c);
    if k >= 0 then widths[k + 32] else 0
  }

  /** The width of a string: a colour code (the escape and the character
      after it) adds nothing, every other character adds its `CharWidth`. */
  function WidthOf(widths: seq<int>, letters: seq<char>, s: seq<char>): int
    requires |widths| == 256 && |letters| <= 224
    decreases |s|
  {
    if |s| == 0 then 0
    else if s[0] == Section then WidthOf(widths, letters, if |s| >= 2 then s[2..] else [])
    else CharWidth(widths, letters, s[0]) + WidthOf(widths, letters, s[1..])
  }

  /** The string with colour codes and unacceptable characters removed. */
  function SanitizeOf(letters: seq<char>, s: seq<char>): seq<char>
    decreases |s|
  {
    if |s| == 0 then []
    else if s[0] == Section then SanitizeOf(letters, if |s| >= 2 then s[2..] else [])
    else (if s[0] in letters then [s[0]] else []) + SanitizeOf(letters, s[1..])
  }

  /** `sanitize` keeps only acceptable letters and never a colour escape. */
  lemma {:induction false} SanitizeOnlyLetters(letters: seq<char>, s: seq<char>)
    ensures forall c :: c in SanitizeOf(letters, s) ==> c in letters && c != Section
    decreases |s|
  {
    if |s| == 0 {
    } else if s[0] == Section {
      SanitizeOnlyLetters(letters, if |s| >= 2 then s[2..] else []);
    } else {
      SanitizeOnlyLetters(letters, s[1..]);
    }
  }

  /** Width of a concatenation when the left part has no colour escape. */
  lemma {:induction false} WidthAppend(widths: seq<int>, letters: seq<char>, a: seq<char>, b: seq<char>)
    requires |widths| == 256 && |letters| <= 224
    requires Section !in a
    ensures WidthOf(widths, letters, a + b) == WidthOf(widths, letters, a) + WidthOf(widths, letters, b)
    decreases |a|
  {
    if |a| > 0 {
      assert (a + b)[0] == a[0];
      assert (a + b)[1..] == a[1..] + b;
      WidthAppend(widths, letters, a[1..], b);
    } else {
      assert a + b == b;
    }
  }

  /** Sanitizing never changes a string's width. */
  lemma {:induction false} SanitizeKeepsWidth(widths: seq<int>, letters: seq<char>, s: seq<char>)
    requires |widths| == 256 && |letters| <= 224
    ensures WidthOf(widths, letters, SanitizeOf(letters, s)) == WidthOf(widths, letters, s)
    decreases |s|
  {
    if |s| == 0 {
    } else if s[0] == Section {
      SanitizeKeepsWidth(widths, letters, if |s| >= 2 then s[2..] else []);
    } else {
      var head := if s[0] in letters then [s[0]] else [];
      SanitizeKeepsWidth(widths, letters, s[1..]);
      WidthAppend(widths, letters, head, SanitizeOf(letters, s[1..]));
      if s[0] in letters {
        assert WidthOf(widths, letters, head) == CharWidth(widths, letters, s[0]) + WidthOf(widths, letters, []);
      } else {
        assert CharWidth(widths, letters, s[0]) == 0;
      }
    }
  }

  /** A string of acceptable letters without escapes is its own sanitized form. */
  lemma {:induction false} SanitizeFixesLetters(letters: seq<char>, s: seq<char>)
    requires forall c :: c in s ==> c in letters && c != Section
    ensures SanitizeOf(letters, s) == s
    decreases |s|
  {
    if |s| > 0 {
      SanitizeFixesLetters(letters, s[1..]);
      assert s == [s[0]] + s[1..];
    }
  }

  /** Sanitizing twice is sanitizing once. */
  lemma SanitizeIdempotent(letters: seq<char>, s: seq<char>)
    ensures SanitizeOf(letters, SanitizeOf(letters, s)) == SanitizeOf(letters, s)
  {
    SanitizeOnlyLetters(letters, s);
    SanitizeFixesLetters(letters, SanitizeOf(letters, s));
  }

  // ---------------------------------------------------------------------
  // Colours
  // ---------------------------------------------------------------------

  /** The shadow colour of `draw(..., darken = true)`: alpha kept, each of
      red, green and blue quartered. */
  function Darken(color: bv32): (d: bv32)
  {
    var oldAlpha := color & 0xFF00_0000;
    ((color & 0xFC_FCFC) >> 2) + oldAlpha
  }

  /** Darkening keeps alpha. */
  lemma DarkenAlpha(color: bv32)
    ensures Channel(Darken(color), 24) == Channel(color, 24)
  {
  }

  /** Darkening quarters red. */
  lemma DarkenRed(color: bv32)
    ensures Channel(Darken(color), 16) == Channel(color, 16) / 4
  {
    assert (Darken(color) >> 16) & 0xFF == ((color >> 16) & 0xFF) >> 2;
    QuarterByte((color >> 16) & 0xFF);
  }

  /** Darkening quarters green. */
  lemma DarkenGreen(color: bv32)
    ensures Channel(Darken(color), 8) == Channel(color, 8) / 4
  {
    assert (Darken(color) >> 8) & 0xFF == ((color >> 8) & 0xFF) >> 2;
    QuarterByte((color >> 8) & 0xFF);
  }

  /** Darkening quarters blue. */
  lemma DarkenBlue(color: bv32)
    ensures Channel(Darken(color), 0) == Channel(color, 0) / 4
  {
    assert Darken(color) & 0xFF == (color & 0xFF) >> 2;
    QuarterByte(color & 0xFF);
  }

  lemma QuarterByte(b: bv32)
    requires b <= 0xFF
    ensures (b >> 2) as int == b as int / 4
  {
  }

  // ---------------------------------------------------------------------
  // The display lists `draw` calls
  // ---------------------------------------------------------------------

  /** One call list: a colour switch (index 0..31) or a glyph (index 0..255). */
  datatype ListCall = Colour(code: int) | Glyph(index: int)

  /** The colour-code digits, in list order. */
  const HexDigits: seq<char> := "0123456789abcdef"

  lemma HexDigitAt(j: int)
    requires 0 <= j < 16
    ensures HexDigits[j] as int == if j < 10 then '0' as int + j else 'a' as int + j - 10
  {
  }

  /** A lower-case hex digit is found at its value; any other character is
      not found. */
  lemma HexIndex(c: char)
    ensures IndexOf(HexDigits, c) == if '0' <= c <= '9' then c as int - '0' as int
      else if 'a' <= c <= 'f' then c as int - 'a' as int + 10 else -1
  {
    var k := IndexOf(HexDigits, c);
    if k >= 0 {
      HexDigitAt(k);
    } else if '0' <= c <= '9' || 'a' <= c <= 'f' {
      var j := if c <= '9' then c as int - '0' as int else c as int - 'a' as int + 10;
      HexDigitAt(j);
      assert false;
    }
  }

  /** The colour list for the code character after an escape: its position
      in "0123456789abcdef" after lower-casing, 15 when it is not there,
      shifted by 16 for the darkened shadow pass. So a hex digit of either
      case selects its value, and anything else selects white. */
  function ColourCode(c: char, darken: bool): (r: int)
    ensures var shadow := if darken then 16 else 0;
      if '0' <= c <= '9' then r == shadow + (c as int - '0' as int)
      else if 'a' <= c <= 'f' then r == shadow + 10 + (c as int - 'a' as int)
      else if 'A' <= c <= 'F' then r == shadow + 10 + (c as int - 'A' as int)
      else r == shadow + 15
  {
    var lower := if 'A' <= c <= 'Z' then (c as int + 32) as char else c;
    HexIndex(lower);
    var cc := IndexOf(HexDigits, lower);
    (if cc < 0 || cc > 15 then 15 else cc) + (if darken then 16 else 0)
  }

  function GlyphCall(letters: seq<char>, c: char): seq<ListCall>
  {
    var ch := IndexOf(letters, c);
    if ch >= 0 then [Glyph(ch + 32)] else []
  }

  /**
   * The list calls of `draw` as written. At position i the inner loop reads
   * `charAt(i)` before checking the length, so after an escape pair that
   * ends the string it reads past the end: `None` is that
   * `StringIndexOutOfBoundsException`.
   */
  function DrawCallsAsWritten(letters: seq<char>, s: seq<char>, darken: bool, i: nat): Option<seq<ListCall>>
    decreases |s| - i + 1, 1
  {
    if i >= |s| then Some([])
    else InnerAsWritten(letters, s, darken, i)
  }

  function InnerAsWritten(letters: seq<char>, s: seq<char>, darken: bool, i: nat): Option<seq<ListCall>>
    decreases |s| - i + 1, 0
  {
    if i >= |s| then None
    else if s[i] == Section && |s| > i + 1 then
      match InnerAsWritten(letters, s, darken, i + 2)
      case None => None
      case Some(rest) => Some([Colour(ColourCode(s[i + 1], darken))] + rest)
    else
      match DrawCallsAsWritten(letters, s, darken, i + 1)
      case None => None
      case Some(rest) => Some(GlyphCall(letters, s[i]) + rest)
  }

  /** The string "\u00DFa": the escape (char 223) followed by the colour code 'a', nothing else. */
  const TrailingCode: seq<char> := [Section, 'a']

  /** A string that ends in a colour code makes `draw` read past its end. */
  lemma TrailingCodeFails(letters: seq<char>, darken: bool)
    ensures DrawCallsAsWritten(letters, TrailingCode, darken, 0).None?
  {
    assert InnerAsWritten(letters, TrailingCode, darken, 2).None?;
  }

  /** The evidently intended loop: a colour code at the end of the string
      ends the drawing. */
  function DrawCalls(letters: seq<char>, s: seq<char>, darken: bool, i: nat): seq<ListCall>
    decreases |s| - i
  {
    if i >= |s| then []
    else if s[i] == Section && |s| > i + 1 then
      [Colour(ColourCode(s[i + 1], darken))] + DrawCalls(letters, s, darken, i + 2)
    else
      GlyphCall(letters, s[i]) + DrawCalls(letters, s, darken, i + 1)
  }

  /** The glyph calls of a call sequence, in order. */
  function Glyphs(calls: seq<ListCall>): seq<int>
  {
    if |calls| == 0 then []
    else (if calls[0].Glyph? then [calls[0].index] else []) + Glyphs(calls[1..])
  }

  lemma {:induction false} GlyphsAppend(a: seq<ListCall>, b: seq<ListCall>)
    ensures Glyphs(a + b) == Glyphs(a) + Glyphs(b)
    decreases |a|
  {
    if |a| > 0 {
      assert (a + b)[1..] == a[1..] + b;
      GlyphsAppend(a[1..], b);
    } else {
      assert a + b == b;
    }
  }

  /** The glyph index of each character of a sanitized string. */
  function GlyphIndices(letters: seq<char>, s: seq<char>): seq<int>
  {
    if |s| == 0 then [] else [IndexOf(letters, s[0]) + 32] + GlyphIndices(letters, s[1..])
  }

  lemma {:induction false} GlyphIndicesAppend(letters: seq<char>, a: seq<char>, b: seq<char>)
    ensures GlyphIndices(letters, a + b) == GlyphIndices(letters, a) + GlyphIndices(letters, b)
    decreases |a|
  {
    if |a| > 0 {
      assert (a + b)[1..] == a[1..] + b;
      GlyphIndicesAppend(letters, a[1..], b);
    } else {
      assert a + b == b;
    }
  }

  /**
   * With the escape not itself an acceptable letter, the corrected `draw`
   * emits exactly one glyph per character of the sanitized string, in order.
   */
  lemma {:induction false} DrawGlyphsAreSanitized(letters: seq<char>, s: seq<char>, darken: bool, i: nat)
    requires Section !in letters && i <= |s|
    ensures Glyphs(DrawCalls(letters, s, darken, i)) == GlyphIndices(letters, SanitizeOf(letters, s[i..]))
    decreases |s| - i
  {
    if i == |s| {
    } else if s[i] == Section && |s| > i + 1 {
      DrawGlyphsAreSanitized(letters, s, darken, i + 2);
      DrawGlyphsCode(letters, s, darken, i);
    } else if s[i] == Section {
      assert s[i..] == [Section];
      assert IndexOf(letters, Section) == -1;
    } else {
      DrawGlyphsAreSanitized(letters, s, darken, i + 1);
      DrawGlyphsChar(letters, s, darken, i);
    }
  }

  lemma DrawGlyphsCode(letters: seq<char>, s: seq<char>, darken: bool, i: nat)
    requires i + 1 < |s| && s[i] == Section
    requires Glyphs(DrawCalls(letters, s, darken, i + 2)) == GlyphIndices(letters, SanitizeOf(letters, s[i + 2..]))
    ensures Glyphs(DrawCalls(letters, s, darken, i)) == GlyphIndices(letters, SanitizeOf(letters, s[i..]))
  {
    assert s[i..][2..] == s[i + 2..];
    assert SanitizeOf(letters, s[i..]) == SanitizeOf(letters, s[i + 2..]);
    GlyphsAppend([Colour(ColourCode(s[i + 1], darken))], DrawCalls(letters, s, darken, i + 2));
  }

  lemma DrawGlyphsChar(letters: seq<char>, s: seq<char>, darken: bool, i: nat)
    requires i < |s| && s[i] != Section
    requires Glyphs(DrawCalls(letters, s, darken, i + 1)) == GlyphIndices(letters, SanitizeOf(letters, s[i + 1..]))
    ensures Glyphs(DrawCalls(letters, s, darken, i)) == GlyphIndices(letters, SanitizeOf(letters, s[i..]))
  {
    assert s[i..][1..] == s[i + 1..];
    var head := if s[i] in letters then [s[i]] else [];
    assert SanitizeOf(letters, s[i..]) == head + SanitizeOf(letters, s[i + 1..]);
    GlyphsAppend(GlyphCall(letters, s[i]), DrawCalls(letters, s, darken, i + 1));
    GlyphIndicesAppend(letters, head, SanitizeOf(letters, s[i + 1..]));
    if s[i] in letters {
      assert GlyphIndices(letters, head) == [IndexOf(letters, s[i]) + 32];
      assert Glyphs(GlyphCall(letters, s[i])) == [IndexOf(letters, s[i]) + 32];
    } else {
      assert GlyphCall(letters, s[i]) == [];
    }
  }

  /** The corrected drawing agrees with the original wherever the original
      does not fail. */
  lemma {:induction false} DrawCallsAgree(letters: seq<char>, s: seq<char>, darken: bool, i: nat)
    ensures DrawCallsAsWritten(letters, s, darken, i).Some? ==>
      DrawCallsAsWritten(letters, s, darken, i).value == DrawCalls(letters, s, darken, i)
    ensures i < |s| && InnerAsWritten(letters, s, darken, i).Some? ==>
      InnerAsWritten(letters, s, darken, i).value == DrawCalls(letters, s, darken, i)
    decreases |s| - i + 1
  {
    if i < |s| {
      assert DrawCallsAsWritten(letters, s, darken, i) == InnerAsWritten(letters, s, darken, i);
      if s[i] == Section && |s| > i + 1 {
        if i + 2 < |s| {
          DrawCallsAgree(letters, s, darken, i + 2);
        } else {
          assert InnerAsWritten(letters, s, darken, i + 2).None?;
        }
      } else {
        DrawCallsAgree(letters, s, darken, i + 1);
      }
    }
  }

  // ---------------------------------------------------------------------
  // The font object
  // ---------------------------------------------------------------------

  class Font {
    /** `charWidths`, filled once by the constructor. */
    const charWidths: seq<int>
    const letters: seq<char>

    ghost predicate Valid()
    {
      |charWidths| == 256 && |letters| <= 224
      && (forall i :: 0 <= i < 256 ==> 1 <= charWidths[i] <= 9)
      && charWidths[32] == 4
    }

    /** The constructor measures every glyph of the font image. */
    constructor (letters: seq<char>, pixels: seq<int>, w: nat, h: nat)
      requires GoodImage(pixels, w, h) && |letters| <= 224
      ensures Valid() && this.letters == letters
      ensures forall i :: 0 <= i < 256 ==> charWidths[i] == GlyphWidth(pixels, w, h, i)
    {
      var widths := MeasureGlyphs(pixels, w, h);
      this.letters := letters;
      charWidths := widths;
    }

    /** `width`: zero for null, otherwise the sum of the glyph widths of the
        acceptable letters outside colour codes. */
    method Width(str: Option<seq<char>>) returns (len: int)
      requires Valid()
      ensures str.None? ==> len == 0
      ensures str.Some? ==> len == WidthOf(charWidths, letters, str.value)
      ensures len >= 0
    {
      if str.None? {
        return 0;
      }
      var s := str.value;
      len := 0;
      var i := 0;
      while i < |s|
        invariant 0 <= i <= |s| + 1
        invariant len + WidthOf(charWidths, letters, if i <= |s| then s[i..] else []) == WidthOf(charWidths, letters, s)
        invariant len >= 0
      {
        if s[i] == Section {
          assert s[i..][1..] == s[i + 1..];
          if i + 1 < |s| { assert s[i..][2..] == s[i + 2..]; }
          i := i + 1;
        } else {
          assert s[i..][1..] == s[i + 1..];
          var ch := IndexOf(letters, s[i]);
          if ch >= 0 {
            len := len + charWidths[ch + 32];
          }
        }
        i := i + 1;
      }
      WidthNonNegative(charWidths, letters, s);
    }

    /** `sanitize`: the acceptable letters outside colour codes, in order. */
    method Sanitize(str: seq<char>) returns (r: seq<char>)
      ensures r == SanitizeOf(letters, str)
      ensures forall c :: c in r ==> c in letters && c != Section
    {
      r := [];
      var i := 0;
      while i < |str|
        invariant 0 <= i <= |str| + 1
        invariant r + SanitizeOf(letters, if i <= |str| then str[i..] else []) == SanitizeOf(letters, str)
      {
        if str[i] == Section {
          assert str[i..][1..] == str[i + 1..];
          if i + 1 < |str| { assert str[i..][2..] == str[i + 2..]; }
          i := i + 1;
        } else {
          assert str[i..][1..] == str[i + 1..];
          if IndexOf(letters, str[i]) >= 0 {
            r := r + [str[i]];
          }
        }
        i := i + 1;
      }
      SanitizeOnlyLetters(letters, str);
    }
  }

  lemma {:induction false} WidthNonNegative(widths: seq<int>, letters: seq<char>, s: seq<char>)
    requires |widths| == 256 && |letters| <= 224
    requires forall i :: 0 <= i < 256 ==> widths[i] >= 1
    ensures WidthOf(widths, letters, s) >= 0
    decreases |s|
  {
    if |s| > 0 {
      WidthNonNegative(widths, letters, if s[0] == Section then (if |s| >= 2 then s[2..] else []) else s[1..]);
    }
  }
}
