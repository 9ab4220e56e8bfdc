/**
 * The C++ port's `Font`: a fixed per-character width table, the width of a
 * possibly multi-line string, and the shadow colour.
 */
module FontCpp {
  import FontJava

  /** A `char` of a `std::string`, read as `unsigned char`. */
  type Byte = b: int | 0 <= b < 256

  const Newline: Byte := 10

  /** The table `loadCharWidths` writes: 6 for every character, with the
      narrow and wide exceptions. */
  function DefaultWidth(c: Byte): int
  {
    if c == ' ' as int then 4
    else if c in {'.' as int, ',' as int, '!' as int, '\'' as int, ':' as int, ';' as int, '|' as int, 'i' as int} then 2
    else if c == 'l' as int then 3
    else if c == 'I' as int then 4
    else if c == '@' as int || c == '~' as int then 7
    else 6
  }

  /** The lines of a text, split at each newline; a text always has at least
      one (possibly empty) line. */
  function Lines(text: seq<Byte>): (r: seq<seq<Byte>>)
    ensures |r| >= 1
  {
    if |text| == 0 then [[]]
    else
      var r := Lines(text[..|text| - 1]);
      var c := text[|text| - 1];
      if c == Newline then r + [[]] else r[..|r| - 1] + [r[|r| - 1] + [c]]
  }

  /** The narrow and wide exceptions written over a table. */
  function Exceptions(w: seq<int>): (r: seq<int>)
    requires |w| == 256
    ensures |r| == 256
    ensures (forall c :: 0 <= c < 256 ==> w[c] == 6) ==> forall c: Byte :: r[c] == DefaultWidth(c)
  {
    w[' ' as int := 4]['.' as int := 2][',' as int := 2]['!' as int := 2]['\'' as int := 2]
      [':' as int := 2][';' as int := 2]['|' as int := 2]['i' as int := 2]
      ['l' as int := 3]['I' as int := 4]['@' as int := 7]['~' as int := 7]
  }

  /** Every character of a line advances the pen by its width plus one. */
  function LineWidth(widths: seq<int>, line: seq<Byte>): int
    requires |widths| == 256
  {
    if |line| == 0 then 0 else LineWidth(widths, line[..|line| - 1]) + widths[line[|line| - 1]] + 1
  }

  /** The widest of some lines, 0 for none. */
  function MaxLineWidth(widths: seq<int>, lines: seq<seq<Byte>>): (m: int)
    requires |widths| == 256
    ensures m >= 0
    ensures forall k :: 0 <= k < |lines| ==> LineWidth(widths, lines[k]) <= m
    ensures |lines| > 0 && m > 0 ==> exists k :: 0 <= k < |lines| && LineWidth(widths, lines[k]) == m
  {
    if |lines| == 0 then 0
    else
      var m := MaxLineWidth(widths, lines[..|lines| - 1]);
      var w := LineWidth(widths, lines[|lines| - 1]);
      assert forall k :: 0 <= k < |lines| - 1 ==> lines[..|lines| - 1][k] == lines[k];
      if m >= w then m else w
  }

  /** The width of a text: the widest of its lines. */
  function TextWidth(widths: seq<int>, text: seq<Byte>): int
    requires |widths| == 256
  {
    MaxLineWidth(widths, Lines(text))
  }

  /** The empty string is zero wide. */
  lemma EmptyTextWidth(widths: seq<int>)
    requires |widths| == 256
    ensures TextWidth(widths, []) == 0
  {
    assert Lines([]) == [[]];
    assert MaxLineWidth(widths, [[]][..0]) == 0;
  }

  /** A text without newlines is one line, as wide as its characters. */
  lemma {:induction false} SingleLine(widths: seq<int>, text: seq<Byte>)
    requires |widths| == 256 && Newline !in text
    ensures Lines(text) == [text]
    decreases |text|
  {
    if |text| > 0 {
      SingleLine(widths, text[..|text| - 1]);
      assert text[..|text| - 1] + [text[|text| - 1]] == text;
    }
  }

  lemma {:induction false} LineWidthNonNegative(widths: seq<int>, line: seq<Byte>)
    requires |widths| == 256 && forall c :: 0 <= c < 256 ==> widths[c] >= 0
    ensures LineWidth(widths, line) >= |line|
    decreases |line|
  {
    if |line| > 0 {
      LineWidthNonNegative(widths, line[..|line| - 1]);
    }
  }

  /** Reading one more character: a newline closes the last line, which
      then competes for the widest, and opens an empty one; any other
      character extends the last line by its width plus one. */
  lemma LinesStep(widths: seq<int>, text: seq<Byte>, i: nat)
    requires |widths| == 256 && i < |text|
    ensures var ls, ls' := Lines(text[..i]), Lines(text[..i + 1]);
      var m, w := MaxLineWidth(widths, ls[..|ls| - 1]), LineWidth(widths, ls[|ls| - 1]);
      if text[i] == Newline then
        MaxLineWidth(widths, ls'[..|ls'| - 1]) == (if m >= w then m else w)
        && LineWidth(widths, ls'[|ls'| - 1]) == 0
      else
        MaxLineWidth(widths, ls'[..|ls'| - 1]) == m
        && LineWidth(widths, ls'[|ls'| - 1]) == w + widths[text[i]] + 1
  {
    assert text[..i + 1][..i] == text[..i];
    var ls, ls' := Lines(text[..i]), Lines(text[..i + 1]);
    if text[i] == Newline {
      assert ls' == ls + [[]];
      assert (ls + [[]])[..|ls|] == ls;
    } else {
      var last := ls[|ls| - 1];
      assert ls' == ls[..|ls| - 1] + [last + [text[i]]];
      assert ls'[..|ls'| - 1] == ls[..|ls| - 1];
      assert (last + [text[i]])[..|last|] == last;
    }
  }

  /** `drawShadow`'s shadow colour: alpha kept, the colour bits masked and
      shifted down two places. */
  function ShadowColor(color: bv32): bv32
  {
    (color & 0xFF00_0000) | ((color & 0xFC_FCFC) >> 2)
  }

  /** The port's shadow colour is the Java client's darkened colour. */
  lemma ShadowMatchesJava(color: bv32)
    ensures ShadowColor(color) == FontJava.Darken(color)
  {
  }

  class Font {
    var charWidths: array<int>

    ghost predicate Valid()
      reads this
    {
      charWidths.Length == 256
    }

    /** The constructor runs `loadCharWidths`. */
    constructor ()
      ensures Valid() && fresh(charWidths)
      ensures forall c: Byte :: charWidths[c] == DefaultWidth(c)
    {
      charWidths := new int[256];
      new;
      LoadCharWidths();
    }

    /** `loadCharWidths`: 6 everywhere, then the exceptions. */
    method LoadCharWidths()
      requires Valid()
      modifies charWidths
      ensures forall c: Byte :: charWidths[c] == DefaultWidth(c)
    {
      var i := 0;
      while i < 256
        invariant 0 <= i <= 256
        invariant forall c :: 0 <= c < i ==> charWidths[c] == 6
      {
        charWidths[i] := 6;
        i := i + 1;
      }
      ghost var six := charWidths[..];
      charWidths[' ' as int] := 4;
      charWidths['.' as int] := 2;
      charWidths[',' as int] := 2;
      charWidths['!' as int] := 2;
      charWidths['\'' as int] := 2;
      charWidths[':' as int] := 2;
      charWidths[';' as int] := 2;
      charWidths['|' as int] := 2;
      charWidths['i' as int] := 2;
      charWidths['l' as int] := 3;
      charWidths['I' as int] := 4;
      charWidths['@' as int] := 7;
      charWidths['~' as int] := 7;
      assert charWidths[..] == Exceptions(six);
    }

    /** `getWidth`: the widest line, each character counting its width plus one. */
    method GetWidth(text: seq<Byte>) returns (r: int)
      requires Valid()
      ensures r == TextWidth(charWidths[..], text)
      ensures r >= 0
    {
      var widths := charWidths[..];
      var width := 0;
      var maxWidth := 0;
      var i := 0;
      ghost var ls := Lines(text[..0]);
      assert text[..0] == [];
      while i < |text|
        invariant 0 <= i <= |text| && ls == Lines(text[..i])
        invariant width == LineWidth(widths, ls[|ls| - 1]) && maxWidth == MaxLineWidth(widths, ls[..|ls| - 1])
      {
        var c := text[i];
        LinesStep(widths, text, i);
        ls := Lines(text[..i + 1]);
        if c == Newline {
          maxWidth := if maxWidth >= width then maxWidth else width;
          width := 0;
        } else {
          width := width + charWidths[c] + 1;
        }
        i := i + 1;
      }
      assert text[..|text|] == text;
      assert ls[..|ls| - 1] + [ls[|ls| - 1]] == ls;
      r := if maxWidth >= width then maxWidth else width;
    }
  }
}
