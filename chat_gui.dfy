/**
 * The chat and "now playing" state of the Java client's HUD `Gui`:
 * `addMessage` wraps a line to at most 320 pixels and pushes the pieces
 * onto the front of a list capped at 50; `tick` ages everything.
 */
module ChatGui {
  import opened Wrappers
  import FontJava

  const MaxLineWidth := 320
  const MaxMessages := 50
  const NowPlayingTicks := 60

  /** A chat line and how many ticks it has been shown. */
  datatype GuiMessage = GuiMessage(text: seq<char>, ticks: int)

  /** A font table whose glyphs are each 1 to 9 pixels wide. */
  predicate GoodWidths(widths: seq<int>, letters: seq<char>)
  {
    |widths| == 256 && |letters| <= 224 && forall i :: 0 <= i < 256 ==> 1 <= widths[i] <= 9
  }

  /** No character is wider than 9 pixels. */
  lemma {:induction false} WidthAtMostNine(widths: seq<int>, letters: seq<char>, s: seq<char>)
    requires GoodWidths(widths, letters)
    ensures 0 <= FontJava.WidthOf(widths, letters, s) <= 9 * |s|
    decreases |s|
  {
    if |s| > 0 {
      var rest := if s[0] == FontJava.Section then (if |s| >= 2 then s[2..] else []) else s[1..];
      WidthAtMostNine(widths, letters, rest);
    }
  }

  /** Where the inner loop of `addMessage` cuts: from 1, it grows while the
      next longer prefix still fits. */
  function CutFrom(widths: seq<int>, letters: seq<char>, s: seq<char>, k: nat): (r: nat)
    requires GoodWidths(widths, letters) && 1 <= k <= |s|
    ensures k <= r <= |s|
    ensures r < |s| ==> FontJava.WidthOf(widths, letters, s[..r + 1]) > MaxLineWidth
    decreases |s| - k
  {
    if k < |s| && FontJava.WidthOf(widths, letters, s[..k + 1]) <= MaxLineWidth
    then CutFrom(widths, letters, s, k + 1)
    else k
  }

  /** Every prefix the cut loop accepted fits in a line. */
  lemma {:induction false} CutFits(widths: seq<int>, letters: seq<char>, s: seq<char>, k: nat)
    requires GoodWidths(widths, letters) && 1 <= k <= |s|
    requires FontJava.WidthOf(widths, letters, s[..k]) <= MaxLineWidth
    ensures FontJava.WidthOf(widths, letters, s[..CutFrom(widths, letters, s, k)]) <= MaxLineWidth
    decreases |s| - k
  {
    if k < |s| && FontJava.WidthOf(widths, letters, s[..k + 1]) <= MaxLineWidth {
      CutFits(widths, letters, s, k + 1);
    }
  }

  /** The first piece of an over-wide line fits and is a proper prefix. */
  lemma FirstPiece(widths: seq<int>, letters: seq<char>, s: seq<char>)
    requires GoodWidths(widths, letters) && FontJava.WidthOf(widths, letters, s) > MaxLineWidth
    ensures |s| >= 2
    ensures 1 <= CutFrom(widths, letters, s, 1) < |s|
    ensures FontJava.WidthOf(widths, letters, s[..CutFrom(widths, letters, s, 1)]) <= MaxLineWidth
  {
    WidthAtMostNine(widths, letters, s);
    WidthAtMostNine(widths, letters, s[..1]);
    assert s[..|s|] == s;
    CutFits(widths, letters, s, 1);
  }

  /** The pieces `addMessage` stores, in the order it stores them. */
  function Pieces(widths: seq<int>, letters: seq<char>, s: seq<char>): (r: seq<seq<char>>)
    requires GoodWidths(widths, letters)
    ensures |r| >= 1
    decreases |s|
  {
    if FontJava.WidthOf(widths, letters, s) <= MaxLineWidth then [s]
    else
      FirstPiece(widths, letters, s);
      var k := CutFrom(widths, letters, s, 1);
      [s[..k]] + Pieces(widths, letters, s[k..])
  }

  /** One round of the outer loop: an over-wide line is its first piece
      followed by the pieces of the rest, and that piece is stored as is. */
  lemma SplitStep(widths: seq<int>, letters: seq<char>, s: seq<char>)
    requires GoodWidths(widths, letters) && FontJava.WidthOf(widths, letters, s) > MaxLineWidth
    ensures var k := CutFrom(widths, letters, s, 1);
      1 <= k < |s| && Pieces(widths, letters, s) == [s[..k]] + Pieces(widths, letters, s[k..])
      && Pieces(widths, letters, s[..k]) == [s[..k]]
  {
    FirstPiece(widths, letters, s);
  }

  function Concat(pieces: seq<seq<char>>): seq<char>
  {
    if |pieces| == 0 then [] else pieces[0] + Concat(pieces[1..])
  }

  /** Wrapping loses no text: the pieces put back together are the line. */
  lemma {:induction false} PiecesConcat(widths: seq<int>, letters: seq<char>, s: seq<char>)
    requires GoodWidths(widths, letters)
    ensures Concat(Pieces(widths, letters, s)) == s
    decreases |s|
  {
    if FontJava.WidthOf(widths, letters, s) > MaxLineWidth {
      FirstPiece(widths, letters, s);
      var k := CutFrom(widths, letters, s, 1);
      PiecesConcat(widths, letters, s[k..]);
      assert Pieces(widths, letters, s)[1..] == Pieces(widths, letters, s[k..]);
      assert s[..k] + s[k..] == s;
    }
  }

  /** Every stored piece is at most 320 pixels wide. */
  lemma {:induction false} PiecesFit(widths: seq<int>, letters: seq<char>, s: seq<char>)
    requires GoodWidths(widths, letters)
    ensures forall p :: p in Pieces(widths, letters, s) ==> FontJava.WidthOf(widths, letters, p) <= MaxLineWidth
    decreases |s|
  {
    if FontJava.WidthOf(widths, letters, s) > MaxLineWidth {
      FirstPiece(widths, letters, s);
      var k := CutFrom(widths, letters, s, 1);
      PiecesFit(widths, letters, s[k..]);
    }
  }

  /** The list after pushing each piece onto the front and trimming to 50. */
  function Pushed(pieces: seq<seq<char>>, list: seq<GuiMessage>): seq<GuiMessage>
  {
    if |pieces| == 0 then list
    else Pushed(pieces[1..], Trim([GuiMessage(pieces[0], 0)] + list))
  }

  /** Drop entries from the back until at most 50 remain. */
  function Trim(list: seq<GuiMessage>): (r: seq<GuiMessage>)
    ensures |r| <= MaxMessages && |r| <= |list| && r == list[..|r|]
    ensures |list| >= 1 ==> |r| >= 1
    ensures |list| <= MaxMessages ==> r == list
  {
    if |list| <= MaxMessages then list else list[..MaxMessages]
  }

  class Gui {
    const font: FontJava.Font
    var guiMessages: seq<GuiMessage>
    var tickCount: int
    var nowPlayingString: seq<char>
    var nowPlayingTime: int

    ghost predicate Valid()
    {
      font.Valid() && GoodWidths(font.charWidths, font.letters)
    }

    constructor (font: FontJava.Font)
      requires font.Valid()
      ensures Valid() && this.font == font
      ensures guiMessages == [] && tickCount == 0 && nowPlayingString == [] && nowPlayingTime == 0
    {
      this.font := font;
      guiMessages, tickCount := [], 0;
      nowPlayingString, nowPlayingTime := [], 0;
    }

    /** `addMessage`: over-wide text is cut at the longest prefix that fits
        (at least one character), each piece is added in order at the front,
        and the list is trimmed to 50 after each addition. */
    method AddMessage(s: seq<char>)
      requires Valid()
      modifies this`guiMessages
      ensures guiMessages == Pushed(Pieces(font.charWidths, font.letters, s), old(guiMessages))
      ensures |guiMessages| <= MaxMessages || guiMessages == old(guiMessages)
      ensures tickCount == old(tickCount) && nowPlayingTime == old(nowPlayingTime)
      ensures nowPlayingString == old(nowPlayingString)
      decreases |s|
    {
      var widths, letters := font.charWidths, font.letters;
      var str := s;
      ghost var done: seq<seq<char>> := [];
      var w := font.Width(Some(str));
      while w > MaxLineWidth
        invariant |str| <= |s|
        invariant w == FontJava.WidthOf(widths, letters, str)
        invariant done + Pieces(widths, letters, str) == Pieces(widths, letters, s)
        invariant guiMessages == Pushed(done, old(guiMessages))
        decreases |str|
      {
        var cut := FindCut(str);
        LoopStep(widths, letters, s, done, str);
        ghost var before := guiMessages;
        AddMessage(str[..cut]);
        PushOne(done, str[..cut], old(guiMessages), before, guiMessages);
        done := done + [str[..cut]];
        str := str[cut..];
        w := font.Width(Some(str));
      }
      LoopExit(widths, letters, s, done, str);
      PushOne(done, str, old(guiMessages), guiMessages, Trim([GuiMessage(str, 0)] + guiMessages));
      guiMessages := Trim([GuiMessage(str, 0)] + guiMessages);
      PushedBound(Pieces(widths, letters, s), old(guiMessages));
    }

    /** The inner loop of `addMessage`: the longest prefix, at least one
        character, that still fits. */
    method FindCut(str: seq<char>) returns (cut: nat)
      requires Valid() && FontJava.WidthOf(font.charWidths, font.letters, str) > MaxLineWidth
      ensures cut == CutFrom(font.charWidths, font.letters, str, 1)
      ensures 1 <= cut < |str|
      ensures FontJava.WidthOf(font.charWidths, font.letters, str[..cut]) <= MaxLineWidth
    {
      FirstPiece(font.charWidths, font.letters, str);
      cut := 1;
      while cut < |str|
        invariant 1 <= cut <= |str|
        invariant CutFrom(font.charWidths, font.letters, str, cut) == CutFrom(font.charWidths, font.letters, str, 1)
        decreases |str| - cut
      {
        var next := font.Width(Some(str[..cut + 1]));
        if next > MaxLineWidth {
          break;
        }
        cut := cut + 1;
      }
    }

    /** `tick`: the now-playing timer counts down to 0, the tick counter and
        every message's age go up by one. */
    method Tick()
      modifies this
      ensures nowPlayingTime == if old(nowPlayingTime) > 0 then old(nowPlayingTime) - 1 else old(nowPlayingTime)
      ensures old(nowPlayingTime) >= 0 ==> nowPlayingTime >= 0
      ensures tickCount == old(tickCount) + 1
      ensures |guiMessages| == |old(guiMessages)|
      ensures forall k :: 0 <= k < |guiMessages| ==>
        guiMessages[k] == old(guiMessages[k]).(ticks := old(guiMessages[k]).ticks + 1)
      ensures nowPlayingString == old(nowPlayingString)
    {
      if nowPlayingTime > 0 {
        nowPlayingTime := nowPlayingTime - 1;
      }
      tickCount := tickCount + 1;
      var i := 0;
      while i < |guiMessages|
        invariant 0 <= i <= |guiMessages| == |old(guiMessages)|
        invariant forall k :: 0 <= k < i ==>
          guiMessages[k] == old(guiMessages[k]).(ticks := old(guiMessages[k]).ticks + 1)
        invariant forall k :: i <= k < |guiMessages| ==> guiMessages[k] == old(guiMessages[k])
        invariant tickCount == old(tickCount) + 1 && nowPlayingString == old(nowPlayingString)
        invariant nowPlayingTime == if old(nowPlayingTime) > 0 then old(nowPlayingTime) - 1 else old(nowPlayingTime)
      {
        guiMessages := guiMessages[i := guiMessages[i].(ticks := guiMessages[i].ticks + 1)];
        i := i + 1;
      }
    }

    /** `setNowPlaying`: shows "Now playing: " and the record name for 60 ticks. */
    method SetNowPlaying(name: seq<char>)
      modifies this
      ensures nowPlayingString == "Now playing: " + name && nowPlayingTime == NowPlayingTicks
      ensures guiMessages == old(guiMessages) && tickCount == old(tickCount)
    {
      nowPlayingString := "Now playing: " + name;
      nowPlayingTime := NowPlayingTicks;
    }
  }

  /** One round of the outer loop keeps "pieces stored so far, then the
      pieces of what is left" equal to the pieces of the whole line. */
  lemma LoopStep(widths: seq<int>, letters: seq<char>, s: seq<char>, done: seq<seq<char>>, str: seq<char>)
    requires GoodWidths(widths, letters) && FontJava.WidthOf(widths, letters, str) > MaxLineWidth
    requires done + Pieces(widths, letters, str) == Pieces(widths, letters, s)
    ensures var k := CutFrom(widths, letters, str, 1);
      1 <= k < |str| && (done + [str[..k]]) + Pieces(widths, letters, str[k..]) == Pieces(widths, letters, s)
      && Pieces(widths, letters, str[..k]) == [str[..k]]
  {
    SplitStep(widths, letters, str);
  }

  /** When what is left fits, it is the last piece. */
  lemma LoopExit(widths: seq<int>, letters: seq<char>, s: seq<char>, done: seq<seq<char>>, str: seq<char>)
    requires GoodWidths(widths, letters) && FontJava.WidthOf(widths, letters, str) <= MaxLineWidth
    requires done + Pieces(widths, letters, str) == Pieces(widths, letters, s)
    ensures done + [str] == Pieces(widths, letters, s)
  {
  }

  lemma PushOne(done: seq<seq<char>>, piece: seq<char>, list: seq<GuiMessage>, before: seq<GuiMessage>, after: seq<GuiMessage>)
    requires before == Pushed(done, list)
    requires after == Pushed([piece], before)
    ensures after == Pushed(done + [piece], list)
  {
    PushedAppend(done, [piece], list);
  }

  lemma {:induction false} PushedAppend(a: seq<seq<char>>, b: seq<seq<char>>, list: seq<GuiMessage>)
    ensures Pushed(a + b, list) == Pushed(b, Pushed(a, list))
    decreases |a|
  {
    if |a| > 0 {
      assert (a + b)[1..] == a[1..] + b;
      PushedAppend(a[1..], b, Trim([GuiMessage(a[0], 0)] + list));
    } else {
      assert a + b == b;
    }
  }

  /** Adding at least one piece leaves at most 50 messages. */
  lemma {:induction false} PushedBound(pieces: seq<seq<char>>, list: seq<GuiMessage>)
    requires |pieces| >= 1
    ensures 1 <= |Pushed(pieces, list)| <= MaxMessages
    decreases |pieces|
  {
    if |pieces| > 1 {
      PushedBound(pieces[1..], Trim([GuiMessage(pieces[0], 0)] + list));
    }
  }

  /** The newest piece is at the front after `addMessage`. */
  lemma NewestFirst(pieces: seq<seq<char>>, list: seq<GuiMessage>)
    requires |pieces| >= 1
    ensures |Pushed(pieces, list)| >= 1 && Pushed(pieces, list)[0] == GuiMessage(pieces[|pieces| - 1], 0)
  {
    var n := |pieces|;
    assert pieces == pieces[..n - 1] + [pieces[n - 1]];
    PushedAppend(pieces[..n - 1], [pieces[n - 1]], list);
  }
}
