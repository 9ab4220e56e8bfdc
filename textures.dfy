/**
 * The Java client's texture manager: the two pixel blends used when
 * building mipmaps, the per-pixel conversion done before an upload, and
 * the cache that gives every resource name one texture id.
 */
module Textures {
  import opened Argb

  // ---------------------------------------------------------------------
  // smoothBlend: the average of two colours, one bit dropped per channel
  // ---------------------------------------------------------------------

  /** `smoothBlend`: alpha is the floor of the mean of the two alphas; the
      colour part adds the two colours with every channel's low bit masked
      off and halves the sum. */
  function SmoothBlend(c0: bv32, c1: bv32): bv32
  {
    var a0 := (c0 >> 24) & 0xFF;
    var a1 := (c1 >> 24) & 0xFF;
    (((a0 + a1) >> 1) << 24) + (((c0 & 0xFE_FEFE) + (c1 & 0xFE_FEFE)) >> 1)
  }

  /** The colour part of a smooth blend stays below bit 24, so adding the
      alpha byte on top carries into nothing. */
  lemma SmoothParts(c0: bv32, c1: bv32)
    ensures var rgb := ((c0 & 0xFE_FEFE) + (c1 & 0xFE_FEFE)) >> 1;
      rgb < 0x100_0000
      && (rgb >> 16) & 0xFF == Byte(c0, 16) / 2 + Byte(c1, 16) / 2
      && (rgb >> 8) & 0xFF == Byte(c0, 8) / 2 + Byte(c1, 8) / 2
      && rgb & 0xFF == Byte(c0, 0) / 2 + Byte(c1, 0) / 2
  {
  }

  lemma AlphaOnTop(a: bv32, rgb: bv32)
    requires a <= 0xFF && rgb < 0x100_0000
    ensures (((a << 24) + rgb) >> 24) & 0xFF == a
    ensures (((a << 24) + rgb) >> 16) & 0xFF == (rgb >> 16) & 0xFF
    ensures (((a << 24) + rgb) >> 8) & 0xFF == (rgb >> 8) & 0xFF
    ensures ((a << 24) + rgb) & 0xFF == rgb & 0xFF
  {
  }

  /** The blended alpha is `(a0 + a1) >> 1`. */
  lemma {:induction false} SmoothAlpha(c0: bv32, c1: bv32)
    ensures Byte(SmoothBlend(c0, c1), 24) == (Byte(c0, 24) + Byte(c1, 24)) / 2
  {
    var a0, a1 := (c0 >> 24) & 0xFF, (c1 >> 24) & 0xFF;
    var rgb := ((c0 & 0xFE_FEFE) + (c1 & 0xFE_FEFE)) >> 1;
    SmoothParts(c0, c1);
    AlphaOnTop((a0 + a1) >> 1, rgb);
  }

  /** Each colour channel of the blend is the sum of the two halved
      channels (each rounded down), so it never exceeds 255. */
  lemma {:induction false} SmoothChannels(c0: bv32, c1: bv32)
    ensures Byte(SmoothBlend(c0, c1), 16) == Byte(c0, 16) / 2 + Byte(c1, 16) / 2
    ensures Byte(SmoothBlend(c0, c1), 8) == Byte(c0, 8) / 2 + Byte(c1, 8) / 2
    ensures Byte(SmoothBlend(c0, c1), 0) == Byte(c0, 0) / 2 + Byte(c1, 0) / 2
  {
    var a0, a1 := (c0 >> 24) & 0xFF, (c1 >> 24) & 0xFF;
    var rgb := ((c0 & 0xFE_FEFE) + (c1 & 0xFE_FEFE)) >> 1;
    SmoothParts(c0, c1);
    AlphaOnTop((a0 + a1) >> 1, rgb);
  }

  /** The blend does not depend on the order of its arguments. */
  lemma SmoothSymmetric(c0: bv32, c1: bv32)
    ensures SmoothBlend(c0, c1) == SmoothBlend(c1, c0)
  {
  }

  // ---------------------------------------------------------------------
  // crispBlend: the alpha-weighted average of two colours
  // ---------------------------------------------------------------------

  /** The weighted mean of two channel values, rounded down. */
  function Mix(x0: int, x1: int, w0: int, w1: int): (m: int)
    requires w0 >= 0 && w1 >= 0 && w0 + w1 > 0
    ensures x0 <= x1 ==> x0 <= m <= x1
    ensures x1 <= x0 ==> x1 <= m <= x0
  {
    MixBounds(x0, x1, w0, w1);
    (x0 * w0 + x1 * w1) / (w0 + w1)
  }

  lemma MixBounds(x0: int, x1: int, w0: int, w1: int)
    requires w0 >= 0 && w1 >= 0 && w0 + w1 > 0
    ensures x0 <= x1 ==> x0 <= (x0 * w0 + x1 * w1) / (w0 + w1) <= x1
    ensures x1 <= x0 ==> x1 <= (x0 * w0 + x1 * w1) / (w0 + w1) <= x0
  {
    if x0 <= x1 {
      MixBetween(x0, x1, w0, w1);
    } else {
      assert x0 * w0 + x1 * w1 == x1 * w1 + x0 * w0;
      MixBetween(x1, x0, w1, w0);
    }
  }

  lemma MixBetween(lo: int, hi: int, wl: int, wh: int)
    requires wl >= 0 && wh >= 0 && wl + wh > 0 && lo <= hi
    ensures lo <= (lo * wl + hi * wh) / (wl + wh) <= hi
  {
    var s := wl + wh;
    var n := lo * wl + hi * wh;
    assert lo * s <= n <= hi * s by {
      MulMono(lo, hi, wh);
      assert lo * s == lo * wl + lo * wh;
      assert hi * s == hi * wl + hi * wh;
      MulMono(lo, hi, wl);
    }
    DivBetween(n, s, lo, hi);
  }

  lemma MulMono(a: int, b: int, w: int)
    requires a <= b && w >= 0
    ensures a * w <= b * w
  {
  }

  lemma DivBetween(n: int, s: int, lo: int, hi: int)
    requires s > 0 && lo * s <= n <= hi * s
    ensures lo <= n / s <= hi
  {
    var q := n / s;
    assert n == q * s + n % s && 0 <= n % s < s;
    if q < lo {
      MulMono(q + 1, lo, s);
    }
    if q > hi {
      MulMono(hi + 1, q, s);
    }
  }

  /** A byte survives the trip to a bit-vector and back. */
  lemma ByteRoundTrip(x: int)
    requires 0 <= x <= 255
    ensures (x as bv32) as int == x && x as bv32 <= 0xFF
  {
  }

  /** `a << 24 | r << 16 | g << 8 | b`. */
  function Pack(a: int, r: int, g: int, b: int): (c: bv32)
    requires 0 <= a <= 255 && 0 <= r <= 255 && 0 <= g <= 255 && 0 <= b <= 255
    ensures Channel(c, 24) == a && Channel(c, 16) == r && Channel(c, 8) == g && Channel(c, 0) == b
  {
    ByteRoundTrip(a);
    ByteRoundTrip(r);
    ByteRoundTrip(g);
    ByteRoundTrip(b);
    Unpack(a as bv32, r as bv32, g as bv32, b as bv32);
    ((a as bv32) << 24) | ((r as bv32) << 16) | ((g as bv32) << 8) | (b as bv32)
  }

  lemma Unpack(a: bv32, r: bv32, g: bv32, b: bv32)
    requires a <= 0xFF && r <= 0xFF && g <= 0xFF && b <= 0xFF
    ensures var c := (a << 24) | (r << 16) | (g << 8) | b;
      (c >> 24) & 0xFF == a && (c >> 16) & 0xFF == r && (c >> 8) & 0xFF == g && c & 0xFF == b
  {
  }

  /** `crispBlend`: when both alphas are 0 the channels are averaged with
      equal weights and the result is transparent; otherwise each channel
      is weighted by its colour's alpha and the result is opaque. */
  function CrispBlend(c0: bv32, c1: bv32): bv32
  {
    CrispMix(Channel(c0, 24), Channel(c1, 24),
             Channel(c0, 16), Channel(c1, 16),
             Channel(c0, 8), Channel(c1, 8),
             Channel(c0, 0), Channel(c1, 0))
  }

  /** The arithmetic of `crispBlend` on the eight channel values. */
  function CrispMix(a0: int, a1: int, r0: int, r1: int, g0: int, g1: int, b0: int, b1: int): bv32
    requires 0 <= a0 <= 255 && 0 <= a1 <= 255 && 0 <= r0 <= 255 && 0 <= r1 <= 255
    requires 0 <= g0 <= 255 && 0 <= g1 <= 255 && 0 <= b0 <= 255 && 0 <= b1 <= 255
  {
    var (w0, w1) := Weights(a0, a1);
    var a := if a0 + a1 == 0 then 0 else 255;
    Pack(a, Mix(r0, r1, w0, w1), Mix(g0, g1, w0, w1), Mix(b0, b1, w0, w1))
  }

  /** Each colour's weight is its alpha, or 1 for both when both alphas are 0. */
  function Weights(a0: int, a1: int): (w: (int, int))
    requires 0 <= a0 && 0 <= a1
    ensures w.0 >= 0 && w.1 >= 0 && w.0 + w.1 > 0
  {
    if a0 + a1 == 0 then (1, 1) else (a0, a1)
  }

  /** The crisp blend is transparent exactly when both colours are. */
  lemma CrispAlpha(c0: bv32, c1: bv32)
    ensures Channel(CrispBlend(c0, c1), 24) == 0 <==> Channel(c0, 24) == 0 && Channel(c1, 24) == 0
    ensures Channel(CrispBlend(c0, c1), 24) == 0 || Channel(CrispBlend(c0, c1), 24) == 255
  {
  }

  /** Each colour channel is the alpha-weighted mean of the two channels
      (and so, by `Mix`, lies between them). */
  lemma CrispChannels(c0: bv32, c1: bv32, shift: nat)
    requires shift == 0 || shift == 8 || shift == 16
    ensures var w := Weights(Channel(c0, 24), Channel(c1, 24));
      Channel(CrispBlend(c0, c1), shift) == Mix(Channel(c0, shift), Channel(c1, shift), w.0, w.1)
  {
    CrispMixChannels(Channel(c0, 24), Channel(c1, 24), Channel(c0, 16), Channel(c1, 16),
                     Channel(c0, 8), Channel(c1, 8), Channel(c0, 0), Channel(c1, 0));
  }

  lemma CrispMixChannels(a0: int, a1: int, r0: int, r1: int, g0: int, g1: int, b0: int, b1: int)
    requires 0 <= a0 <= 255 && 0 <= a1 <= 255 && 0 <= r0 <= 255 && 0 <= r1 <= 255
    requires 0 <= g0 <= 255 && 0 <= g1 <= 255 && 0 <= b0 <= 255 && 0 <= b1 <= 255
    ensures var w := Weights(a0, a1);
      var c := CrispMix(a0, a1, r0, r1, g0, g1, b0, b1);
      Channel(c, 24) == (if a0 + a1 == 0 then 0 else 255)
      && Channel(c, 16) == Mix(r0, r1, w.0, w.1) && Channel(c, 8) == Mix(g0, g1, w.0, w.1)
      && Channel(c, 0) == Mix(b0, b1, w.0, w.1)
  {
  }

  /** Blending a colour with itself keeps its red, green and blue, whatever
      its alpha. */
  lemma CrispSelf(c: bv32, shift: nat)
    requires shift == 0 || shift == 8 || shift == 16
    ensures Channel(CrispBlend(c, c), shift) == Channel(c, shift)
  {
    var a := Channel(c, 24);
    var w := Weights(a, a);
    MixSelf(Channel(c, shift), w.0, w.1);
    CrispChannels(c, c, shift);
  }

  lemma MixSelf(x: int, w0: int, w1: int)
    requires w0 >= 0 && w1 >= 0 && w0 + w1 > 0
    ensures Mix(x, x, w0, w1) == x
  {
  }

  // ---------------------------------------------------------------------
  // The pixel conversion before an upload
  // ---------------------------------------------------------------------

  /** The red, green and blue the upload writes for one pixel; with the
      anaglyph option on, red becomes a grey mix and green and blue take
      30% of red each. */
  function Anaglyph(r: int, g: int, b: int, anaglyph: bool): (rgb: (int, int, int))
    requires 0 <= r <= 255 && 0 <= g <= 255 && 0 <= b <= 255
    ensures 0 <= rgb.0 <= 255 && 0 <= rgb.1 <= 255 && 0 <= rgb.2 <= 255
    ensures !anaglyph ==> rgb == (r, g, b)
  {
    if anaglyph then
      AnaglyphBounds(r, g, b);
      ((r * 30 + g * 59 + b * 11) / 100, (r * 30 + g * 70) / 100, (r * 30 + b * 70) / 100)
    else (r, g, b)
  }

  lemma AnaglyphBounds(r: int, g: int, b: int)
    requires 0 <= r <= 255 && 0 <= g <= 255 && 0 <= b <= 255
    ensures 0 <= r * 30 + g * 59 + b * 11 <= 25500
    ensures 0 <= r * 30 + g * 70 <= 25500 && 0 <= r * 30 + b * 70 <= 25500
  {
  }

  /** The four bytes R, G, B, A the upload stores for one ARGB pixel. */
  function PixelBytes(c: bv32, anaglyph: bool): (bytes: seq<int>)
    ensures |bytes| == 4 && bytes[3] == Channel(c, 24)
    ensures forall k :: 0 <= k < 4 ==> 0 <= bytes[k] <= 255
    ensures !anaglyph ==> bytes == [Channel(c, 16), Channel(c, 8), Channel(c, 0), Channel(c, 24)]
  {
    var rgb := Anaglyph(Channel(c, 16), Channel(c, 8), Channel(c, 0), anaglyph);
    [rgb.0, rgb.1, rgb.2, Channel(c, 24)]
  }

  /** The pixel loop of `loadTexture(img, id)`: every pixel becomes four
      bytes in order, so the buffer is four times the pixel count. */
  method ConvertPixels(rawPixels: seq<bv32>, anaglyph: bool) returns (newPixels: array<int>)
    ensures newPixels.Length == 4 * |rawPixels|
    ensures forall i :: 0 <= i < |rawPixels| ==>
      newPixels[4 * i .. 4 * i + 4] == PixelBytes(rawPixels[i], anaglyph)
  {
    newPixels := new int[4 * |rawPixels|];
    var i := 0;
    while i < |rawPixels|
      invariant 0 <= i <= |rawPixels|
      invariant forall j :: 0 <= j < i ==> newPixels[4 * j .. 4 * j + 4] == PixelBytes(rawPixels[j], anaglyph)
    {
      var bytes := PixelBytes(rawPixels[i], anaglyph);
      newPixels[4 * i] := bytes[0];
      newPixels[4 * i + 1] := bytes[1];
      newPixels[4 * i + 2] := bytes[2];
      newPixels[4 * i + 3] := bytes[3];
      assert newPixels[4 * i .. 4 * i + 4] == bytes;
      i := i + 1;
    }
  }

  // ---------------------------------------------------------------------
  // The id cache
  // ---------------------------------------------------------------------

  /** What a resource name asks for: the resource to read, and whether it
      is cut into a 16-pixel strip, clamped or blurred. */
  datatype Request = Request(resource: seq<char>, strip: bool, clamp: bool, blur: bool)

  function StartsWith(s: seq<char>, prefix: seq<char>): bool
  {
    |prefix| <= |s| && s[..|prefix|] == prefix
  }

  /** The prefixes `loadTexture` recognises, tried in this order. */
  function ParseName(name: seq<char>): (q: Request)
    ensures !(q.strip && q.clamp) && !(q.strip && q.blur) && !(q.clamp && q.blur)
  {
    if StartsWith(name, "##") then Request(name[2..], true, false, false)
    else if StartsWith(name, "%clamp%") then Request(name[7..], false, true, false)
    else if StartsWith(name, "%blur%") then Request(name[6..], false, false, true)
    else Request(name, false, false, false)
  }

  /** The prefix a request was written with. */
  function Prefix(q: Request): seq<char>
  {
    if q.strip then "##" else if q.clamp then "%clamp%" else if q.blur then "%blur%" else ""
  }

  /** Parsing loses nothing: the prefix and the resource spell the name. */
  lemma ParseNameRoundTrip(name: seq<char>)
    ensures Prefix(ParseName(name)) + ParseName(name).resource == name
  {
    if StartsWith(name, "##") {
      assert name == name[..2] + name[2..];
    } else if StartsWith(name, "%clamp%") {
      assert name == name[..7] + name[7..];
    } else if StartsWith(name, "%blur%") {
      assert name == name[..6] + name[6..];
    }
  }

  /** An image as the upload sees it: its size and its ARGB pixels. */
  datatype Image = Image(width: int, height: int, pixels: seq<bv32>)

  /** Where the pixels of an uploaded texture came from. */
  datatype Origin = Named(request: Request) | Direct(image: Image)

  /** One upload to a texture id, with the wrap and filter flags in force. */
  datatype Upload = Upload(origin: Origin, clamp: bool, blur: bool)

  class Textures {
    /** Resource name to texture id. */
    var idMap: map<seq<char>, int>
    /** Images registered with `getTexture`, by id. */
    var loadedImages: map<int, Image>
    /** The last upload made to each texture id. */
    var uploads: map<int, Upload>
    var clamp: bool
    var blur: bool
    /** The next texture name the GL hands out; names start at 1. */
    var nextName: int

    /** Every cached or registered id has been handed out and uploaded,
        and no two names share an id. */
    ghost predicate Valid()
      reads this
    {
      nextName >= 1
      && (forall n :: n in idMap ==> 1 <= idMap[n] < nextName && idMap[n] in uploads)
      && (forall id :: id in loadedImages ==> 1 <= id < nextName && id in uploads)
      && (forall n, m :: n in idMap && m in idMap && n != m ==> idMap[n] != idMap[m])
      && (forall n, id :: n in idMap && id in loadedImages ==> idMap[n] != id)
      && !clamp && !blur
    }

    constructor ()
      ensures Valid() && idMap == map[] && loadedImages == map[] && uploads == map[]
    {
      idMap, loadedImages, uploads := map[], map[], map[];
      clamp, blur := false, false;
      nextName := 1;
    }

    /** `genTextures`: a name not handed out before. */
    method GenTexture() returns (id: int)
      requires nextName >= 1
      modifies this`nextName
      ensures id == old(nextName) && nextName == id + 1
    {
      id := nextName;
      nextName := nextName + 1;
    }

    /** `loadTexture(img, id)`: records the upload with the current flags. */
    method UploadTo(origin: Origin, id: int)
      modifies this`uploads
      ensures uploads == old(uploads)[id := Upload(origin, clamp, blur)]
    {
      uploads := uploads[id := Upload(origin, clamp, blur)];
    }

    /** `loadTexture(name)`: a cached name returns its id and changes
        nothing; a new name gets a fresh id, is uploaded with the flags its
        prefix asks for (reset afterwards), and is cached. */
    method LoadTexture(name: seq<char>) returns (id: int)
      requires Valid()
      modifies this
      ensures Valid()
      ensures name in old(idMap) ==>
                id == old(idMap)[name] && idMap == old(idMap) && uploads == old(uploads) && nextName == old(nextName)
      ensures name !in old(idMap) ==>
                id == old(nextName) && nextName == id + 1 && idMap == old(idMap)[name := id]
      ensures name !in old(idMap) ==>
                var q := ParseName(name);
                uploads == old(uploads)[id := Upload(Named(q), q.clamp, q.blur)]
      ensures id in uploads && idMap[name] == id
      ensures loadedImages == old(loadedImages)
    {
      if name in idMap {
        return idMap[name];
      }
      id := GenTexture();
      var q := ParseName(name);
      if q.strip {
        UploadTo(Named(q), id);
      } else if q.clamp {
        clamp := true;
        UploadTo(Named(q), id);
        clamp := false;
      } else if q.blur {
        blur := true;
        UploadTo(Named(q), id);
        blur := false;
      } else {
        UploadTo(Named(q), id);
      }
      idMap := idMap[name := id];
    }

    /** `getTexture(img)`: a fresh id, uploaded and registered. */
    method GetTexture(img: Image) returns (id: int)
      requires Valid()
      modifies this
      ensures Valid()
      ensures id == old(nextName) && nextName == id + 1
      ensures loadedImages == old(loadedImages)[id := img]
      ensures uploads == old(uploads)[id := Upload(Direct(img), false, false)]
      ensures idMap == old(idMap)
    {
      id := GenTexture();
      UploadTo(Direct(img), id);
      loadedImages := loadedImages[id := img];
    }
  }

  /** Loading the same name twice gives the same id the second time, and
      the second call adds nothing. */
  method LoadTwice(t: Textures, name: seq<char>) returns (first: int, second: int)
    requires t.Valid()
    modifies t
    ensures first == second && t.Valid()
    ensures t.idMap == old(t.idMap)[name := first]
  {
    first := t.LoadTexture(name);
    second := t.LoadTexture(name);
  }
}
