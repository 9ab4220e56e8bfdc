/**
 * The C++ port's `Tesselator`: a batch of vertices written eight 32-bit
 * words at a time into a fixed array, plus the index lists that turn quads
 * and triangle fans into triangles when the batch is drawn or handed out.
 *
 * A word of the vertex array holds either an integer bit pattern or the
 * bits of a float (`floatToRawIntBits`); the model keeps the second kind
 * as the real value it encodes. Colours, normals and light values are
 * unsigned 32-bit patterns. The GPU calls of `draw` become a returned
 * `DrawCall` value.
 */
module Tesselator {
  import Mth

  datatype DrawMode = Quads | TriangleFan | Triangles | Lines | LineStrip | Points

  /** One slot of the vertex array. */
  datatype Word = Bits(bits: int) | FloatBits(value: real)

  /** What `draw` submits: nothing, a plain draw of the first vertices, or
      an indexed triangle draw. Each carries the uploaded vertex words. */
  datatype DrawCall =
    | NoDraw
    | DrawArrays(data: seq<Word>, primitive: DrawMode, vertexCount: int)
    | DrawIndexed(data: seq<Word>, indices: seq<int>)

  /** `getVertexData`'s result. */
  datatype VertexData = VertexData(vertexCount: int, hasColor: bool, hasTexture: bool, hasNormal: bool,
                                   vertices: seq<Word>, indices: seq<int>)

  /** The array holds 2097152 ints, 8 per vertex. */
  const Capacity := 2097152
  const Stride := 8
  /** The vertex count at which `vertex` flushes: the first multiple of 4
      whose array position reaches Capacity - 32. */
  const FlushAt := 262140
  const White := 0xFFFF_FFFF
  /** Sky light 15 in the low byte, block light 15 in the next. */
  const FullLight := 0x0F0F

  // ---------------------------------------------------------------------
  // Index lists

  /** The six indices of quad q: triangles (b, b+1, b+2) and (b, b+2, b+3)
      with b = 4q. */
  function Quad(q: int): seq<int>
  {
    [4 * q, 4 * q + 1, 4 * q + 2, 4 * q, 4 * q + 2, 4 * q + 3]
  }

  /** The index list of `numQuads` quads. */
  function QuadIndices(numQuads: nat): (r: seq<int>)
    ensures |r| == 6 * numQuads
  {
    if numQuads == 0 then [] else QuadIndices(numQuads - 1) + Quad(numQuads - 1)
  }

  /** The triangle (0, t+1, t+2) of a fan. */
  function Fan(t: int): seq<int>
  {
    [0, t + 1, t + 2]
  }

  /** The index list of the first `triangles` triangles of a fan. */
  function FanIndices(triangles: nat): (r: seq<int>)
    ensures |r| == 3 * triangles
  {
    if triangles == 0 then [] else FanIndices(triangles - 1) + Fan(triangles - 1)
  }

  /** Quad q occupies positions 6q..6q+5 of the list, and every index names
      one of the first 4 * numQuads vertices. */
  lemma {:induction false} QuadIndicesShape(numQuads: nat)
    ensures forall q :: 0 <= q < numQuads ==> QuadIndices(numQuads)[6 * q .. 6 * q + 6] == Quad(q)
    ensures forall j :: 0 <= j < |QuadIndices(numQuads)| ==> 0 <= QuadIndices(numQuads)[j] < 4 * numQuads
  {
    if numQuads > 0 {
      var n := numQuads - 1;
      QuadIndicesShape(n);
      var a := QuadIndices(n);
      assert QuadIndices(numQuads) == a + Quad(n);
      forall q | 0 <= q < numQuads
        ensures QuadIndices(numQuads)[6 * q .. 6 * q + 6] == Quad(q)
      {
        if q < n {
          assert (a + Quad(n))[6 * q .. 6 * q + 6] == a[6 * q .. 6 * q + 6];
        } else {
          assert (a + Quad(n))[6 * q .. 6 * q + 6] == Quad(n);
        }
      }
      forall j | 0 <= j < |QuadIndices(numQuads)|
        ensures 0 <= QuadIndices(numQuads)[j] < 4 * numQuads
      {
        if j >= |a| {
          assert QuadIndices(numQuads)[j] == Quad(n)[j - |a|];
        }
      }
    }
  }

  /** Triangle t occupies positions 3t..3t+2, and a fan of k triangles
      names only the first k + 2 vertices. */
  lemma {:induction false} FanIndicesShape(triangles: nat)
    ensures forall t :: 0 <= t < triangles ==> FanIndices(triangles)[3 * t .. 3 * t + 3] == Fan(t)
    ensures forall j :: 0 <= j < |FanIndices(triangles)| ==> 0 <= FanIndices(triangles)[j] < triangles + 2
  {
    if triangles > 0 {
      var n := triangles - 1;
      FanIndicesShape(n);
      var a := FanIndices(n);
      assert FanIndices(triangles) == a + Fan(n);
      forall t | 0 <= t < triangles
        ensures FanIndices(triangles)[3 * t .. 3 * t + 3] == Fan(t)
      {
        if t < n {
          assert (a + Fan(n))[3 * t .. 3 * t + 3] == a[3 * t .. 3 * t + 3];
        } else {
          assert (a + Fan(n))[3 * t .. 3 * t + 3] == Fan(n);
        }
      }
      forall j | 0 <= j < |FanIndices(triangles)|
        ensures 0 <= FanIndices(triangles)[j] < triangles + 2
      {
        if j >= |a| {
          assert FanIndices(triangles)[j] == Fan(n)[j - |a|];
        }
      }
    }
  }

  /** The loop of `buildQuadIndices` and of `getVertexData`'s quad case. */
  method QuadIndexList(vertices: int) returns (r: seq<int>)
    requires vertices >= 0
    ensures r == QuadIndices(vertices / 4)
  {
    r := [];
    var numQuads := vertices / 4;
    for i := 0 to numQuads
      invariant r == QuadIndices(i)
    {
      var base := i * 4;
      r := r + [base + 0, base + 1, base + 2, base + 0, base + 2, base + 3];
    }
  }

  /** The fan loop of `draw` and of `getVertexData`: triangles (0, i, i+1)
      for i = 1 .. vertices - 2. */
  method FanIndexList(vertices: int) returns (r: seq<int>)
    requires vertices >= 2
    ensures r == FanIndices(vertices - 2)
  {
    r := [];
    for i := 1 to vertices - 1
      invariant r == FanIndices(i - 1)
    {
      r := r + [0, i, i + 1];
    }
  }

  /** The indices `getVertexData` hands out for a batch of n vertices. */
  function IndicesFor(mode: DrawMode, n: nat): seq<int>
  {
    if mode == Quads then QuadIndices(n / 4)
    else if mode == TriangleFan && n >= 3 then FanIndices(n - 2)
    else []
  }

  /** What `draw` submits for a batch of n vertices whose words are data. */
  function DrawCallFor(mode: DrawMode, data: seq<Word>, n: nat): DrawCall
  {
    if n == 0 then NoDraw
    else if mode == Quads then DrawIndexed(data, QuadIndices(n / 4))
    else if mode == TriangleFan then (if n >= 3 then DrawIndexed(data, FanIndices(n - 2)) else NoDraw)
    else DrawArrays(data, mode, n)
  }

  /** Every index `draw` submits names one of the batch's vertices; quads
      give 6 indices per whole quad, a fan 3 per triangle; and the list is
      the one `getVertexData` would hand out. */
  lemma DrawIndicesInRange(mode: DrawMode, data: seq<Word>, n: nat)
    ensures DrawCallFor(mode, data, n).DrawIndexed? ==>
              DrawCallFor(mode, data, n).indices == IndicesFor(mode, n)
              && forall j :: 0 <= j < |IndicesFor(mode, n)| ==> 0 <= IndicesFor(mode, n)[j] < n
    ensures mode == Quads && n > 0 ==> |DrawCallFor(mode, data, n).indices| == 6 * (n / 4)
    ensures mode == TriangleFan && n >= 3 ==> |DrawCallFor(mode, data, n).indices| == 3 * (n - 2)
    ensures mode == TriangleFan && n < 3 ==> DrawCallFor(mode, data, n) == NoDraw
    ensures mode !in {Quads, TriangleFan} && n > 0 ==> DrawCallFor(mode, data, n) == DrawArrays(data, mode, n)
  {
    if mode == Quads {
      QuadIndicesShape(n / 4);
    } else if mode == TriangleFan && n >= 3 {
      FanIndicesShape(n - 2);
    }
  }

  // ---------------------------------------------------------------------
  // Packing

  /** `color(r, g, b, a)`'s packing after clamping each channel to 0..255:
      red in the low byte, then green, blue and alpha (ABGR as a word, RGBA
      in little-endian memory). The four shifted fields do not overlap, so
      the source's `|` is addition. */
  function PackColor(r: int, g: int, b: int, a: int): (c: int)
    ensures 0 <= c < 0x1_0000_0000
    ensures c % 256 == Mth.ClampInt(r, 0, 255)
    ensures c / 256 % 256 == Mth.ClampInt(g, 0, 255)
    ensures c / 65536 % 256 == Mth.ClampInt(b, 0, 255)
    ensures c / 16777216 == Mth.ClampInt(a, 0, 255)
  {
    var r', g', b', a' := Mth.ClampInt(r, 0, 255), Mth.ClampInt(g, 0, 255), Mth.ClampInt(b, 0, 255), Mth.ClampInt(a, 0, 255);
    Bytes(a', b', g', r')
  }

  /** Four bytes, most significant first, as one unsigned word. */
  function Bytes(b3: int, b2: int, b1: int, b0: int): (c: int)
    requires 0 <= b3 < 256 && 0 <= b2 < 256 && 0 <= b1 < 256 && 0 <= b0 < 256
    ensures 0 <= c < 0x1_0000_0000
    ensures c % 256 == b0 && c / 256 % 256 == b1 && c / 65536 % 256 == b2 && c / 16777216 == b3
  {
    var c := ((b3 * 256 + b2) * 256 + b1) * 256 + b0;
    assert c / 256 == (b3 * 256 + b2) * 256 + b1;
    assert c / 65536 == c / 256 / 256;
    assert c / 16777216 == c / 65536 / 256;
    c
  }

  /** Byte k (0 = lowest) of a 32-bit int: `(v >> 8k) & 255`. An arithmetic
      shift of a negative int is floor division, as Dafny's `/` is for a
      positive divisor. */
  function ByteOf(v: int, k: nat): (r: int)
    ensures 0 <= r < 256
  {
    v / Pow256(k) % 256
  }

  function Pow256(k: nat): (r: int)
    ensures r > 0
  {
    if k == 0 then 1 else 256 * Pow256(k - 1)
  }

  /** `lightLevel`'s packing: sky light clamped to 0..15 in the low byte,
      block light clamped to 0..15 in the next. */
  function PackLight(sky: int, block: int): (r: int)
    ensures 0 <= r <= FullLight
    ensures r % 256 == Mth.ClampInt(sky, 0, 15) && r / 256 == Mth.ClampInt(block, 0, 15)
  {
    Mth.ClampInt(sky, 0, 15) + Mth.ClampInt(block, 0, 15) * 256
  }

  /** `normal`'s packing: each component scaled (x by 128, y and z by 127),
      truncated toward zero, wrapped to a signed byte and masked with 0xFF,
      which together take it modulo 256; x in the low byte. */
  function PackNormal(x: real, y: real, z: real): (r: int)
    ensures 0 <= r < 0x100_0000
    ensures r % 256 == Mth.Trunc(x * 128.0) % 256
    ensures r / 256 % 256 == Mth.Trunc(y * 127.0) % 256
    ensures r / 65536 == Mth.Trunc(z * 127.0) % 256
  {
    Bytes(0, Mth.Trunc(z * 127.0) % 256, Mth.Trunc(y * 127.0) % 256, Mth.Trunc(x * 128.0) % 256)
  }

  /** rec written over s at position at, the rest of s unchanged. */
  function Spliced(s: seq<Word>, at: int, rec: seq<Word>): (r: seq<Word>)
    requires 0 <= at && at + |rec| <= |s|
    ensures |r| == |s|
    ensures forall i :: 0 <= i < |s| ==> r[i] == (if at <= i < at + |rec| then rec[i - at] else s[i])
  {
    s[..at] + rec + s[at + |rec|..]
  }

  /** The eight writes of `vertex`: the words of one vertex stored at
      position at of the array. */
  method StoreWords(a: array<Word>, at: int, rec: seq<Word>)
    requires 0 <= at && at + Stride <= a.Length && |rec| == Stride
    modifies a
    ensures a[..] == Spliced(old(a[..]), at, rec)
  {
    ghost var s := a[..];
    a[at + 3] := rec[3];
    a[at + 4] := rec[4];
    a[at + 5] := rec[5];
    a[at + 6] := rec[6];
    a[at + 7] := rec[7];
    a[at + 0] := rec[0];
    a[at + 1] := rec[1];
    a[at + 2] := rec[2];
    assert forall i :: 0 <= i < a.Length ==> a[i] == (if at <= i < at + Stride then rec[i - at] else s[i]);
  }

  class Tesselator {
    /** The vertex array (`array` in the source). */
    const buffer: array<Word>
    var p: int
    var vertices: int
    var count: int
    var indices: seq<int>
    var u: real
    var v: real
    var col: int
    var normalValue: int
    var lightValue: int
    var xo: real
    var yo: real
    var zo: real
    var hasColor: bool
    var hasTexture: bool
    var hasNormal: bool
    var hasLight: bool
    var noColorFlag: bool
    var tesselating: bool
    var mode: DrawMode

    /** p is the write position in words, 8 per vertex, inside the array;
        `count` always equals `vertices`. */
    ghost predicate Layout()
      reads this
    {
      buffer.Length == Capacity && 0 <= vertices && p == Stride * vertices && p <= Capacity
      && count == vertices
    }

    /** While tesselating, `vertex` has always flushed before the batch
        reaches FlushAt vertices, so the next vertex fits. */
    ghost predicate Valid()
      reads this
    {
      Layout() && (tesselating ==> vertices < FlushAt)
    }

    /** The eight words `vertex` writes for position (x, y, z): the offset
        position, the texture coordinates or zeros, the colour or white, the
        normal or zero, and the light value. */
    function VertexRecord(x: real, y: real, z: real): (r: seq<Word>)
      reads this
      ensures |r| == Stride
    {
      [FloatBits(x + xo), FloatBits(y + yo), FloatBits(z + zo),
       if hasTexture then FloatBits(u) else Bits(0),
       if hasTexture then FloatBits(v) else Bits(0),
       if hasColor then Bits(col) else Bits(White),
       if hasNormal then Bits(normalValue) else Bits(0),
       Bits(lightValue)]
    }

    /** The constructor: an empty batch in quad mode, white, full light. */
    constructor ()
      ensures Valid() && fresh(buffer)
      ensures p == 0 && vertices == 0 && count == 0 && indices == []
      ensures u == 0.0 && v == 0.0 && col == White && normalValue == 0 && lightValue == FullLight
      ensures xo == 0.0 && yo == 0.0 && zo == 0.0
      ensures !hasColor && !hasTexture && !hasNormal && !hasLight && !noColorFlag && !tesselating
      ensures mode == Quads
      ensures forall i :: 0 <= i < buffer.Length ==> buffer[i] == Bits(0)
    {
      buffer := new Word[Capacity](_ => Bits(0));
      p, vertices, count, indices := 0, 0, 0, [];
      u, v, col, normalValue, lightValue := 0.0, 0.0, White, 0, FullLight;
      xo, yo, zo := 0.0, 0.0, 0.0;
      hasColor, hasTexture, hasNormal, hasLight, noColorFlag, tesselating := false, false, false, false, false, false;
      mode := Quads;
    }

    /** `begin`: fails (the source throws) when a batch is already open;
        otherwise opens an empty batch in the given mode with the colour,
        texture, normal and light flags reset and full light. */
    method Begin(drawMode: DrawMode) returns (ok: bool)
      requires Valid()
      modifies this`tesselating, this`vertices, this`p, this`count, this`indices, this`mode
      modifies this`hasNormal, this`hasColor, this`hasTexture, this`hasLight, this`noColorFlag, this`lightValue
      ensures Valid()
      ensures ok <==> !old(tesselating)
      ensures !ok ==> unchanged(this)
      ensures ok ==> tesselating && mode == drawMode
                     && vertices == 0 && p == 0 && count == 0 && indices == []
                     && !hasNormal && !hasColor && !hasTexture && !hasLight && !noColorFlag
                     && lightValue == FullLight
    {
      if tesselating {
        return false;
      }
      tesselating := true;
      Clear();
      mode := drawMode;
      hasNormal, hasColor, hasTexture, hasLight, noColorFlag := false, false, false, false, false;
      lightValue := FullLight;
      ok := true;
    }

    /** `clear`: empties the batch. */
    method Clear()
      modifies this`vertices, this`p, this`count, this`indices
      ensures vertices == 0 && p == 0 && count == 0 && indices == []
    {
      vertices, p, count, indices := 0, 0, 0, [];
    }

    /** `buildQuadIndices`: two triangles per whole quad of the batch. */
    method BuildQuadIndices()
      requires vertices >= 0
      modifies this`indices
      ensures indices == QuadIndices(vertices / 4)
    {
      indices := QuadIndexList(vertices);
    }

    /** `draw`: nothing for an empty batch; quads and fans (of at least
        three vertices) become indexed triangles, left in `indices`; the
        other modes draw the vertices as they are. */
    method Draw() returns (call: DrawCall)
      requires Layout()
      modifies this`indices
      ensures call == DrawCallFor(mode, buffer[..p], vertices)
      ensures indices == (if call.DrawIndexed? then call.indices else old(indices))
    {
      if vertices == 0 {
        return NoDraw;
      }
      var data := buffer[..p];
      if mode == Quads {
        BuildQuadIndices();
        call := DrawIndexed(data, indices);
      } else if mode == TriangleFan {
        if vertices >= 3 {
          indices := FanIndexList(vertices);
          call := DrawIndexed(data, indices);
        } else {
          call := NoDraw;
        }
      } else {
        call := DrawArrays(data, mode, vertices);
      }
    }

    /** `end`: fails (the source throws) when no batch is open; otherwise
        closes the batch, draws it and empties it. */
    method End() returns (ok: bool, call: DrawCall)
      requires Layout()
      modifies this`tesselating, this`vertices, this`p, this`count, this`indices
      ensures Valid()
      ensures ok <==> old(tesselating)
      ensures !ok ==> call == NoDraw && unchanged(this)
      ensures ok ==> call == DrawCallFor(mode, old(buffer[..p]), old(vertices))
                     && !tesselating && vertices == 0 && p == 0 && count == 0 && indices == []
    {
      if !tesselating {
        return false, NoDraw;
      }
      tesselating := false;
      call := Draw();
      Clear();
      ok := true;
    }

    /** `tex`. */
    method Tex(u': real, v': real)
      modifies this`hasTexture, this`u, this`v
      ensures hasTexture && u == u' && v == v'
    {
      hasTexture, u, v := true, u', v';
    }

    /** `color(int, int, int, int)`: ignored after `noColor`; otherwise each
        channel is clamped to 0..255 and packed. */
    method Color4(r: int, g: int, b: int, a: int)
      modifies this`hasColor, this`col
      ensures noColorFlag ==> unchanged(this)
      ensures !noColorFlag ==> hasColor && col == PackColor(r, g, b, a)
    {
      if noColorFlag {
        return;
      }
      hasColor := true;
      col := PackColor(r, g, b, a);
    }

    /** `color(int, int, int)`: opaque. */
    method Color3(r: int, g: int, b: int)
      modifies this`hasColor, this`col
      ensures noColorFlag ==> unchanged(this)
      ensures !noColorFlag ==> hasColor && col == PackColor(r, g, b, 255)
    {
      Color4(r, g, b, 255);
    }

    /** `color(int rgba)`: red, green and blue are bytes 2, 1 and 0 of the
        argument, stored opaque; the alpha byte of the argument is dropped. */
    method ColorRgb(rgba: int)
      modifies this`hasColor, this`col
      ensures noColorFlag ==> unchanged(this)
      ensures !noColorFlag ==> hasColor && col % 256 == ByteOf(rgba, 2) && col / 256 % 256 == ByteOf(rgba, 1)
                               && col / 65536 % 256 == ByteOf(rgba, 0) && col / 16777216 == 255
    {
      var r := ByteOf(rgba, 2);
      var g := ByteOf(rgba, 1);
      var b := ByteOf(rgba, 0);
      Color3(r, g, b);
    }

    /** `color(float, float, float, float)`: each channel scaled by 255 and
        truncated toward zero. */
    method ColorF4(r: real, g: real, b: real, a: real)
      modifies this`hasColor, this`col
      ensures noColorFlag ==> unchanged(this)
      ensures !noColorFlag ==> hasColor && col == PackColor(Mth.Trunc(r * 255.0), Mth.Trunc(g * 255.0),
                                                            Mth.Trunc(b * 255.0), Mth.Trunc(a * 255.0))
    {
      Color4(Mth.Trunc(r * 255.0), Mth.Trunc(g * 255.0), Mth.Trunc(b * 255.0), Mth.Trunc(a * 255.0));
    }

    /** `color(float, float, float)` and `setColorOpaque_F`: opaque. */
    method ColorF3(r: real, g: real, b: real)
      modifies this`hasColor, this`col
      ensures noColorFlag ==> unchanged(this)
      ensures !noColorFlag ==> hasColor && col == PackColor(Mth.Trunc(r * 255.0), Mth.Trunc(g * 255.0),
                                                            Mth.Trunc(b * 255.0), 255)
    {
      Color3(Mth.Trunc(r * 255.0), Mth.Trunc(g * 255.0), Mth.Trunc(b * 255.0));
    }

    /** `normal`. */
    method Normal(x: real, y: real, z: real)
      modifies this`hasNormal, this`normalValue
      ensures hasNormal && normalValue == PackNormal(x, y, z)
    {
      hasNormal := true;
      normalValue := PackNormal(x, y, z);
    }

    /** `lightLevel`. */
    method LightLevel(sky: int, block: int)
      modifies this`hasLight, this`lightValue
      ensures hasLight && lightValue == PackLight(sky, block)
    {
      hasLight := true;
      lightValue := PackLight(sky, block);
    }

    /** `offset`. */
    method Offset(x: real, y: real, z: real)
      modifies this`xo, this`yo, this`zo
      ensures xo == x && yo == y && zo == z
    {
      xo, yo, zo := x, y, z;
    }

    /** `noColor`: later colour calls are ignored until the next `begin`. */
    method NoColor()
      modifies this`noColorFlag
      ensures noColorFlag
    {
      noColorFlag := true;
    }

    /** `vertex`: writes the vertex's eight words at p and advances by one
        vertex. When the batch then holds a whole number of quads and the
        array is within 32 words of full, the batch is ended (drawn and
        emptied) and stays open; if no batch was open, ending fails (the
        source throws) after the vertex has been written. The array is not
        bounds-checked by the source: the caller must leave room for the
        vertex, which an open batch always does. */
    method Vertex(x: real, y: real, z: real) returns (ok: bool, call: DrawCall)
      requires Valid() && p + Stride <= buffer.Length
      modifies this`count, this`p, this`vertices, this`tesselating, this`indices, buffer
      ensures Valid()
      ensures buffer[..] == Spliced(old(buffer[..]), old(p), old(VertexRecord(x, y, z)))
      ensures var n := old(vertices) + 1;
              if !(n % 4 == 0 && Stride * n >= Capacity - 32) then
                ok && call == NoDraw && vertices == n && p == Stride * n && count == n
                && tesselating == old(tesselating) && indices == old(indices)
              else if old(tesselating) then
                ok && call == DrawCallFor(mode, buffer[..Stride * n], n)
                && tesselating && vertices == 0 && p == 0 && count == 0 && indices == []
              else
                !ok && call == NoDraw && vertices == n && p == Stride * n && count == n
                && !tesselating && indices == old(indices)
    {
      count := count + 1;
      var rec := VertexRecord(x, y, z);
      StoreWords(buffer, p, rec);
      p := p + 8;
      vertices := vertices + 1;
      call := NoDraw;
      ok := true;
      if vertices % 4 == 0 && p >= buffer.Length - 32 {
        ok, call := End();
        if ok {
          tesselating := true;
        }
      }
    }

    /** `vertexUV`: `tex` then `vertex`. */
    method VertexUV(x: real, y: real, z: real, u': real, v': real) returns (ok: bool, call: DrawCall)
      requires Valid() && p + Stride <= buffer.Length
      modifies this`count, this`p, this`vertices, this`tesselating, this`indices, this`hasTexture, this`u, this`v, buffer
      ensures Valid() && hasTexture && u == u' && v == v'
      ensures buffer[..] == Spliced(old(buffer[..]), old(p), old(VertexRecord(x, y, z))[3 := FloatBits(u')][4 := FloatBits(v')])
      ensures var n := old(vertices) + 1;
              if !(n % 4 == 0 && Stride * n >= Capacity - 32) then
                ok && call == NoDraw && vertices == n && p == Stride * n && count == n
                && tesselating == old(tesselating) && indices == old(indices)
              else if old(tesselating) then
                ok && call == DrawCallFor(mode, buffer[..Stride * n], n)
                && tesselating && vertices == 0 && p == 0 && count == 0 && indices == []
              else
                !ok && call == NoDraw && vertices == n && p == Stride * n && count == n
                && !tesselating && indices == old(indices)
    {
      Tex(u', v');
      ok, call := Vertex(x, y, z);
    }

    /** `getVertexData`: the batch's words and flags, with the quad or fan
        index list built as `draw` would; then the batch is emptied and
        closed. */
    method GetVertexData() returns (data: VertexData)
      requires Valid()
      modifies this`vertices, this`p, this`count, this`indices, this`tesselating
      ensures data == VertexData(old(vertices), hasColor, hasTexture, hasNormal,
                                 old(buffer[..p]), IndicesFor(mode, old(vertices)))
      ensures vertices == 0 && p == 0 && count == 0 && indices == [] && !tesselating
      ensures Valid()
    {
      var idx: seq<int> := [];
      if mode == Quads {
        idx := QuadIndexList(vertices);
      } else if mode == TriangleFan && vertices >= 3 {
        idx := FanIndexList(vertices);
      }
      data := VertexData(vertices, hasColor, hasTexture, hasNormal, buffer[..p], idx);
      Clear();
      tesselating := false;
    }
  }
}
