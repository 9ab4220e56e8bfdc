/**
 * The multiplayer client's `MultiPlayerChunkCache`: the chunks the server has
 * sent, keyed by chunk position, with one shared empty chunk for every
 * position that is not loaded.
 */
module ChunkCache {

  /** A 32-bit two's-complement int as its bit pattern. */
  function Bits(n: int): bv32
  {
    (n % 0x1_0000_0000) as bv32
  }

  /** `ChunkPos`: equality is on (x, z), which a datatype gives for free. */
  datatype ChunkPos = ChunkPos(x: int, z: int)
  {
    /** `hashCode`: x shifted up 16 bits, xor z, as a 32-bit int. */
    function HashCode(): bv32
    {
      (Bits(x) << 16) ^ Bits(z)
    }
  }

  /** The low 16 bits of the hash are the low 16 bits of z. */
  lemma HashLowBits(p: ChunkPos)
    ensures p.HashCode() & 0xFFFF == Bits(p.z) & 0xFFFF
  {
  }

  /** Two positions in the same column x with different 32-bit z never collide. */
  lemma HashInjectiveInZ(x: int, z1: int, z2: int)
    requires Bits(z1) != Bits(z2)
    ensures ChunkPos(x, z1).HashCode() != ChunkPos(x, z2).HashCode()
  {
    var s := Bits(x) << 16;
    assert (s ^ Bits(z1)) ^ s == Bits(z1);
    assert (s ^ Bits(z2)) ^ s == Bits(z2);
  }

  /** Across columns the hash is not injective: z's high bits overlap x's
      low bits, so (1, 0) and (0, 65536) share a hash. */
  lemma HashCollides()
    ensures ChunkPos(1, 0) != ChunkPos(0, 65536)
    ensures ChunkPos(1, 0).HashCode() == ChunkPos(0, 65536).HashCode() == 0x10000
  {
    assert 1 % 0x1_0000_0000 == 1 && 0 % 0x1_0000_0000 == 0 && 65536 % 0x1_0000_0000 == 65536;
    assert Bits(1) == 1 as bv32 && Bits(0) == 0 as bv32 && Bits(65536) == 65536 as bv32;
  }

  /** A client chunk. Only what the cache reads or writes is kept. */
  class LevelChunk {
    const x: int
    const z: int
    /** True for the placeholder `EmptyLevelChunk`. */
    const isEmpty: bool
    var loaded: bool

    constructor (x: int, z: int, isEmpty: bool)
      ensures this.x == x && this.z == z && this.isEmpty == isEmpty && !loaded
    {
      this.x, this.z, this.isEmpty := x, z, isEmpty;
      loaded := false;
    }

    /** `unload`: the chunk is no longer live. */
    method Unload()
      modifies this
      ensures !loaded
    {
      loaded := false;
    }
  }

  /** The list without its first occurrence of `c`, as `List.remove(Object)` does. */
  function RemoveFirst(s: seq<LevelChunk>, c: LevelChunk): (r: seq<LevelChunk>)
    ensures c !in s ==> r == s
    ensures c in s ==> |r| == |s| - 1
    ensures multiset(r) == multiset(s) - multiset{c}
  {
    if s == [] then []
    else if s[0] == c then (assert s == [s[0]] + s[1..]; s[1..])
    else (assert s == [s[0]] + s[1..]; [s[0]] + RemoveFirst(s[1..], c))
  }

  class MultiPlayerChunkCache {
    const emptyChunk: LevelChunk
    var loadedChunks: map<ChunkPos, LevelChunk>
    var loadedChunkList: seq<LevelChunk>

    ghost predicate Valid()
      reads this, loadedChunks.Values
    {
      emptyChunk.isEmpty
      && forall p :: p in loadedChunks ==>
           !loadedChunks[p].isEmpty && loadedChunks[p].x == p.x && loadedChunks[p].z == p.z
    }

    constructor ()
      ensures Valid() && fresh(emptyChunk)
      ensures loadedChunks == map[] && loadedChunkList == []
    {
      emptyChunk := new LevelChunk(0, 0, true);
      loadedChunks := map[];
      loadedChunkList := [];
    }

    /** `hasChunk`: whether the server has sent this position. */
    predicate HasChunk(x: int, z: int)
      reads this
    {
      ChunkPos(x, z) in loadedChunks
    }

    /** `getChunk`: the loaded chunk, or the shared empty chunk when missing. */
    function GetChunk(x: int, z: int): (c: LevelChunk)
      reads this
      ensures HasChunk(x, z) ==> c == loadedChunks[ChunkPos(x, z)]
      ensures !HasChunk(x, z) ==> c == emptyChunk
    {
      if ChunkPos(x, z) in loadedChunks then loadedChunks[ChunkPos(x, z)] else emptyChunk
    }

    /** `create`: a fresh, loaded chunk stored under its position (replacing any
        earlier one); the chunk list is not touched. */
    method Create(x: int, z: int) returns (chunk: LevelChunk)
      requires Valid()
      modifies this
      ensures Valid() && fresh(chunk) && chunk.loaded
      ensures chunk.x == x && chunk.z == z && !chunk.isEmpty
      ensures loadedChunks == old(loadedChunks)[ChunkPos(x, z) := chunk]
      ensures loadedChunkList == old(loadedChunkList)
      ensures HasChunk(x, z) && GetChunk(x, z) == chunk
    {
      chunk := new LevelChunk(x, z, false);
      loadedChunks := loadedChunks[ChunkPos(x, z) := chunk];
      chunk.loaded := true;
    }

    /** `drop`: unloads a real chunk, forgets the position and removes the
        chunk from the list. */
    method Drop(x: int, z: int)
      requires Valid()
      modifies this, if HasChunk(x, z) then {loadedChunks[ChunkPos(x, z)]} else {}
      ensures Valid()
      ensures !HasChunk(x, z)
      ensures loadedChunks == old(loadedChunks) - {ChunkPos(x, z)}
      ensures loadedChunkList == RemoveFirst(old(loadedChunkList), old(GetChunk(x, z)))
      ensures old(HasChunk(x, z)) ==> !old(GetChunk(x, z)).loaded
    {
      var chunk := GetChunk(x, z);
      if !chunk.isEmpty {
        chunk.Unload();
      }
      loadedChunks := loadedChunks - {ChunkPos(x, z)};
      loadedChunkList := RemoveFirst(loadedChunkList, chunk);
    }
  }
}
