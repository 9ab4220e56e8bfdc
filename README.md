# Minecraft Beta core, modelled in Dafny

This project models the core of a Minecraft Beta 1.x client in two forms: the Java client and its C++ port, mc-cpp. It also proves properties of that model. The modelled parts are:

- **World generation.** The overworld generator (`RandomLevelSource`) and the hell generator (`HellRandomLevelSource`).
  - The overworld generator builds the density field, fills stone, water and ice, and walks the surface to choose top and filler materials (the biome's top and filler tiles, or sand or gravel near sea level), with bedrock at the floor.
  - Two carvers cut tunnels: the canyon carver (`CanyonFeature`) and the hell cave carver (`LargeHellCaveFeature`). Both test a cell at height `y` and then write the cell at `y + 1`. The model keeps that behaviour.
  - The noise sources are the Java `ImprovedNoise` (with the cached 3-D `add` path) and `PerlinNoise` octave sums, plus the C++ `PerlinNoise`, which is proved to give the same lattice noise.
- **Level storage and lighting.** The level keeps a dense tile, data and light array plus a height map. The lighting engine merges light-update boxes, and a chunk snapshot copies a region of the level for the renderer.
- **Path finding.** The binary heap of open nodes, path nodes and their hash, the reconstructed path, and the A* search with its neighbour probing.
- **Inventory.** Adding, removing and selecting items, the hotbar, armour, and the inventory screen's slot clicks (pick up, place, merge, split).
- **Rendering helpers.** The tesselator's vertex buffer, the Java and C++ fonts (colour codes, glyph widths, string width), and the texture loader (pixel packing, anaglyph colour mix).
- **Utilities.** Axis-aligned boxes, the `Mth` integer and real helpers, the spatial hash used for entity lookups, the GUI scale, chat line wrapping (320 pixels) and trimming (50 lines), the client chunk cache key, hit results, and the shapeless recipe matcher.

Imperative code is modelled as Dafny classes or array methods, each proved against a specification function. Pure code is modelled as functions with lemmas. Random draws, noise samples, images and trigonometric tables are inputs to the model.

## Model

| member | source | states |
|---|---|---|
| Aabb.InsideContains | mc-cpp/src/phys/AABB.cpp:64-68 | a point contained in a box is contained in every box around it |
| Aabb.Expand | mc-cpp/src/phys/AABB.cpp:25-37 | the expanded box holds the box both before and after the move, and each axis grows by exactly the motion's magnitude |
| Aabb.Grow | mc-cpp/src/phys/AABB.cpp:39-42 | every face moves out by the amount: each extent grows by twice it, the centre stays, and the box grows or shrinks by its sign |
| Aabb.Shrink | mc-cpp/src/phys/AABB.cpp:44-46 | shrinking by a non-negative amount gives a box inside the original |
| Aabb.GrowAdds | mc-cpp/src/phys/AABB.cpp:39-46 | growing twice adds the amounts, and shrink undoes grow |
| Aabb.Move | mc-cpp/src/phys/AABB.cpp:48-50 | a move keeps every extent, and the moved box contains exactly the moved points |
| Aabb.MoveInverse | mc-cpp/src/phys/AABB.cpp:48-50 | moving back by the opposite motion restores the box |
| Aabb.IntersectsSymmetric | mc-cpp/src/phys/AABB.cpp:52-62 | the strict test is symmetric and implies the inclusive one |
| Aabb.IntersectsMeansCommonPoint | mc-cpp/src/phys/AABB.cpp:52-68 | two boxes with extent intersect exactly when some point is contained in both |
| Aabb.IntersectsMoved | mc-cpp/src/phys/AABB.cpp:48-56 | moving both boxes alike does not change whether they intersect |
| Aabb.TouchingDoNotIntersect | mc-cpp/src/phys/AABB.cpp:52-62 | a box and its copy moved face to face do not intersect, and do touch inclusively exactly when their other extents are not negative |
| Aabb.Clip | mc-cpp/src/phys/AABB.cpp:74-81 | the clipped motion keeps the sign of the motion and never grows it; motion towards the box stops at its face; any other motion is returned unchanged |
| Aabb.ClipXCollide | mc-cpp/src/phys/AABB.cpp:70-83 | without overlap in y and z the motion is returned unchanged; otherwise it keeps its sign and never grows |
| Aabb.ClipYCollide | mc-cpp/src/phys/AABB.cpp:85-98 | without overlap in x and z the motion is returned unchanged; otherwise it keeps its sign and never grows |
| Aabb.ClipZCollide | mc-cpp/src/phys/AABB.cpp:100-113 | without overlap in x and y the motion is returned unchanged; otherwise it keeps its sign and never grows |
| Aabb.ClipXKeepsApart | mc-cpp/src/phys/AABB.cpp:70-83 | a box apart from this one stays apart after the clipped x motion, which is the whole motion or ends face to face |
| Aabb.ClipYKeepsApart | mc-cpp/src/phys/AABB.cpp:85-98 | a box apart from this one stays apart after the clipped y motion, which is the whole motion or ends face to face |
| Aabb.ClipZKeepsApart | mc-cpp/src/phys/AABB.cpp:100-113 | a box apart from this one stays apart after the clipped z motion, which is the whole motion or ends face to face |
| Aabb.PoolWraps | mc-cpp/src/phys/AABB.cpp:193-199 | from a reset pool, call n writes slot n mod 1000, so a returned box survives the next 999 calls |
| Aabb.NextRemainder | mc-cpp/src/phys/AABB.cpp:194-198 | counting one further steps the slot up or wraps it to 0 |
| Aabb.IndexAfterLast | mc-cpp/src/phys/AABB.cpp:193-199 | after one more call the index is one past the slot that call wrote |
| Aabb.Pool.constructor | mc-cpp/src/phys/AABB.cpp:7-10 | 1000 zero boxes and index 0 |
| Aabb.Pool.NewTemp | mc-cpp/src/phys/AABB.cpp:193-199 | the slot written is the index, or 0 once all 1000 slots are used; only that slot changes, to the given box; the index becomes one past it |
| Aabb.Pool.ResetPool | mc-cpp/src/phys/AABB.cpp:201-203 | the index returns to 0 and the boxes are kept |
| BinaryHeap.RootIsMin | mc-cpp/include/pathfinder/BinaryHeap.hpp:33-35 | in a heap-ordered vector the root is no costlier than any node |
| BinaryHeap.Shift | mc-cpp/include/pathfinder/BinaryHeap.hpp:81-82 | moving a node into the hole and setting its index keeps every other position indexed and moves the hole to where the node came from |
| BinaryHeap.Attach | mc-cpp/include/pathfinder/BinaryHeap.hpp:20-21 | after the push and the index write, the heap is ordered everywhere except possibly on the edge into the new last node |
| BinaryHeap.Unlink | mc-cpp/include/pathfinder/BinaryHeap.hpp:49 | the popped node's index becomes -1 and the stored nodes' indices and costs are untouched |
| BinaryHeap.CheaperChild | mc-cpp/include/pathfinder/BinaryHeap.hpp:96-117 | the child the hole moves to is the left one or an existing right one, and is no costlier than either child |
| BinaryHeap.CostsAre | mc-cpp/include/pathfinder/BinaryHeap.hpp:72-122 | the cost vector is fixed position by position by the nodes' costs |
| BinaryHeap.InHole | mc-cpp/include/pathfinder/BinaryHeap.hpp:72-122 | outside the hole, every node of a sifted heap was already stored |
| BinaryHeap.BinaryHeap.constructor | mc-cpp/include/pathfinder/BinaryHeap.hpp:11-13 | a new heap is empty and valid |
| BinaryHeap.BinaryHeap.UpHeap | mc-cpp/include/pathfinder/BinaryHeap.hpp:72-88 | a node that may be too cheap for its parent is moved up until heap order and every back-index hold again; the stored nodes are the same multiset |
| BinaryHeap.BinaryHeap.DownHeap | mc-cpp/include/pathfinder/BinaryHeap.hpp:90-122 | a node that may be too costly for its children is moved down until heap order and every back-index hold again; the stored nodes are the same multiset |
| BinaryHeap.BinaryHeap.Insert | mc-cpp/include/pathfinder/BinaryHeap.hpp:15-24 | refused exactly when the node is already in a heap, changing nothing then; otherwise the node is added, ordered and indexed, and nothing else is added |
| BinaryHeap.BinaryHeap.Clear | mc-cpp/include/pathfinder/BinaryHeap.hpp:26-31 | the heap is empty and every node it held has index -1 |
| BinaryHeap.BinaryHeap.Peek | mc-cpp/include/pathfinder/BinaryHeap.hpp:33-35 | null exactly when empty; otherwise the root, which is no costlier than any stored node |
| BinaryHeap.BinaryHeap.Pop | mc-cpp/include/pathfinder/BinaryHeap.hpp:37-51 | null on an empty heap; otherwise a cheapest node, now with index -1 and no longer stored, and the rest stay ordered and indexed |
| BinaryHeap.BinaryHeap.RemoveRoot | mc-cpp/include/pathfinder/BinaryHeap.hpp:40-47 | the root leaves, every other node stays, and order and indices are restored |
| BinaryHeap.BinaryHeap.ChangeCost | mc-cpp/include/pathfinder/BinaryHeap.hpp:53-61 | the node's cost becomes the new one and order and indices are restored over the same nodes |
| BinaryHeap.BinaryHeap.IsEmpty | mc-cpp/include/pathfinder/BinaryHeap.hpp:63-65 | true exactly when no node is stored |
| BinaryHeap.BinaryHeap.Size | mc-cpp/include/pathfinder/BinaryHeap.hpp:67-69 | the number of stored nodes |
| BinaryHeap.ToRoot | mc-cpp/include/pathfinder/BinaryHeap.hpp:41-43 | after the last node is copied to the root and the vector shrinks, every position is indexed, the old root is gone and every edge below the root is still ordered |
| BinaryHeap.UpStep | mc-cpp/include/pathfinder/BinaryHeap.hpp:76-84 | one step up moves the parent's cost into the hole, and order holds except on the edge into the parent |
| BinaryHeap.SwapHole | mc-cpp/include/pathfinder/BinaryHeap.hpp:81-86 | moving the hole keeps the multiset of stored nodes |
| BinaryHeap.UpFinish | mc-cpp/include/pathfinder/BinaryHeap.hpp:79-87 | the node settles where its parent is no costlier, and the heap is ordered |
| BinaryHeap.DownStep | mc-cpp/include/pathfinder/BinaryHeap.hpp:96-117 | one step down moves the cheaper child's cost into the hole, and order holds except below that child |
| BinaryHeap.DownFinish | mc-cpp/include/pathfinder/BinaryHeap.hpp:108-121 | the node settles where no child is cheaper, and the heap is ordered |
| BinaryHeap.Appended | mc-cpp/include/pathfinder/BinaryHeap.hpp:20-22 | a node appended to a heap breaks at most the edge into it |
| BinaryHeap.PopMultiset | mc-cpp/include/pathfinder/BinaryHeap.hpp:40-43 | moving the last node to the root and dropping the last position keeps every node but the root |
| BinaryHeap.PopShape | mc-cpp/include/pathfinder/BinaryHeap.hpp:41-46 | after that move only the edges out of the root can be out of order |
| BinaryHeap.Lowered | mc-cpp/include/pathfinder/BinaryHeap.hpp:56-57 | lowering a cost breaks at most the edge into it |
| BinaryHeap.Raised | mc-cpp/include/pathfinder/BinaryHeap.hpp:58-59 | raising a cost breaks at most the edges out of it |
| ChatGui.WidthAtMostNine | src/main/java/net/minecraft/client/gui/Gui.java:357-359 | with glyphs 1 to 9 pixels wide, a line's width is at most 9 per character, so a line over 320 has at least two characters |
| ChatGui.CutFrom | src/main/java/net/minecraft/client/gui/Gui.java:358-360 | the cut only grows, and it stops below the length only where the next longer prefix is over 320 wide |
| ChatGui.CutFits | src/main/java/net/minecraft/client/gui/Gui.java:359 | every prefix the cut loop accepts fits in 320 pixels |
| ChatGui.FirstPiece | src/main/java/net/minecraft/client/gui/Gui.java:357-363 | the first piece of an over-wide line is a non-empty proper prefix that fits |
| ChatGui.SplitStep | src/main/java/net/minecraft/client/gui/Gui.java:357-364 | an over-wide line's pieces are its first piece, stored as is, followed by the pieces of the rest |
| ChatGui.PiecesConcat | src/main/java/net/minecraft/client/gui/Gui.java:356-366 | wrapping loses no text: the pieces put back together are the line |
| ChatGui.PiecesFit | src/main/java/net/minecraft/client/gui/Gui.java:356-366 | every stored piece is at most 320 pixels wide |
| ChatGui.Trim | src/main/java/net/minecraft/client/gui/Gui.java:368-370 | at most 50 entries remain, taken from the front; a list of 50 or fewer is kept as is, and a non-empty list stays non-empty |
| ChatGui.Gui.constructor | src/main/java/net/minecraft/client/gui/Gui.java:22-28 | no messages, tick count 0, no now-playing text and timer 0 |
| ChatGui.Gui.AddMessage | src/main/java/net/minecraft/client/gui/Gui.java:356-372 | the list becomes the old one with each piece pushed onto the front and trimmed to 50 after each push; the timers and the now-playing text are kept |
| ChatGui.Gui.FindCut | src/main/java/net/minecraft/client/gui/Gui.java:358-360 | the loop finds the longest prefix that fits, at least one character and shorter than the line |
| ChatGui.Gui.Tick | src/main/java/net/minecraft/client/gui/Gui.java:343-354 | the now-playing timer counts down to 0 and never goes below it, the tick counter and every message's age go up by one, and the messages keep their text and order |
| ChatGui.Gui.SetNowPlaying | src/main/java/net/minecraft/client/gui/Gui.java:374-377 | the text becomes "Now playing: " and the name, shown for 60 ticks; the messages and tick counter are kept |
| ChatGui.LoopStep | src/main/java/net/minecraft/client/gui/Gui.java:357-364 | each round of the outer loop keeps "pieces stored so far, then the pieces of what is left" equal to the pieces of the whole line |
| ChatGui.LoopExit | src/main/java/net/minecraft/client/gui/Gui.java:357-366 | when what is left fits, it is the last piece |
| ChatGui.PushOne | src/main/java/net/minecraft/client/gui/Gui.java:362-370 | pushing one more piece extends the pushed list by that piece |
| ChatGui.PushedAppend | src/main/java/net/minecraft/client/gui/Gui.java:362-370 | pushing a then b is pushing a + b |
| ChatGui.PushedBound | src/main/java/net/minecraft/client/gui/Gui.java:366-370 | after at least one piece, between 1 and 50 messages remain |
| ChatGui.NewestFirst | src/main/java/net/minecraft/client/gui/Gui.java:366 | the last piece stored is at index 0, with age 0 |
| ChunkCache.HashLowBits | src/main/java/net/minecraft/client/multiplayer/MultiPlayerChunkCache.java:93-95 | the low 16 bits of the hash are the low 16 bits of z |
| ChunkCache.HashInjectiveInZ | src/main/java/net/minecraft/client/multiplayer/MultiPlayerChunkCache.java:93-95 | two positions in the same column x whose z differ as 32-bit ints never share a hash |
| ChunkCache.HashCollides | src/main/java/net/minecraft/client/multiplayer/MultiPlayerChunkCache.java:93-95 | across columns the hash is not injective: positions (1, 0) and (0, 65536) both hash to 0x10000 |
| ChunkCache.LevelChunk.constructor | src/main/java/net/minecraft/client/multiplayer/MultiPlayerChunkCache.java:43 | a chunk at (x, z), not yet loaded |
| ChunkCache.LevelChunk.Unload | src/main/java/net/minecraft/client/multiplayer/MultiPlayerChunkCache.java:33 | the chunk is no longer loaded |
| ChunkCache.RemoveFirst | src/main/java/net/minecraft/client/multiplayer/MultiPlayerChunkCache.java:37 | the list without the first occurrence of the chunk: one entry fewer when present, the same list when absent |
| ChunkCache.MultiPlayerChunkCache.constructor | src/main/java/net/minecraft/client/multiplayer/MultiPlayerChunkCache.java:15-23 | a fresh empty chunk, no positions and an empty chunk list |
| ChunkCache.MultiPlayerChunkCache.GetChunk | src/main/java/net/minecraft/client/multiplayer/MultiPlayerChunkCache.java:50-54 | the chunk stored at the position, or the shared empty chunk when none is |
| ChunkCache.MultiPlayerChunkCache.Create | src/main/java/net/minecraft/client/multiplayer/MultiPlayerChunkCache.java:40-48 | a fresh loaded chunk at (x, z) is stored under its position, replacing any earlier one, and is what hasChunk and getChunk then see; the chunk list is untouched |
| ChunkCache.MultiPlayerChunkCache.Drop | src/main/java/net/minecraft/client/multiplayer/MultiPlayerChunkCache.java:30-38 | the position is forgotten, so hasChunk is false; the chunk it held is unloaded and its first occurrence leaves the chunk list |
| ChunkSnapshot.IndexInRange | mc-cpp/include/renderer/ChunkSnapshot.hpp:33-39 | a cell with local coordinates -1..16 maps into [0, 5832), and decoding the slot as the level's indexing on an 18-cube gives back the shifted coordinates |
| ChunkSnapshot.IndexInjective | mc-cpp/include/renderer/ChunkSnapshot.hpp:33-39 | two snapshot cells share a slot exactly when they are the same cell |
| ChunkSnapshot.ChunkSnapshot.constructor | mc-cpp/src/renderer/ChunkSnapshot.cpp:7-14 | every cell reads tile 0, sky light 15 and block light 0, at base (0, 0, 0) |
| ChunkSnapshot.ChunkSnapshot.IsTransparent | mc-cpp/src/renderer/ChunkSnapshot.cpp:78-84 | air (including every cell outside the snapshot) is transparent; any other tile is as the tile table says |
| ChunkSnapshot.ChunkSnapshot.Capture | mc-cpp/src/renderer/ChunkSnapshot.cpp:16-48 | the base becomes the chunk corner, and every snapshot cell reads the level's tile, sky light and block light at its world cell; cells outside the level read as air with sky light 15 and block light 0 |
| ChunkSnapshot.ChunkSnapshot.CaptureCell | mc-cpp/src/renderer/ChunkSnapshot.cpp:27-44 | one more cell, the next in index order, takes its world cell's values |
| FontCpp.Lines | mc-cpp/src/gui/Font.cpp:106-111 | a text has at least one line, possibly empty |
| FontCpp.Exceptions | mc-cpp/src/gui/Font.cpp:20-37 | written over a table of sixes, the exceptions give the default table: space 4; the narrow punctuation, i, l and I; @ and ~ 7 |
| FontCpp.MaxLineWidth | mc-cpp/src/gui/Font.cpp:108-115 | the widest line: at least every line's width, reached by some line when positive, and 0 for none |
| FontCpp.EmptyTextWidth | mc-cpp/src/gui/Font.cpp:102-116 | the empty string is 0 wide |
| FontCpp.SingleLine | mc-cpp/src/gui/Font.cpp:102-116 | a text without newlines is one line, as wide as its characters' widths plus one each |
| FontCpp.LineWidthNonNegative | mc-cpp/src/gui/Font.cpp:112 | with non-negative widths a line is at least one pixel per character wide |
| FontCpp.LinesStep | mc-cpp/src/gui/Font.cpp:106-113 | one more character: a newline closes the last line, which then competes for the widest, and opens an empty one; any other character widens the last line by its width plus one |
| FontCpp.ShadowMatchesJava | mc-cpp/src/gui/Font.cpp:87-91 | the port's shadow colour, alpha kept and rgb masked and shifted down two places, is the Java client's darkened colour |
| FontCpp.Font.constructor | mc-cpp/src/gui/Font.cpp:7-12 | the width table is the default table |
| FontCpp.Font.LoadCharWidths | mc-cpp/src/gui/Font.cpp:14-38 | every entry is 6 except the listed exceptions |
| FontCpp.Font.GetWidth | mc-cpp/src/gui/Font.cpp:102-116 | the loop returns the width of the widest line, each character counting its width plus one, and it is not negative |
| FontJava.IndexOf | src/main/java/net/minecraft/client/gui/Font.java:161-189 | the first index of the character, -1 exactly when it is absent |
| FontJava.CellInImage | src/main/java/net/minecraft/client/gui/Font.java:33-44 | every pixel the width scan reads lies in the image |
| FontJava.RightmostInk | src/main/java/net/minecraft/client/gui/Font.java:37-53 | the rightmost inked column at or left of x, or -1: every column right of it is blank |
| FontJava.ScanColumn | src/main/java/net/minecraft/client/gui/Font.java:40-48 | the row scan reports an empty column exactly when none of its 8 pixels has a non-zero blue byte |
| FontJava.MeasureGlyphs | src/main/java/net/minecraft/client/gui/Font.java:33-60 | every glyph's width is two more than its rightmost inked column, between 1 and 9, and space is 4 |
| FontJava.SanitizeOnlyLetters | src/main/java/net/minecraft/client/gui/Font.java:200-212 | sanitized text holds only acceptable letters and never the escape (223) |
| FontJava.WidthAppend | src/main/java/net/minecraft/client/gui/Font.java:179-198 | without an escape in the left part, widths add over concatenation |
| FontJava.SanitizeKeepsWidth | src/main/java/net/minecraft/client/gui/Font.java:179-212 | sanitizing never changes a string's width |
| FontJava.SanitizeFixesLetters | src/main/java/net/minecraft/client/gui/Font.java:200-212 | a string of acceptable letters without escapes is its own sanitized form |
| FontJava.SanitizeIdempotent | src/main/java/net/minecraft/client/gui/Font.java:200-212 | sanitizing twice is sanitizing once |
| FontJava.DarkenAlpha | src/main/java/net/minecraft/client/gui/Font.java:126-130 | darkening keeps alpha |
| FontJava.DarkenRed | src/main/java/net/minecraft/client/gui/Font.java:126-130 | darkening quarters red |
| FontJava.DarkenGreen | src/main/java/net/minecraft/client/gui/Font.java:126-130 | darkening quarters green |
| FontJava.DarkenBlue | src/main/java/net/minecraft/client/gui/Font.java:126-130 | darkening quarters blue |
| FontJava.QuarterByte | src/main/java/net/minecraft/client/gui/Font.java:128 | shifting a byte down two places quarters it |
| FontJava.TrailingCodeFails | src/main/java/net/minecraft/client/gui/Font.java:146-159 | as written, drawing a string that ends in an escape pair reads past its end |
| FontJava.GlyphsAppend | src/main/java/net/minecraft/client/gui/Font.java:146-171 | the glyph calls of a concatenation are the glyph calls of its parts |
| FontJava.GlyphIndicesAppend | src/main/java/net/minecraft/client/gui/Font.java:161-164 | glyph indices distribute over concatenation |
| FontJava.DrawGlyphsAreSanitized | src/main/java/net/minecraft/client/gui/Font.java:146-171 | when the escape is not an acceptable letter, the corrected drawing emits exactly one glyph per character of the sanitized string, in order |
| FontJava.DrawGlyphsCode | src/main/java/net/minecraft/client/gui/Font.java:147-159 | an escape pair emits no glyph |
| FontJava.DrawGlyphsChar | src/main/java/net/minecraft/client/gui/Font.java:161-164 | any other character emits its glyph exactly when it is acceptable |
| FontJava.DrawCallsAgree | src/main/java/net/minecraft/client/gui/Font.java:146-171 | wherever the drawing as written does not fail, the corrected drawing makes the same calls |
| FontJava.Font.constructor | src/main/java/net/minecraft/client/gui/Font.java:20-60 | every entry of the width table is the measured width of its glyph |
| FontJava.Font.Width | src/main/java/net/minecraft/client/gui/Font.java:179-198 | 0 for null; otherwise the sum of the glyph widths of the acceptable letters outside escape pairs, never negative |
| FontJava.Font.Sanitize | src/main/java/net/minecraft/client/gui/Font.java:200-212 | the acceptable letters outside escape pairs, in order |
| FontJava.WidthNonNegative | src/main/java/net/minecraft/client/gui/Font.java:179-198 | with positive glyph widths, no string has negative width |
| FontJava.HexIndex | src/main/java/net/minecraft/client/gui/Font.java:147 | `indexOf` in "0123456789abcdef" finds a lower-case hex digit at its value and nothing else |
| FontJava.ColourCode | src/main/java/net/minecraft/client/gui/Font.java:147-152 | a hex digit of either case selects the colour list of its value, any other character selects 15 (white), each shifted by 16 for the shadow pass |
| GuiScale.Gui.constructor | mc-cpp/src/gui/Gui.cpp:20-33 | the window starts at 854x480, scaled to the same size, with scale 1 and tick count 0 |
| GuiScale.Gui.Tick | mc-cpp/src/gui/Gui.cpp:39-41 | the tick count goes up by one and nothing else changes |
| GuiScale.Gui.CalculateScale | mc-cpp/src/gui/Gui.cpp:43-68 | setting 0 picks the largest scale up to 4 at which the window still holds 320x240; a positive setting is stepped down to the largest scale not above it that fits, or to 1; a negative setting is kept; any scale above 1 fits; the scaled size is the window size divided by the scale, truncating |
| HitResults.Miss | mc-cpp/src/phys/HitResult.cpp:5-6 | a miss, at the origin, facing up, with no entity |
| HitResults.TileHit | mc-cpp/src/phys/HitResult.cpp:8-9 | a tile hit recording the block, the face and the location, with no entity |
| HitResults.EntityHit | mc-cpp/src/phys/HitResult.cpp:11-12 | an entity hit on that entity, at the origin, facing up |
| HitResults.OppositeInvolution | mc-cpp/src/phys/HitResult.cpp:26-36 | the opposite of the opposite is the face itself, and no face is its own opposite |
| HitResults.OppositeNegatesVector | mc-cpp/src/phys/HitResult.cpp:14-36 | the opposite face's vector is the negated vector |
| HitResults.DirectionVecUnit | mc-cpp/src/phys/HitResult.cpp:14-24 | every face vector is a unit vector along one axis |
| HitResults.DirectionVecInjective | mc-cpp/src/phys/HitResult.cpp:14-24 | distinct faces have distinct vectors |
| ImprovedNoise.Iota | src/main/java/net/minecraft/world/level/levelgen/synth/ImprovedNoise.java:22-23 | the identity table 0..n-1 |
| ImprovedNoise.PermutationValues | src/main/java/net/minecraft/world/level/levelgen/synth/ImprovedNoise.java:22-31 | every entry of a permutation of 0..n-1 lies in [0, n) |
| ImprovedNoise.Swap | src/main/java/net/minecraft/world/level/levelgen/synth/ImprovedNoise.java:27-29 | entries i and j trade places, nothing else changes, and the multiset of entries is kept |
| ImprovedNoise.ShuffledIsPermutation | src/main/java/net/minecraft/world/level/levelgen/synth/ImprovedNoise.java:22-31 | every stage of the shuffle is a permutation of 0..255 |
| ImprovedNoise.TableHashes | src/main/java/net/minecraft/world/level/levelgen/synth/ImprovedNoise.java:54-68 | in a complete table every entry lies in [0, 256), so every lookup the noise makes (at most 255 + 256) stays inside the 512 entries |
| ImprovedNoise.Fade | src/main/java/net/minecraft/world/level/levelgen/synth/ImprovedNoise.java:60-62 | the fade curve fixes 0 and 1 and keeps [0, 1] within [0, 1] |
| ImprovedNoise.FadeBounds | src/main/java/net/minecraft/world/level/levelgen/synth/ImprovedNoise.java:60-62 | the fade polynomial maps [0, 1] into [0, 1] |
| ImprovedNoise.LerpBounded | src/main/java/net/minecraft/world/level/levelgen/synth/ImprovedNoise.java:72-74 | interpolating between values in [-m, m] with t in [0, 1] stays in [-m, m] |
| ImprovedNoise.Grad | src/main/java/net/minecraft/world/level/levelgen/synth/ImprovedNoise.java:83-88 | with coordinates in [-1, 1], a gradient lies in [-2, 2] |
| ImprovedNoise.GradLowBits | src/main/java/net/minecraft/world/level/levelgen/synth/ImprovedNoise.java:84 | only the low four bits of the hash matter |
| ImprovedNoise.Grad2 | src/main/java/net/minecraft/world/level/levelgen/synth/ImprovedNoise.java:76-81 | the 2-D gradient is the 3-D gradient with y = 0 |
| ImprovedNoise.Edges | src/main/java/net/minecraft/world/level/levelgen/synth/ImprovedNoise.java:63-69 | with fractions in [0, 1], each x-interpolated edge lies in [-2, 2] |
| ImprovedNoise.Sample | src/main/java/net/minecraft/world/level/levelgen/synth/ImprovedNoise.java:63-69 | with fractions in [0, 1], the blended noise lies in [-2, 2] |
| ImprovedNoise.Cell | src/main/java/net/minecraft/world/level/levelgen/synth/ImprovedNoise.java:39-56 | the lattice coordinate masked by & 255 lies in [0, 256) |
| ImprovedNoise.Frac | src/main/java/net/minecraft/world/level/levelgen/synth/ImprovedNoise.java:57-59 | the fraction within the cell lies in [0, 1) |
| ImprovedNoise.NoiseAt | src/main/java/net/minecraft/world/level/levelgen/synth/ImprovedNoise.java:35-70 | gradient noise lies in [-2, 2] |
| ImprovedNoise.Flat | src/main/java/net/minecraft/world/level/levelgen/synth/ImprovedNoise.java:130-136 | the 2-D branch's value is the cube at lattice y 0 sampled at y 0 |
| ImprovedNoise.Slot | src/main/java/net/minecraft/world/level/levelgen/synth/ImprovedNoise.java:137-206 | the running counter's entry for sample (i, j, k) is (i * sizeZ + k) * sizeY + j, and every sample of the region has its own entry below the region's size |
| ImprovedNoise.NextRow | src/main/java/net/minecraft/world/level/levelgen/synth/ImprovedNoise.java:179-206 | a finished y row moves the counter to the next z |
| ImprovedNoise.NextLayer | src/main/java/net/minecraft/world/level/levelgen/synth/ImprovedNoise.java:168-206 | a finished z layer moves the counter to the next x |
| ImprovedNoise.LastLayer | src/main/java/net/minecraft/world/level/levelgen/synth/ImprovedNoise.java:157-206 | the last layer ends at the size of the region |
| ImprovedNoise.CacheStart | src/main/java/net/minecraft/world/level/levelgen/synth/ImprovedNoise.java:189-201 | the sample whose cached edges sample j reuses is at or before j, in the same masked lattice y cell, and starts a run of that cell |
| ImprovedNoise.FlatIgnoresY | src/main/java/net/minecraft/world/level/levelgen/synth/ImprovedNoise.java:99-140 | with a single row of y, no sample depends on the region's y origin nor on its y scale |
| ImprovedNoise.AddedOver | src/main/java/net/minecraft/world/level/levelgen/synth/ImprovedNoise.java:98-213 | the sample function agrees with what add computes at every sample |
| ImprovedNoise.AddedIsNoise | src/main/java/net/minecraft/world/level/levelgen/synth/ImprovedNoise.java:130-205 | in the 2-D branch every sample is gradient noise in the plane y = 0; in the 3-D branch the first sample of each lattice cell is gradient noise at its point |
| ImprovedNoise.AddedCached | src/main/java/net/minecraft/world/level/levelgen/synth/ImprovedNoise.java:189-205 | blending the cached edges along y and z gives what add computes at every sample |
| ImprovedNoise.FilledAt | src/main/java/net/minecraft/world/level/levelgen/synth/ImprovedNoise.java:138-207 | once add is done, every sample's entry holds its earlier value plus the sample divided by freq |
| ImprovedNoise.FilledStep | src/main/java/net/minecraft/world/level/levelgen/synth/ImprovedNoise.java:138-207 | writing one sample at its entry extends the finished prefix by one, because distinct samples have distinct entries |
| ImprovedNoise.ImprovedNoise.constructor | src/main/java/net/minecraft/world/level/levelgen/synth/ImprovedNoise.java:16-33 | the offsets are the three double draws times 256, each in [0, 256); the lower half of the table is the shuffled identity and the upper half a copy |
| ImprovedNoise.ImprovedNoise.Shuffle | src/main/java/net/minecraft/world/level/levelgen/synth/ImprovedNoise.java:25-31 | the loop leaves the lower half as all 256 exchange steps and the upper half a copy of it |
| ImprovedNoise.ImprovedNoise.Noise | src/main/java/net/minecraft/world/level/levelgen/synth/ImprovedNoise.java:35-70 | noise at the point moved by the offsets lies in [-2, 2] |
| ImprovedNoise.ImprovedNoise.GetValue2 | src/main/java/net/minecraft/world/level/levelgen/synth/ImprovedNoise.java:90-92 | the 2-D value is the noise in the plane z = 0 |
| ImprovedNoise.ImprovedNoise.Add | src/main/java/net/minecraft/world/level/levelgen/synth/ImprovedNoise.java:98-213 | every sample's entry gains its value divided by freq, and every entry past the region is untouched |
| ImprovedNoise.ImprovedNoise.AddFlat | src/main/java/net/minecraft/world/level/levelgen/synth/ImprovedNoise.java:99-141 | the 2-D branch: every sample's entry gains its value divided by freq, and nothing else changes |
| ImprovedNoise.ImprovedNoise.AddFull | src/main/java/net/minecraft/world/level/levelgen/synth/ImprovedNoise.java:142-212 | the 3-D branch with its edge cache: every sample's entry gains its value divided by freq, and nothing else changes |
| ImprovedNoise.ImprovedNoise.Accumulate | src/main/java/net/minecraft/world/level/levelgen/synth/ImprovedNoise.java:206-207 | one write extends the finished prefix by one |
| ImprovedNoise.ImprovedNoise.ShuffleStep | src/main/java/net/minecraft/world/level/levelgen/synth/ImprovedNoise.java:26-30 | entries i and k trade places, entry i + 256 becomes the new entry i, and nothing else changes |
| Inventory.StackAdd | mc-cpp/include/item/Inventory.hpp:25-31 | kind kept; new count plus leftover is old count plus amount; a stack of at most 64 stays at most 64 and, for a non-negative amount, only grows; nothing is left exactly when the amount fits; any leftover means the stack is full |
| Inventory.StackRemove | mc-cpp/include/item/Inventory.hpp:34-43 | takes min(amount, count); a stack left with no items becomes the empty stack, otherwise only its count drops; taken plus remaining is the old count |
| Inventory.SumUpdate | mc-cpp/src/item/Inventory.cpp:46-68 | replacing one slot changes the item total of a range by exactly that slot's change |
| Inventory.StackPass | mc-cpp/src/item/Inventory.cpp:48-54 | the stacking loop changes only the slots it passes and no slot's kind, and it stops early only with nothing left |
| Inventory.FillPass | mc-cpp/src/item/Inventory.cpp:57-65 | the filling loop changes only the slots it passes, each to what it was or, from empty, to a stack of the item |
| Inventory.StackPassConserves | mc-cpp/src/item/Inventory.cpp:48-54 | the stacking loop conserves items, keeps every stack in 0..64, and when it runs to the end every stack of that kind it passed is full |
| Inventory.FillPassConserves | mc-cpp/src/item/Inventory.cpp:57-65 | the filling loop conserves items and keeps every stack in 0..64 |
| Inventory.AddConserves | mc-cpp/src/item/Inventory.cpp:46-68 | add places count minus leftover items in slots 0..35, never more than given; it reports success exactly when nothing is left; every stack stays in 0..64; the armour slots are untouched |
| Inventory.AddStacksFirst | mc-cpp/src/item/Inventory.cpp:46-65 | when an empty slot receives the item, every stack of that kind in 0..35 was already full |
| Inventory.FirstEmptyHotbar | mc-cpp/src/item/Inventory.cpp:81-86 | the first empty hotbar slot at or after i, or -1 when every one is occupied |
| Inventory.EmptySlots | mc-cpp/src/item/Inventory.cpp:6-20 | 40 empty, well-kept slots |
| Inventory.HotbarOverfills | mc-cpp/src/item/Inventory.cpp:81-84 | as written, adding 100 items to an empty hotbar reports success and leaves 100 items in slot 0, over the stack size of 64 |
| Inventory.NoKindNoChange | mc-cpp/src/item/Inventory.cpp:48-54 | with no stack of the kind in range, the stacking loop changes nothing |
| Inventory.AddToHotbarKeepsStacks | mc-cpp/src/item/Inventory.cpp:70-90 | the corrected addToHotbar keeps every stack in 0..64, never places more items than given, and touches no armour slot |
| Inventory.HotbarStackStep | mc-cpp/src/item/Inventory.cpp:72-78 | the hotbar stacking loop keeps the main slots and conserves items |
| Inventory.HotbarFillStep | mc-cpp/src/item/Inventory.cpp:81-86 | the hotbar filling loop keeps the main slots and conserves items |
| Inventory.SumSplit | mc-cpp/src/item/Inventory.cpp:48 | a range's total splits at any point |
| Inventory.SumSame | mc-cpp/src/item/Inventory.cpp:48 | ranges with equal slots have equal totals |
| Inventory.StackSumTail | mc-cpp/src/item/Inventory.cpp:72-78 | the hotbar stacking loop leaves the total of slots 9..35 unchanged |
| Inventory.FillSumTail | mc-cpp/src/item/Inventory.cpp:81-86 | the hotbar filling loop leaves the total of slots 9..35 unchanged |
| Inventory.FindSlot | mc-cpp/src/item/Inventory.cpp:123-130 | the first slot in 0..35 with the id, or -1 exactly when none has it |
| Inventory.Swap | mc-cpp/src/item/Inventory.cpp:136-141 | two valid slots trade stacks and nothing else changes; any invalid slot changes nothing |
| Inventory.SwapInvolution | mc-cpp/src/item/Inventory.cpp:136-141 | swapping twice restores the inventory |
| Inventory.SwapPermutes | mc-cpp/src/item/Inventory.cpp:136-141 | swapping keeps the multiset of stacks |
| Inventory.RemoveSpec | mc-cpp/src/item/Inventory.cpp:107-120 | a negative count or one covering the stack takes it all and leaves the slot empty; otherwise count items split off with the same kind |
| Inventory.RemoveConserves | mc-cpp/src/item/Inventory.cpp:102-121 | the stack taken and the stack left hold exactly what the slot held |
| Inventory.Inventory.constructor | mc-cpp/src/item/Inventory.cpp:6-20 | the hotbar holds nine full stacks of stone, cobblestone, dirt, grass, planks, logs, sandstone, bricks and obsidian; every other slot is empty; slot 0 is selected |
| Inventory.Inventory.GetItem | mc-cpp/src/item/Inventory.cpp:22-36 | the slot's stack, or an empty stack out of range |
| Inventory.Inventory.GetSelected | mc-cpp/src/item/Inventory.cpp:38-44 | the stack in the selected slot |
| Inventory.Inventory.GetArmor | mc-cpp/src/item/Inventory.cpp:143-145 | armour slot i is slot 36 + i |
| Inventory.Inventory.SetItem | mc-cpp/src/item/Inventory.cpp:92-96 | a valid slot takes the stack; any other slot number changes nothing |
| Inventory.Inventory.FindSlotWithItem | mc-cpp/src/item/Inventory.cpp:123-130 | the loop finds the first slot in 0..35 with the id, or -1 |
| Inventory.Inventory.HasItem | mc-cpp/src/item/Inventory.cpp:132-134 | true exactly when some slot in 0..35 holds the id |
| Inventory.Inventory.SwapSlots | mc-cpp/src/item/Inventory.cpp:136-141 | the slots become the swapped sequence |
| Inventory.Inventory.RemoveItem | mc-cpp/src/item/Inventory.cpp:102-121 | an invalid or empty slot gives an empty stack and changes nothing; otherwise the slot and the returned stack are as RemoveSpec says |
| Inventory.Inventory.StackLoop | mc-cpp/src/item/Inventory.cpp:48-78 | the loop leaves the slots, the count and the early-return flag that the stacking loop specifies |
| Inventory.Inventory.FillLoop | mc-cpp/src/item/Inventory.cpp:57-65 | the loop leaves the slots and count that the filling loop specifies |
| Inventory.Inventory.Add | mc-cpp/src/item/Inventory.cpp:46-68 | the slots and the result become those of add's specification |
| Inventory.Inventory.AddToHotbar | mc-cpp/src/item/Inventory.cpp:70-90 | the slots and the result become those of the corrected addToHotbar, each empty hotbar slot taking at most a full stack |
| InventoryScreen.HitAreasDisjoint | mc-cpp/src/gui/InventoryScreen.cpp:349-389 | the widened 18-pixel hit areas of the 40 slots do not overlap, so at most one slot is under the mouse |
| InventoryScreen.MergeChangesDamage | mc-cpp/src/gui/InventoryScreen.cpp:415-424 | as written, one black wool clicked onto one white wool becomes two white wool: the black wool is gone |
| InventoryScreen.ClickKeepsKinds | mc-cpp/src/gui/InventoryScreen.cpp:397-467 | with the damage check, a click keeps the number of items of every kind held by the slot and the cursor together |
| InventoryScreen.ClickConserves | mc-cpp/src/gui/InventoryScreen.cpp:397-467 | with or without the damage check, a click neither creates nor destroys items, and the slot and the cursor stay well kept |
| InventoryScreen.LeftClick | mc-cpp/src/gui/InventoryScreen.cpp:397-432 | an empty cursor picks up the whole stack and clears the slot; a stack on the cursor goes into an empty slot, merges min(cursor, 64 - slot) into a matching non-full slot, or swaps |
| InventoryScreen.RightClick | mc-cpp/src/gui/InventoryScreen.cpp:433-466 | an empty cursor takes (count + 1) / 2 of the stack; a stack on the cursor puts exactly one item into an empty or matching non-full slot, and otherwise nothing changes |
| InventoryScreen.InventoryScreen.constructor | mc-cpp/src/gui/InventoryScreen.cpp:14-22 | no cursor stack, no source slot, and the screen at (0, 0) |
| InventoryScreen.InventoryScreen.GetSlotAtPosition | mc-cpp/src/gui/InventoryScreen.cpp:356-389 | the slot whose hit area holds the point, or -1 exactly when no slot's does |
| InventoryScreen.InventoryScreen.HandleSlotClick | mc-cpp/src/gui/InventoryScreen.cpp:391-468 | a negative slot or a missing player changes nothing; otherwise the slot and the cursor change as the corrected click says and no other slot changes |
| InventoryScreen.InventoryScreen.Removed | mc-cpp/src/gui/InventoryScreen.cpp:474-481 | with a player and a cursor stack, the stack goes through the inventory's add and the cursor empties; otherwise the inventory is unchanged |
| Level.IndexRange | mc-cpp/src/world/Level.cpp:50-58 | every in-bounds cell's `getIndex` lies inside the flat tile and light vectors |
| Level.IndexBijective | mc-cpp/src/world/Level.cpp:50-58 | `getIndex` is a bijection from in-bounds cells onto [0, width * height * depth), with `Coords` as its inverse on both sides |
| Level.CoordsInBounds | mc-cpp/src/world/Level.cpp:50-58 | the cell that any index in range names is in bounds |
| Level.IndexInjective | mc-cpp/src/world/Level.cpp:50-58 | two in-bounds cells share an index exactly when they are the same cell |
| Level.ColumnIndexRange | mc-cpp/src/world/Level.cpp:437-440 | the height-map index `z * width + x` of an in-range column lies inside the height map |
| Level.ColumnIndexInjective | mc-cpp/src/world/Level.cpp:437-440 | two in-range columns share a height-map index exactly when they are the same column |
| Level.Written | mc-cpp/src/world/Level.cpp:73 | a store into one cell changes that cell to the new tile and leaves every other cell as it was |
| Level.HeightIn | mc-cpp/src/world/Level.cpp:446-455 | the scanned height is 0 or one above a light blocker inside the scanned range, with no blocker at or above it in that range |
| Level.HeightInFrame | mc-cpp/src/world/Level.cpp:446-455 | a column's scanned height depends on that column's cells only |
| Level.SetTileHeight | mc-cpp/src/world/Level.cpp:76-86 | `setTile`'s height-map shortcut: a blocker placed above the recorded height makes the height y + 1, removing the top blocker lowers it, anything else leaves it unchanged |
| Level.RescanSkipsFloor | mc-cpp/src/world/Level.cpp:448 | as written, the rescan stops above y = 0, so a column whose only blocker is at y = 0 rescans to 0 although its true height is 1 |
| Level.ColumnRewritten | mc-cpp/src/world/Level.cpp:457 | writing one cell and storing its column's rescanned height keeps every column's recorded height correct |
| Level.HeightFollows | mc-cpp/src/world/Level.cpp:65-100 | if every recorded column height was right before `setTile`, every one is right after it, the changed column having taken the shortcut or the rescan result |
| Level.RampMonotone | mc-cpp/src/world/Level.cpp:364-381 | the brightness ramp never decreases as light increases |
| Level.SkyDarken | mc-cpp/src/world/Level.cpp:346-359 | the darkening lies in 0..11; it is 0 for a celestial value of 0 or below and 11 for 1 or above |
| Level.SkyDarkenMonotone | mc-cpp/src/world/Level.cpp:346-359 | a larger celestial value never gives a smaller darkening |
| Level.SkyBrightness | mc-cpp/src/world/Level.cpp:383-390 | the sky brightness lies between ramp entries 4 and 15 |
| Level.LightLevel | mc-cpp/src/world/Level.cpp:396-405 | the light level lies in 0..15; it is the larger of the block light and the darkened sky light |
| Level.Level.constructor | mc-cpp/src/world/Level.cpp:12-43 | a new level has the given size and tables, zero tiles, zero light and zero heights, and its height map is right |
| Level.Level.GetTile | mc-cpp/src/world/Level.cpp:60-63 | a byte-sized id: the stored tile in bounds, 0 outside |
| Level.Level.GetSkyLight | mc-cpp/src/world/Level.cpp:336-339 | sky light in 0..15; 15 outside the level |
| Level.Level.GetBlockLight | mc-cpp/src/world/Level.cpp:341-344 | block light in 0..15; 0 outside the level |
| Level.Level.GetHeightAt | mc-cpp/src/world/Level.cpp:437-440 | the recorded height of an in-range column; 0 outside |
| Level.Level.GetBrightness | mc-cpp/src/world/Level.cpp:392-408 | the ramp at the cell's light level under the current darkening; outside the level, the sky brightness |
| Level.Level.GetBrightnessForChunk | mc-cpp/src/world/Level.cpp:410-421 | the ramp at the cell's light level with no darkening |
| Level.Level.BrightnessDarkens | mc-cpp/src/world/Level.cpp:392-421 | a darker sky never makes a cell brighter, and the chunk-mesh brightness is never below the level's |
| Level.Level.SetTile | mc-cpp/src/world/Level.cpp:65-100 | returns true exactly when the cell is in bounds and held another tile; then it stores the id's low byte and the column's new height, and the height map stays right; otherwise nothing changes |
| Level.Level.UpdateHeightMap | mc-cpp/src/world/Level.cpp:442-457 | with the scan taken down to y = 0, the column's entry becomes its true height and no other entry changes |
| Level.Level.UpdateHeightMapAsWritten | mc-cpp/src/world/Level.cpp:442-457 | as written: the column's entry becomes the height found by scanning y = height-1 down to 1 only |
| Lighting.UnionLeast | mc-cpp/src/world/LightingEngine.cpp:30-35 | the merged bounding box holds both boxes and is the least box that does |
| Lighting.ExpandToContain | mc-cpp/src/world/LightingEngine.cpp:13-53 | a contained box is merged with the box unchanged; a refused merge leaves the box unchanged; an accepted merge gives the union, which holds both boxes |
| Lighting.ExpandToContainLimits | mc-cpp/src/world/LightingEngine.cpp:23-49 | a merge happens exactly when the new box is contained already or lies within a one-cell margin and the union adds at most two cells |
| Lighting.ClampBox | mc-cpp/src/world/LightingEngine.cpp:126-132 | the clamped box lies inside the level, and a box already inside is left as it is |
| Lighting.TryMergeGrows | mc-cpp/src/world/LightingEngine.cpp:141-150 | merging into one of the five newest entries keeps the queue's length and layers, only grows boxes, and leaves an entry of the layer holding the new box |
| Lighting.TryMergeInWorld | mc-cpp/src/world/LightingEngine.cpp:141-150 | merging keeps every queued box inside the level |
| Lighting.QueueAfterCovers | mc-cpp/src/world/LightingEngine.cpp:134-158 | a box over 32768 cells leaves the queue alone; otherwise an entry of its layer then holds it; the queue stays under the one-million cap and inside the level; entries only grow, or the box is appended, dropping the oldest past the cap |
| Lighting.Opacity | mc-cpp/src/world/LightingEngine.cpp:497-501 | the light a tile takes away is its `lightBlock` when it is a blocker, and 1 otherwise |
| Lighting.BlockCandidate | mc-cpp/src/world/LightingEngine.cpp:756-783 | the offered block light is 0, the neighbour's light less the opacity, or the emission; it is positive only through a non-opaque tile with light left, and never exceeds the neighbour's light less one or the emission |
| Lighting.SkyCandidate | mc-cpp/src/world/LightingEngine.cpp:786-812 | the offered sky light is positive only through a non-opaque tile with light left, and is then 15 for an open-sky cell and the neighbour's light less the opacity otherwise |
| Lighting.LightingEngine.constructor | mc-cpp/src/world/LightingEngine.cpp:56-70 | the engine is attached to the level with an empty queue |
| Lighting.LightingEngine.QueueUpdate | mc-cpp/src/world/LightingEngine.cpp:123-163 | the queue becomes the clamped box merged or appended as `QueueAfter` says, and the queue invariant is kept |
| Lighting.LightingEngine.GetBrightness | mc-cpp/src/world/LightingEngine.cpp:532-545 | the level's stored light of the layer; outside the level 15 for sky and 0 for block light; always in 0..15 |
| Lighting.LightingEngine.IsSkyLit | mc-cpp/src/world/LightingEngine.cpp:585-594 | false below the level, true above it, and otherwise whether y is at or above the column's recorded height |
| Lighting.LightingEngine.SkyLitIsOpenSky | mc-cpp/src/world/LightingEngine.cpp:585-594 | with a correct height map, a cell is sky-lit exactly when no light blocker is at or above it in its column |
| Lighting.LightingEngine.GetLightSource | mc-cpp/src/world/LightingEngine.cpp:569-583 | on the sky layer, 15 exactly when the cell is sky-lit and 0 otherwise; on the block layer, the tile's emission |
| Lighting.LightingEngine.MaxNeighbour | mc-cpp/src/world/LightingEngine.cpp:507-515 | the result is at least every face neighbour's light and is 0 or equal to one of them |
| Lighting.LightingEngine.CalculateLightAt | mc-cpp/src/world/LightingEngine.cpp:490-530 | 0 outside the level and in an opaque non-emitting tile; otherwise the larger of the cell's source and the brightest neighbour less the cell's opacity, in 0..15 |
| Lighting.LightingEngine.LightFades | mc-cpp/src/world/LightingEngine.cpp:490-530 | a computed light above the cell's own source is at most the brightest neighbour's light less one |
| Lighting.LightingEngine.SetBrightness | mc-cpp/src/world/LightingEngine.cpp:547-567 | out of bounds nothing changes; inside, the layer's cell takes the value clamped to 0..15, the other layer is untouched, and listeners are notified exactly when the stored value changed |
| Lighting.LightingEngine.PropagateBlockLightTo | mc-cpp/src/world/LightingEngine.cpp:756-784 | the cell takes `BlockCandidate` when it is more than the stored block light; sky light is untouched and no stored block light goes down |
| Lighting.LightingEngine.PropagateSkyLightTo | mc-cpp/src/world/LightingEngine.cpp:786-813 | the cell takes `SkyCandidate` when it is more than the stored sky light; block light is untouched and no stored sky light goes down |
| Mth.Trunc | mc-cpp/src/util/Mth.cpp:45 | `static_cast<int>` truncates toward zero: within one below a non-negative value and within one above a negative one |
| Mth.Floor | mc-cpp/src/util/Mth.cpp:44-47 | `floor(double)` is the greatest integer not above the value |
| Mth.Ceil | mc-cpp/src/util/Mth.cpp:49-52 | `ceil(double)` is the least integer not below the value |
| Mth.FloorCeil | mc-cpp/src/util/Mth.cpp:44-52 | floor and ceiling agree exactly on whole numbers and differ by one elsewhere |
| Mth.IntFloorDivIsFloor | mc-cpp/src/util/Mth.cpp:85-87 | for a positive divisor `intFloorDiv` is the floor of a / b: q * b <= a < (q + 1) * b |
| Mth.ClampInt | mc-cpp/src/util/Mth.cpp:58-60 | the result lies in [min, max], is the value when it is already there, and the nearer bound otherwise |
| Mth.ClampReal | mc-cpp/src/util/Mth.cpp:54-56 | the result lies in [min, max] and is the value when it is already there |
| Mth.Lerp | mc-cpp/src/util/Mth.cpp:62-68 | t = 0 gives a, t = 1 gives b, and t in [0, 1] gives a point between a and b |
| Mth.FMod | mc-cpp/src/util/Mth.cpp:71 | `fmod` by a positive y lies in [0, y) for a non-negative x and in (-y, 0] for a negative one |
| Mth.WrapDegrees | mc-cpp/src/util/Mth.cpp:70-79 | the wrapped angle lies in [-180, 180) and differs from the input by whole turns |
| Mth.WrapDegreesIdentity | mc-cpp/src/util/Mth.cpp:70-79 | an angle already in [-180, 180) is returned unchanged |
| Mth.DegreesDifference | mc-cpp/src/util/Mth.cpp:81-83 | the turn from a to b lies in [-180, 180) and reaches b from a up to whole turns |
| Path.Path.constructor | mc-cpp/include/pathfinder/Path.hpp:14-17 | `length` equals the node count, and the cursor starts at 0 |
| Path.Path.Current | mc-cpp/include/pathfinder/Path.hpp:19-24 | null exactly when the path is done; otherwise the node under the cursor |
| Path.Path.Next | mc-cpp/include/pathfinder/Path.hpp:26-28 | the cursor advances by one |
| Path.Path.Get | mc-cpp/include/pathfinder/Path.hpp:34-39 | null exactly outside [0, size); otherwise the node at that index |
| Path.CurrentIsGet | mc-cpp/include/pathfinder/Path.hpp:19-39 | `current()` is `get(pos)`, and the path is done exactly when the cursor has reached `length` |
| PathNode.PackFields | mc-cpp/include/pathfinder/Node.hpp:21-24 | bits 0-9, 10-19 and 20-31 of the packed hash give back x, y and z when they fit those fields |
| PathNode.PackInjective | mc-cpp/include/pathfinder/Node.hpp:21-24 | within those field widths, equal hashes mean equal fields |
| PathNode.NegativeXCollides | mc-cpp/include/pathfinder/Node.hpp:23 | with x = -1 the sign extension sets every bit, so blocks (-1, 1, 0) and (-1, 2, 5) share a hash and compare equal |
| PathNode.DistanceSquared | mc-cpp/include/pathfinder/Node.hpp:26-31 | the squared distance is non-negative |
| PathNode.DistanceSymmetric | mc-cpp/include/pathfinder/Node.hpp:26-31 | the distance is symmetric and is zero exactly between equal coordinates |
| PathNode.Node.constructor | mc-cpp/include/pathfinder/Node.hpp:9-24 | a new node has the given coordinates and their hash, heap index -1, zero costs, no predecessor, and is not closed |
| PathFinder.Cell | mc-cpp/src/pathfinder/PathFinder.cpp:180-193 | a block answers 0 exactly when it holds a registered solid tile, -1 for a registered liquid, 1 otherwise |
| PathFinder.ScanZMeaning | mc-cpp/src/pathfinder/PathFinder.cpp:179-195 | the innermost z scan answers 1 exactly when every block of the row lets a walker pass, and otherwise the answer of one of its blocks |
| PathFinder.ScanYMeaning | mc-cpp/src/pathfinder/PathFinder.cpp:178-196 | the same for the y-z slice at one x |
| PathFinder.FreeMeaning | mc-cpp/src/pathfinder/PathFinder.cpp:176-199 | `isFree` answers 1 exactly when every block of the box lets a walker pass; otherwise 0 or -1, the answer of some block of the box |
| PathFinder.LandDrop | mc-cpp/src/pathfinder/PathFinder.cpp:140-153 | the fall loop stops at most 3 - fallCount blocks lower, and gives up exactly when the box fits at each of the remaining heights down to a fourth block of fall |
| PathFinder.FallLimit | mc-cpp/src/pathfinder/PathFinder.cpp:127-161 | `getNode` never returns a node more than three blocks below its foothold, and returns null exactly for a foothold at height 4 or more with four free heights below it |
| PathFinder.Spots | mc-cpp/src/pathfinder/PathFinder.cpp:215 | the positions along a chain, one per node |
| PathFinder.Reverse | mc-cpp/src/pathfinder/PathFinder.cpp:212-218 | the reversed sequence: element i is element n - 1 - i of the input |
| PathFinder.MirrorsStep | mc-cpp/src/pathfinder/PathFinder.cpp:212-218 | copying the next node of the chain into the slot before the copies keeps them the reversed prefix of the chain |
| PathFinder.MirrorsWhole | mc-cpp/src/pathfinder/PathFinder.cpp:212-218 | once every node is copied, the copies' positions are the chain's positions reversed |
| PathFinder.ChainLength | mc-cpp/src/pathfinder/PathFinder.cpp:203-206 | the counting loop's length is the number of nodes from `end` along the predecessor links |
| PathFinder.ReconstructPath | mc-cpp/src/pathfinder/PathFinder.cpp:201-221 | a fresh path, cursor at 0, whose length is the number of links plus one and whose positions are the chain's reversed, start first |
| PathFinder.HashLookup | mc-cpp/src/pathfinder/PathFinder.cpp:163-168 | as written: the lookup finds a node exactly when the packed hash is a key, and returns the node stored under the hash |
| PathFinder.HashLookupAliases | mc-cpp/src/pathfinder/PathFinder.cpp:164-167 | as written: once block (-1, 1, 0) is stored, asking for block (-1, 2, 5) returns that node although it stands elsewhere |
| PathFinder.ExtendsTransitive | mc-cpp/src/pathfinder/PathFinder.cpp:163-174 | a map that keeps every entry of one that keeps every entry of a third keeps the third's entries |
| PathFinder.GrownTransitive | mc-cpp/src/pathfinder/PathFinder.cpp:163-174 | two rounds of adding only new nodes add only new nodes |
| PathFinder.Keep | mc-cpp/src/pathfinder/PathFinder.cpp:111-122 | a candidate is kept, alone, exactly when it exists, is not closed and is nearer the goal than `maxDist` |
| PathFinder.Admitted | mc-cpp/src/pathfinder/PathFinder.cpp:111-122 | at most as many neighbours as candidates, each of them a candidate, not closed and nearer the goal than `maxDist` |
| PathFinder.AdmittedFour | mc-cpp/src/pathfinder/PathFinder.cpp:111-122 | the four admissions in order make the kept list |
| PathFinder.SearchingGrown | mc-cpp/src/pathfinder/PathFinder.cpp:69 | the nodes `getNeighbors` adds leave the search state intact |
| PathFinder.ChainOf | mc-cpp/src/pathfinder/PathFinder.cpp:201-206 | the predecessor links from any node the search touched reach `start`, through popped nodes only |
| PathFinder.ChainNear | mc-cpp/src/pathfinder/PathFinder.cpp:201-221 | every node of such a chain is the start or nearer the goal than `maxDist` |
| PathFinder.AdmittedOpen | mc-cpp/src/pathfinder/PathFinder.cpp:111-122 | the neighbours kept are stored, unpopped and near the goal |
| PathFinder.PathFinder.constructor | mc-cpp/src/pathfinder/PathFinder.cpp:9-13 | an empty node map and open set, and 32 neighbour slots |
| PathFinder.PathFinder.IsFree | mc-cpp/src/pathfinder/PathFinder.cpp:176-199 | the triple loop's answer is `Free`, whose meaning `FreeMeaning` states |
| PathFinder.PathFinder.GetOrCreateNode | mc-cpp/src/pathfinder/PathFinder.cpp:163-174 | corrected, with the map keyed by position: the node stored for the block, or a fresh new node stored under it; nothing else changes |
| PathFinder.PathFinder.GetNode | mc-cpp/src/pathfinder/PathFinder.cpp:127-161 | null or a stored node at the column and the height `NodeHeight` gives; the map only gains fresh nodes |
| PathFinder.PathFinder.Fall | mc-cpp/src/pathfinder/PathFinder.cpp:140-153 | the fall loop lands exactly when `Land` does, at its height |
| PathFinder.PathFinder.GetNeighbors | mc-cpp/src/pathfinder/PathFinder.cpp:97-125 | four candidates from `getNode` in the +z, -x, +x, -z columns, one block of step-up allowed when the box fits above; the slots' first count entries are the admitted ones, at most 4 |
| PathFinder.PathFinder.ProbeAll | mc-cpp/src/pathfinder/PathFinder.cpp:99-109 | the four `getNode` answers, each stored |
| PathFinder.PathFinder.Probe | mc-cpp/src/pathfinder/PathFinder.cpp:106-109 | one `getNode` answer for direction i, stored |
| PathFinder.PathFinder.AdmitAll | mc-cpp/src/pathfinder/PathFinder.cpp:111-122 | the slots' first count entries are the admitted candidates |
| PathFinder.PathFinder.Admit | mc-cpp/src/pathfinder/PathFinder.cpp:111-113 | one admission appends the candidate exactly when `Keep` keeps it |
| PathFinder.PathFinder.Next | mc-cpp/src/pathfinder/PathFinder.cpp:58 | a cheapest open node leaves the open set, which stays a search state; it is stored, unpopped and near |
| PathFinder.PathFinder.Close | mc-cpp/src/pathfinder/PathFinder.cpp:68 | the popped node is closed and ranked last, and the search state holds |
| PathFinder.PathFinder.Relax | mc-cpp/src/pathfinder/PathFinder.cpp:72-86 | the neighbour takes `current` as predecessor with the new costs exactly when it is not open or the new cost is lower; the search state holds |
| PathFinder.PathFinder.Improve | mc-cpp/src/pathfinder/PathFinder.cpp:76-85 | the neighbour's predecessor, g, h and f are set, and it is in the open set |
| PathFinder.PathFinder.Relink | mc-cpp/src/pathfinder/PathFinder.cpp:76-78 | the neighbour's predecessor, g and h are set, and the search state holds |
| PathFinder.PathFinder.Requeue | mc-cpp/src/pathfinder/PathFinder.cpp:80-81 | an open neighbour's cost is changed and it stays open |
| PathFinder.PathFinder.SetCost | mc-cpp/src/pathfinder/PathFinder.cpp:83 | f becomes g + h before the node joins the open set |
| PathFinder.PathFinder.Enqueue | mc-cpp/src/pathfinder/PathFinder.cpp:82-85 | a node not yet open gets f = g + h and joins the open set |
| PathFinder.PathFinder.Push | mc-cpp/src/pathfinder/PathFinder.cpp:84 | `openSet.insert` of a node that was not open puts it in the open set |
| PathFinder.PathFinder.Begin | mc-cpp/src/pathfinder/PathFinder.cpp:49-56 | the start node gets g = 0, h = its distance to the goal and f = h, and is alone in the open set |
| PathFinder.PathFinder.Expand | mc-cpp/src/pathfinder/PathFinder.cpp:64-87 | a popped non-goal node may become `closest`, is closed and ranked, and its neighbours are relaxed; `closest` stays the popped node nearest the goal |
| PathFinder.PathFinder.Spread | mc-cpp/src/pathfinder/PathFinder.cpp:69-87 | neighbours found and relaxed leave the search state intact |
| PathFinder.PathFinder.Discover | mc-cpp/src/pathfinder/PathFinder.cpp:69 | the nodes `getNeighbors` adds are fresh, and the ones it keeps are stored, unpopped and near |
| PathFinder.PathFinder.RelaxAll | mc-cpp/src/pathfinder/PathFinder.cpp:71-87 | relaxing each found neighbour keeps the search state |
| PathFinder.PathFinder.Finish | mc-cpp/src/pathfinder/PathFinder.cpp:91-94 | the path is the chain from `start` to the node, every node near |
| PathFinder.PathFinder.FindPathInternal | mc-cpp/src/pathfinder/PathFinder.cpp:48-95 | null exactly when the search ends at the start without reaching the goal (so a start that is the goal gives a path once it is popped, while a fuel of 0 gives null); otherwise a path from `start` along predecessor links to the goal, or to the explored node nearest the goal, every node of it near; every explored node is closed |
| PathFinder.PathFinder.Explore | mc-cpp/src/pathfinder/PathFinder.cpp:56-88 | the loop stops with the goal when it is popped; otherwise `last` is the popped node nearest the goal, or `start` |
| PathFinder.PathFinder.FindPath | mc-cpp/src/pathfinder/PathFinder.cpp:23-46 | start and goal nodes at the floored corner and target blocks; then `FindPathInternal`'s promises, including null exactly when the search ends at the start without reaching the goal |
| PathFinder.PathFinder.FindPathToBlock | mc-cpp/src/pathfinder/PathFinder.cpp:19-21 | a block target is its centre point; the goal node sits on the block's own level |
| SpatialHash.CellOfMono | mc-cpp/src/util/SpatialHash.cpp:7-13 | the cell index `floor(v / 16)` never decreases as the coordinate grows |
| SpatialHash.IntersectingShareCell | mc-cpp/src/util/SpatialHash.cpp:109-130 | two proper boxes that intersect share a cell, so a registered entity is seen by every query area it meets |
| SpatialHash.GetCellsForBox | mc-cpp/src/util/SpatialHash.cpp:15-34 | every cell from the low corner's to the high corner's, in each axis, exactly once and in x-y-z order |
| SpatialHash.Entity.constructor | mc-cpp/src/util/SpatialHash.cpp:50-57 | an entity carries the box it is registered by |
| SpatialHash.SpatialHash.constructor | mc-cpp/src/util/SpatialHash.cpp:132-134 | a new hash has no cells |
| SpatialHash.SpatialHash.InsertIntoCell | mc-cpp/src/util/SpatialHash.cpp:36-38 | the entity joins that cell only, and no cell is left empty |
| SpatialHash.SpatialHash.RemoveFromCell | mc-cpp/src/util/SpatialHash.cpp:40-48 | the entity leaves that cell only, and a cell left empty is erased |
| SpatialHash.SpatialHash.Insert | mc-cpp/src/util/SpatialHash.cpp:50-57 | null changes nothing; otherwise the entity joins exactly the cells of its box |
| SpatialHash.SpatialHash.Remove | mc-cpp/src/util/SpatialHash.cpp:59-66 | null changes nothing; otherwise the entity leaves exactly the cells of its box, and emptied cells disappear |
| SpatialHash.SpatialHash.ListHas | mc-cpp/src/util/SpatialHash.cpp:82-88 | the search loop finds a cell exactly when it is in the list |
| SpatialHash.SpatialHash.Update | mc-cpp/src/util/SpatialHash.cpp:68-107 | the entity leaves the cells only the old box touched and joins the cells only the new box touches; if it was in exactly the old box's cells, it is then in exactly the new box's |
| SpatialHash.SingleCell | mc-cpp/src/util/SpatialHash.cpp:76-78 | a one-cell list names exactly the cells of its box, so the early return changes no membership |
| SpatialHash.SpatialHash.Query | mc-cpp/src/util/SpatialHash.cpp:109-130 | each entity at most once, and exactly the registered entities of the area's cells whose boxes intersect the area |
| SpatialHash.SpatialHash.Clear | mc-cpp/src/util/SpatialHash.cpp:132-134 | every cell is empty afterwards |
| PerlinNoise.BuiltFromStep | src/main/java/net/minecraft/world/level/levelgen/synth/PerlinNoise.java:17-19 | building octave o from the o-th group of draws extends the octaves built from the earlier draws |
| PerlinNoise.Scale | src/main/java/net/minecraft/world/level/levelgen/synth/PerlinNoise.java:25-29 | the running frequency of every octave lies in (0, 1] |
| PerlinNoise.Halve | src/main/java/net/minecraft/world/level/levelgen/synth/PerlinNoise.java:29 | the running frequency halves from one octave to the next |
| PerlinNoise.AmplitudeClosed | src/main/java/net/minecraft/world/level/levelgen/synth/PerlinNoise.java:27-30 | the weights 1, 2, 4, ... of n octaves sum to 2^n - 1 |
| PerlinNoise.WeightedSumBound | src/main/java/net/minecraft/world/level/levelgen/synth/PerlinNoise.java:27-30 | octave values in [-2, 2] sum to within 2 (2^n - 1) of zero |
| PerlinNoise.WeightedSumOne | src/main/java/net/minecraft/world/level/levelgen/synth/PerlinNoise.java:27-30 | the sum over one octave is that octave's value |
| PerlinNoise.WeightedSumNext | src/main/java/net/minecraft/world/level/levelgen/synth/PerlinNoise.java:40 | adding octave n's term to the sum of the first n gives the sum of the first n + 1 |
| PerlinNoise.WeightedSumAdded | src/main/java/net/minecraft/world/level/levelgen/synth/PerlinNoise.java:59 | an entry holding the sum of n octaves, to which `add` adds octave n's value times the reciprocal frequency, holds the sum of n + 1 |
| PerlinNoise.ScaledIs | src/main/java/net/minecraft/world/level/levelgen/synth/PerlinNoise.java:40 | the coordinate times the running frequency is the coordinate at that octave's scale |
| PerlinNoise.OctaveNoise | src/main/java/net/minecraft/world/level/levelgen/synth/PerlinNoise.java:40 | an octave's noise lies in [-2, 2] |
| PerlinNoise.OctaveNoiseIs | src/main/java/net/minecraft/world/level/levelgen/synth/PerlinNoise.java:40 | octave o's noise is that of table o with offsets o |
| PerlinNoise.Values | src/main/java/net/minecraft/world/level/levelgen/synth/PerlinNoise.java:35-45 | one value per octave, each in [-2, 2] |
| PerlinNoise.GetValueIs | src/main/java/net/minecraft/world/level/levelgen/synth/PerlinNoise.java:40 | an octave generator's `getValue` is the noise of its table at the point moved by its offsets |
| PerlinNoise.OctaveLink | src/main/java/net/minecraft/world/level/levelgen/synth/PerlinNoise.java:40 | octave o's `getValue` at the scaled point gives octave o's value |
| PerlinNoise.OctaveSumBound | src/main/java/net/minecraft/world/level/levelgen/synth/PerlinNoise.java:35-45 | n octaves together stay within 2 (2^n - 1) of zero |
| PerlinNoise.SingleOctave | src/main/java/net/minecraft/world/level/levelgen/synth/PerlinNoise.java:35-45 | with one octave, the sum is that octave's noise at the point itself |
| PerlinNoise.OctaveRegionIs | src/main/java/net/minecraft/world/level/levelgen/synth/PerlinNoise.java:59 | the region handed to octave o has its scales multiplied by the running frequency |
| PerlinNoise.OctaveRegionSize | src/main/java/net/minecraft/world/level/levelgen/synth/PerlinNoise.java:59 | scaling a region keeps its sizes and volume |
| PerlinNoise.OctaveAddedIs | src/main/java/net/minecraft/world/level/levelgen/synth/PerlinNoise.java:59 | octave o's contribution is what `add` computes with table o and offsets o |
| PerlinNoise.RegionValues | src/main/java/net/minecraft/world/level/levelgen/synth/PerlinNoise.java:58-61 | one value per octave for each sample |
| PerlinNoise.FlatRegionIgnoresY | src/main/java/net/minecraft/world/level/levelgen/synth/PerlinNoise.java:66-68 | with a single row of y, neither the region's y nor its y scale changes any value |
| PerlinNoise.SummedByStep | src/main/java/net/minecraft/world/level/levelgen/synth/PerlinNoise.java:58-61 | one octave's `add` over the region turns every sample's sum of o octaves into the sum of o + 1, and keeps 0 after the region |
| PerlinNoise.SummedByAt | src/main/java/net/minecraft/world/level/levelgen/synth/PerlinNoise.java:59 | the same at one sample's entry |
| PerlinNoise.OctaveValuesAdded | src/main/java/net/minecraft/world/level/levelgen/synth/PerlinNoise.java:59 | octave o's value at every sample is what its `add` adds there |
| PerlinNoise.SummedStep | src/main/java/net/minecraft/world/level/levelgen/synth/PerlinNoise.java:58-61 | octave o's `add` with its own table, offsets, scaled region and reciprocal frequency advances the buffer from o to o + 1 summed octaves |
| PerlinNoise.GeneratorsStep | src/main/java/net/minecraft/world/level/levelgen/synth/PerlinNoise.java:17-19 | appending a generator appends its table and offsets |
| PerlinNoise.VolumeOrder | src/main/java/net/minecraft/world/level/levelgen/synth/PerlinNoise.java:49 | the allocated length is the region's volume |
| PerlinNoise.SummedNone | src/main/java/net/minecraft/world/level/levelgen/synth/PerlinNoise.java:48-54 | a zeroed buffer that fits the region holds the sums of no octaves |
| PerlinNoise.Zeroed | src/main/java/net/minecraft/world/level/levelgen/synth/PerlinNoise.java:49 | a fresh buffer of n entries, all 0 |
| PerlinNoise.Clear | src/main/java/net/minecraft/world/level/levelgen/synth/PerlinNoise.java:51-53 | every entry of the buffer becomes 0 |
| PerlinNoise.PerlinNoise.constructor | src/main/java/net/minecraft/world/level/levelgen/synth/PerlinNoise.java:13-21 | exactly `levels` octave generators, octave o built from the o-th group of draws |
| PerlinNoise.PerlinNoise.GetValue3 | src/main/java/net/minecraft/world/level/levelgen/synth/PerlinNoise.java:35-45 | the result is the octave sum: octave o's noise at the point scaled by 2^-o, weighted by 2^o |
| PerlinNoise.PerlinNoise.OctaveTerm3 | src/main/java/net/minecraft/world/level/levelgen/synth/PerlinNoise.java:40 | octave o's term is its value divided by its frequency |
| PerlinNoise.PerlinNoise.GetValue2 | src/main/java/net/minecraft/world/level/levelgen/synth/PerlinNoise.java:23-33 | the same octave sum in the plane z = 0 |
| PerlinNoise.PerlinNoise.OctaveTerm2 | src/main/java/net/minecraft/world/level/levelgen/synth/PerlinNoise.java:28 | octave o's term in the plane z = 0 |
| PerlinNoise.PerlinNoise.GetRegion | src/main/java/net/minecraft/world/level/levelgen/synth/PerlinNoise.java:47-64 | a fresh buffer of the region's volume without one, the given buffer otherwise; every sample's entry then holds its octave sum and every entry after the region is 0 |
| PerlinNoise.PerlinNoise.AddOctaves | src/main/java/net/minecraft/world/level/levelgen/synth/PerlinNoise.java:56-61 | every octave's `add` in turn advances the buffer from no octaves summed to all of them |
| PerlinNoise.PerlinNoise.OctaveAdd | src/main/java/net/minecraft/world/level/levelgen/synth/PerlinNoise.java:59 | octave o's `add` advances the buffer from o to o + 1 summed octaves |
| PerlinNoise.PerlinNoise.GetRegion2 | src/main/java/net/minecraft/world/level/levelgen/synth/PerlinNoise.java:66-68 | the 2-D region is the 3-D one at y = 10 with one row of y and y scale 1, the last scale argument unused |
| ShapelessRecipe.WildcardAcceptsId | src/main/java/net/minecraft/world/item/crafting/ShapelessRecipy.java:28 | an ingredient with aux -1 accepts exactly the items of its id |
| ShapelessRecipe.FirstAccepting | src/main/java/net/minecraft/world/item/crafting/ShapelessRecipy.java:26-33 | the index found accepts the item and no earlier ingredient does; none is found only when no ingredient accepts it |
| ShapelessRecipe.RemoveAt | src/main/java/net/minecraft/world/item/crafting/ShapelessRecipy.java:30 | removing the ingredient taken leaves the others: one fewer, same multiset apart from it |
| ShapelessRecipe.Consume | src/main/java/net/minecraft/world/item/crafting/ShapelessRecipy.java:20-42 | a successful walk gives each item in visiting order its own ingredient that accepts it, and leaves the rest unused, nothing gained or lost |
| ShapelessRecipe.MatchPairsItems | src/main/java/net/minecraft/world/item/crafting/ShapelessRecipy.java:17-43 | a match pairs every item in the grid with its own accepting ingredient and uses every ingredient exactly once |
| ShapelessRecipe.KindsRemoveAt | src/main/java/net/minecraft/world/item/crafting/ShapelessRecipy.java:30 | the removed ingredient's kind is the one missing from the remaining kinds |
| ShapelessRecipe.NoWildcardExact | src/main/java/net/minecraft/world/item/crafting/ShapelessRecipy.java:17-43 | without wildcards the recipe matches exactly when the grid holds the ingredients' id and aux values, each as often as listed, in any arrangement |
| ShapelessRecipe.TakeExact | src/main/java/net/minecraft/world/item/crafting/ShapelessRecipy.java:26-33 | taking an exact ingredient for the first item changes neither whether the walk ends empty nor whether the kinds agree |
| ShapelessRecipe.KindsTake | src/main/java/net/minecraft/world/item/crafting/ShapelessRecipy.java:28-30 | taking an ingredient of the first item's kind keeps the kinds of items and ingredients equal exactly when they were |
| ShapelessRecipe.NotAccepted | src/main/java/net/minecraft/world/item/crafting/ShapelessRecipy.java:35-37 | an item no exact ingredient accepts has a kind the list lacks |
| ShapelessRecipe.ShapelessRecipy.constructor | src/main/java/net/minecraft/world/item/crafting/ShapelessRecipy.java:12-15 | the recipe keeps its result and ingredients |
| ShapelessRecipe.ShapelessRecipy.Matches | src/main/java/net/minecraft/world/item/crafting/ShapelessRecipy.java:17-43 | the answer is `MatchesSpec`, the greedy walk ending with no ingredient left |
| ShapelessRecipe.ShapelessRecipy.TakeCell | src/main/java/net/minecraft/world/item/crafting/ShapelessRecipy.java:22-38 | one cell advances the walk, or proves the grid does not match |
| ShapelessRecipe.ShapelessRecipy.WalkedAll | src/main/java/net/minecraft/world/item/crafting/ShapelessRecipy.java:42 | once every cell is walked, the grid matches exactly when no ingredient is left |
| ShapelessRecipe.ShapelessRecipy.Assemble | src/main/java/net/minecraft/world/item/crafting/ShapelessRecipy.java:45-47 | a copy of the result: same id, count and aux |
| ShapelessRecipe.ShapelessRecipy.Size | src/main/java/net/minecraft/world/item/crafting/ShapelessRecipy.java:49-51 | the number of ingredients, which is the number of items in any grid the recipe matches |
| ShapelessRecipe.SizeIsItemCount | src/main/java/net/minecraft/world/item/crafting/ShapelessRecipy.java:49-51 | any matching grid holds exactly as many items as there are ingredients |
| ShapelessRecipe.ConsumeStep | src/main/java/net/minecraft/world/item/crafting/ShapelessRecipy.java:22-38 | an empty cell changes nothing, an unaccepted item ends the walk, and otherwise the accepting ingredient moves from the list to the taken prefix |
| ShapelessRecipe.FindIngredient | src/main/java/net/minecraft/world/item/crafting/ShapelessRecipy.java:26-33 | -1 exactly when no ingredient accepts the item; otherwise the first accepting index |
| ShapelessRecipe.FirstAcceptingIs | src/main/java/net/minecraft/world/item/crafting/ShapelessRecipy.java:26-33 | an accepting index with no accepting index before it is the first accepting one |
| Tesselator.QuadIndices | mc-cpp/src/renderer/Tesselator.cpp:99-115 | six indices per whole quad |
| Tesselator.FanIndices | mc-cpp/src/renderer/Tesselator.cpp:140-144 | three indices per fan triangle |
| Tesselator.QuadIndicesShape | mc-cpp/src/renderer/Tesselator.cpp:104-114 | quad q sits at positions 6q..6q+5 as (b, b+1, b+2, b, b+2, b+3) with b = 4q, and every index is below the vertex count |
| Tesselator.FanIndicesShape | mc-cpp/src/renderer/Tesselator.cpp:140-144 | triangle t sits at positions 3t..3t+2 as (0, t+1, t+2), and a fan of k triangles names only its first k + 2 vertices |
| Tesselator.QuadIndexList | mc-cpp/src/renderer/Tesselator.cpp:104-114 | the loop builds exactly the quad index list of vertices / 4 quads |
| Tesselator.FanIndexList | mc-cpp/src/renderer/Tesselator.cpp:321-325 | the loop builds exactly the fan index list of vertices - 2 triangles |
| Tesselator.DrawIndicesInRange | mc-cpp/src/renderer/Tesselator.cpp:117-160 | every submitted index names a vertex of the batch; quads give 6 per whole quad, a fan of n >= 3 vertices 3 (n - 2), a shorter fan draws nothing, other modes draw the vertices as they are; the list is the one `getVertexData` hands out |
| Tesselator.PackColor | mc-cpp/src/renderer/Tesselator.cpp:187-204 | each channel clamped to 0..255: red in the low byte, then green, blue and alpha |
| Tesselator.Bytes | mc-cpp/src/renderer/Tesselator.cpp:203 | four bytes packed into one unsigned word, each recoverable |
| Tesselator.ByteOf | mc-cpp/src/renderer/Tesselator.cpp:207-209 | a shifted and masked byte lies in 0..255 |
| Tesselator.PackLight | mc-cpp/src/renderer/Tesselator.cpp:276-285 | sky light clamped to 0..15 in the low byte and block light clamped to 0..15 in the next |
| Tesselator.PackNormal | mc-cpp/src/renderer/Tesselator.cpp:267-274 | each scaled, truncated component modulo 256 in its own byte, x lowest |
| Tesselator.Spliced | mc-cpp/src/renderer/Tesselator.cpp:222-257 | the record's words replace the array at the write position, every other word unchanged |
| Tesselator.StoreWords | mc-cpp/src/renderer/Tesselator.cpp:226-255 | the eight stores leave the array spliced with the vertex record |
| Tesselator.Tesselator.VertexRecord | mc-cpp/src/renderer/Tesselator.cpp:226-255 | eight words per vertex |
| Tesselator.Tesselator.constructor | mc-cpp/src/renderer/Tesselator.cpp:22-46 | an empty batch in quad mode, white, full light 0x0F0F, no flags set, not tesselating |
| Tesselator.Tesselator.Begin | mc-cpp/src/renderer/Tesselator.cpp:71-84 | fails and changes nothing when a batch is open; otherwise opens an empty batch in the mode with flags reset and full light |
| Tesselator.Tesselator.Clear | mc-cpp/src/renderer/Tesselator.cpp:162-167 | counters and indices emptied |
| Tesselator.Tesselator.BuildQuadIndices | mc-cpp/src/renderer/Tesselator.cpp:99-115 | the indices become the quad index list of the batch |
| Tesselator.Tesselator.Draw | mc-cpp/src/renderer/Tesselator.cpp:117-160 | the submitted call is `DrawCallFor` of the batch; indexed draws leave their list in `indices` |
| Tesselator.Tesselator.End | mc-cpp/src/renderer/Tesselator.cpp:86-97 | fails and changes nothing when no batch is open; otherwise draws the batch, then empties and closes it |
| Tesselator.Tesselator.Tex | mc-cpp/src/renderer/Tesselator.cpp:169-173 | the texture coordinates are set and flagged |
| Tesselator.Tesselator.Color4 | mc-cpp/src/renderer/Tesselator.cpp:187-204 | ignored after `noColor`; otherwise the colour becomes the clamped, packed channels |
| Tesselator.Tesselator.Color3 | mc-cpp/src/renderer/Tesselator.cpp:183-185 | the same with alpha 255 |
| Tesselator.Tesselator.ColorRgb | mc-cpp/src/renderer/Tesselator.cpp:206-211 | red, green and blue from bytes 2, 1 and 0 of the argument, opaque |
| Tesselator.Tesselator.ColorF4 | mc-cpp/src/renderer/Tesselator.cpp:179-181 | each float channel times 255, truncated, then clamped and packed |
| Tesselator.Tesselator.ColorF3 | mc-cpp/src/renderer/Tesselator.cpp:175-177 | the same, opaque; `setColorOpaque_F` too |
| Tesselator.Tesselator.Normal | mc-cpp/src/renderer/Tesselator.cpp:267-274 | the normal is set to `PackNormal` and flagged |
| Tesselator.Tesselator.LightLevel | mc-cpp/src/renderer/Tesselator.cpp:276-285 | the light is set to `PackLight` and flagged |
| Tesselator.Tesselator.Offset | mc-cpp/src/renderer/Tesselator.cpp:287-291 | the offset is set |
| Tesselator.Tesselator.NoColor | mc-cpp/src/renderer/Tesselator.cpp:293-295 | later colour calls are ignored |
| Tesselator.Tesselator.Vertex | mc-cpp/src/renderer/Tesselator.cpp:222-265 | the vertex's eight words are stored at p; p advances by 8 and the vertex count by 1; a full batch of whole quads is drawn and emptied, staying open |
| Tesselator.Tesselator.VertexUV | mc-cpp/src/renderer/Tesselator.cpp:217-220 | `tex` then `vertex`: the texture coordinates are set and flagged, the stored record carries them, and the counters, the flush of a full batch at the buffer limit, `ok` and the draw call are exactly those of `vertex` |
| Tesselator.Tesselator.GetVertexData | mc-cpp/src/renderer/Tesselator.cpp:297-333 | the first p words, the flags and the index list `draw` would build; then the batch is emptied and closed |
| Textures.SmoothParts | src/main/java/net/minecraft/client/renderer/Textures.java:296-300 | the colour part of a smooth blend stays below bit 24, so adding the alpha byte carries into nothing |
| Textures.AlphaOnTop | src/main/java/net/minecraft/client/renderer/Textures.java:299 | an alpha byte added above a 24-bit colour reads back unchanged, and so does each colour byte |
| Textures.SmoothAlpha | src/main/java/net/minecraft/client/renderer/Textures.java:296-300 | the blended alpha is (a0 + a1) >> 1 |
| Textures.SmoothChannels | src/main/java/net/minecraft/client/renderer/Textures.java:299 | each colour channel is the sum of the two halved channels, so never above 255 |
| Textures.SmoothSymmetric | src/main/java/net/minecraft/client/renderer/Textures.java:296-300 | the blend does not depend on the order of its arguments |
| Textures.Mix | src/main/java/net/minecraft/client/renderer/Textures.java:318-320 | a weighted mean of two channel values lies between them |
| Textures.Pack | src/main/java/net/minecraft/client/renderer/Textures.java:321 | the packed word's bytes are the alpha, red, green and blue given |
| Textures.Weights | src/main/java/net/minecraft/client/renderer/Textures.java:305-309 | each weight is the colour's alpha, or 1 for both when both alphas are 0; never both 0 |
| Textures.CrispAlpha | src/main/java/net/minecraft/client/renderer/Textures.java:302-321 | the crisp blend is transparent exactly when both colours are, and opaque otherwise |
| Textures.CrispChannels | src/main/java/net/minecraft/client/renderer/Textures.java:312-321 | each colour channel is the alpha-weighted mean of the two channels |
| Textures.CrispSelf | src/main/java/net/minecraft/client/renderer/Textures.java:302-321 | blending a colour with itself keeps its red, green and blue, whatever its alpha |
| Textures.Anaglyph | src/main/java/net/minecraft/client/renderer/Textures.java:128-135 | the written channels lie in 0..255, and are the pixel's own without the anaglyph option |
| Textures.PixelBytes | src/main/java/net/minecraft/client/renderer/Textures.java:124-140 | four bytes per pixel in R, G, B, A order, alpha always the pixel's own |
| Textures.ConvertPixels | src/main/java/net/minecraft/client/renderer/Textures.java:119-141 | four bytes per pixel, pixel i at positions 4i..4i+3 |
| Textures.ParseName | src/main/java/net/minecraft/client/renderer/Textures.java:50-62 | at most one of the strip, clamp and blur prefixes is recognised, tried in that order |
| Textures.ParseNameRoundTrip | src/main/java/net/minecraft/client/renderer/Textures.java:50-62 | the prefix and the resource read spell the name |
| Textures.Textures.constructor | src/main/java/net/minecraft/client/renderer/Textures.java:24-38 | no names cached, no images registered and nothing uploaded |
| Textures.Textures.GenTexture | src/main/java/net/minecraft/client/renderer/Textures.java:47-49 | a texture id not handed out before |
| Textures.Textures.UploadTo | src/main/java/net/minecraft/client/renderer/Textures.java:94-168 | the upload of the pixels to the id is recorded with the clamp and blur flags in force |
| Textures.Textures.LoadTexture | src/main/java/net/minecraft/client/renderer/Textures.java:40-70 | a cached name returns its id and changes nothing; a new name gets a fresh id, uploaded with the flags its prefix asks for (reset after), and cached |
| Textures.Textures.GetTexture | src/main/java/net/minecraft/client/renderer/Textures.java:85-92 | a fresh id, uploaded with no clamp or blur, and registered with its image |
| Textures.LoadTwice | src/main/java/net/minecraft/client/renderer/Textures.java:42-44 | loading a name twice gives the same id, and the second call adds nothing |
| Rng.Random.SetSeed | src/main/java/net/minecraft/world/level/levelgen/RandomLevelSource.java:214 | reseeding restarts the stream: the seed is the new one and nothing has been drawn |
| Rng.Random.NextInt | src/main/java/net/minecraft/world/level/levelgen/RandomLevelSource.java:160 | a draw below a positive bound lies in [0, bound), is fixed by the seed and the draw's position, and takes one value |
| Rng.Random.NextDouble | src/main/java/net/minecraft/world/level/levelgen/RandomLevelSource.java:151 | a draw lies in [0, 1) and takes one value |
| Rng.Random.NextFloat | src/main/java/net/minecraft/world/level/levelgen/CanyonFeature.java:49 | a draw lies in [0, 1) and takes one value |
| Rng.Random.NextLong | src/main/java/net/minecraft/world/level/levelgen/CanyonFeature.java:17 | the seed of a tunnel's own generator is the next raw value of the parent's stream |
| ChunkBlocks.Index | src/main/java/net/minecraft/world/level/levelgen/RandomLevelSource.java:159 | the slot (x * 16 + z) * 128 + y of an in-chunk cell lies in the 32768-byte volume |
| ChunkBlocks.IndexInjective | src/main/java/net/minecraft/world/level/levelgen/RandomLevelSource.java:159 | distinct cells have distinct slots |
| ChunkBlocks.IndexOnto | src/main/java/net/minecraft/world/level/levelgen/RandomLevelSource.java:215 | every slot of the volume belongs to exactly the cell its quotient and remainders name |
| ChunkBlocks.Column | src/main/java/net/minecraft/world/level/levelgen/RandomLevelSource.java:158-159 | the 128 slots of one column, bottom to top |
| ChunkBlocks.Put | src/main/java/net/minecraft/world/level/levelgen/RandomLevelSource.java:161 | a write changes the one slot it names and no other cell |
| Terrain.SteppedIsLinear | src/main/java/net/minecraft/world/level/levelgen/RandomLevelSource.java:87-133 | adding a step n times is linear interpolation, b + n * s |
| Terrain.SteppedReaches | src/main/java/net/minecraft/world/level/levelgen/RandomLevelSource.java:82-90 | n steps of one n-th of the span reach the next lattice sample, so the interpolation is continuous across lattice cells |
| Terrain.DensityAtLattice | src/main/java/net/minecraft/world/level/levelgen/RandomLevelSource.java:83-107 | at a lattice point a cell's density is the lattice sample itself |
| Terrain.Prepare | src/main/java/net/minecraft/world/level/levelgen/RandomLevelSource.java:79-137 | the chunk a complete fill leaves: every cell holds the tile picked for its own interpolated density, height and column |
| Terrain.ChunkSeed | src/main/java/net/minecraft/world/level/levelgen/RandomLevelSource.java:214 | the seed is x * 341873128712 + z * 132897987541 wrapped into signed 64 bits |
| Terrain.PreparedIs | src/main/java/net/minecraft/world/level/levelgen/RandomLevelSource.java:100-121 | the cell the loops reach at lattice cell (i, j, k), layer a, row b, step c is cell (4i + b, 4j + c, 8k + a), and it gets the tile for that step's density |
| Terrain.Fill | src/main/java/net/minecraft/world/level/levelgen/RandomLevelSource.java:79-137 | the four nested lattice loops leave every cell of the chunk holding its prepared tile, whatever the array held before |
| Terrain.FillSlab | src/main/java/net/minecraft/world/level/levelgen/RandomLevelSource.java:79 | one lattice slab along x is filled and nothing outside it changes |
| Terrain.FillPillar | src/main/java/net/minecraft/world/level/levelgen/RandomLevelSource.java:80 | one lattice pillar is filled and nothing outside it changes |
| Terrain.FillCell | src/main/java/net/minecraft/world/level/levelgen/RandomLevelSource.java:81-91 | one lattice cell is filled, its corner columns rising an eighth of their span per layer, and nothing outside it changes |
| Terrain.FillLayer | src/main/java/net/minecraft/world/level/levelgen/RandomLevelSource.java:92-98 | one layer of a lattice cell is filled, the x edges advancing a quarter per row, and nothing outside it changes |
| Terrain.FillRow | src/main/java/net/minecraft/world/level/levelgen/RandomLevelSource.java:99-124 | four cells along z, a quarter of the span apart, are filled through the packed slot, and nothing else changes |
| RandomLevelSource.HeightsTile | src/main/java/net/minecraft/world/level/levelgen/RandomLevelSource.java:108-119 | rock exactly where the density is positive; otherwise air from sea level (64) up, ice exactly in layer 63 of a column colder than 0.5, and still water below |
| RandomLevelSource.PrepareHeights | src/main/java/net/minecraft/world/level/levelgen/RandomLevelSource.java:71-139 | every cell holds HeightsTile of its interpolated density, its height and its column's temperature |
| RandomLevelSource.Topsoil | src/main/java/net/minecraft/world/level/levelgen/RandomLevelSource.java:167-195 | at the first rock under air the counter becomes the depth; depth <= 0 gives rock filler and no topsoil (water below sea level); near sea level sand wins over gravel, gravel drops the topsoil, otherwise the biome's tiles; elsewhere the tiles are kept |
| RandomLevelSource.WalkKeepsTiles | src/main/java/net/minecraft/world/level/levelgen/RandomLevelSource.java:158 | walking further down a column never changes the tiles already laid above |
| RandomLevelSource.WalkedOne | src/main/java/net/minecraft/world/level/levelgen/RandomLevelSource.java:158-206 | the state after cell y and y's tile come from one step from the state before it, with that cell's floor draw |
| RandomLevelSource.WalkedDown | src/main/java/net/minecraft/world/level/levelgen/RandomLevelSource.java:158-206 | one more cell extends the walk by exactly one step |
| RandomLevelSource.FloorUnbreakable | src/main/java/net/minecraft/world/level/levelgen/RandomLevelSource.java:160-161 | the bottom cell always becomes bedrock, because the floor draw is at least 0 |
| RandomLevelSource.AirAndOthersKept | src/main/java/net/minecraft/world/level/levelgen/RandomLevelSource.java:164-165 | from y = 5 up, air stays air and resets the counter to -1, and a tile that is neither air nor rock is kept |
| RandomLevelSource.FillerRun | src/main/java/net/minecraft/world/level/levelgen/RandomLevelSource.java:201-203 | under the first rock, m more rock cells become filler while the counter lasts and the counter drops by one for each |
| RandomLevelSource.RockAfterRun | src/main/java/net/minecraft/world/level/levelgen/RandomLevelSource.java:201 | once the counter is 0, rock stays rock until air resets it |
| RandomLevelSource.RandomLevelSource.StepCell | src/main/java/net/minecraft/world/level/levelgen/RandomLevelSource.java:160-204 | one cell of the walk computes exactly the state and tile Step specifies |
| RandomLevelSource.RandomLevelSource.WalkCells | src/main/java/net/minecraft/world/level/levelgen/RandomLevelSource.java:158-206 | the column's cells become the walk's tiles, 128 floor draws are taken, and no other column changes |
| RandomLevelSource.RandomLevelSource.WalkColumn | src/main/java/net/minecraft/world/level/levelgen/RandomLevelSource.java:150-206 | the three patch draws and the walk leave the column as Built says and take the fixed number of draws |
| RandomLevelSource.RandomLevelSource.BuildSurfaces | src/main/java/net/minecraft/world/level/levelgen/RandomLevelSource.java:141-211 | every cell becomes Built of the chunk before, the generator advancing 131 values per column |
| RandomLevelSource.RandomLevelSource.GetChunk | src/main/java/net/minecraft/world/level/levelgen/RandomLevelSource.java:213-224 | the generator is seeded from the chunk position; the blocks are those after prepareHeights and buildSurfaces, before caveFeature.apply; every column has bedrock at y = 0 |
| HellRandomLevelSource.HellTile | src/main/java/net/minecraft/world/level/levelgen/HellRandomLevelSource.java:92-100 | hell rock exactly where the density is positive; otherwise still lava below y = 32 and air above |
| HellRandomLevelSource.PrepareHeights | src/main/java/net/minecraft/world/level/levelgen/HellRandomLevelSource.java:57-120 | every cell holds HellTile of its interpolated density and height |
| HellRandomLevelSource.Topsoil | src/main/java/net/minecraft/world/level/levelgen/HellRandomLevelSource.java:149-177 | at the first hell rock under air the counter becomes the depth; depth <= 0 gives hell rock filler and no topsoil (lava below 64); near y = 64 hell sand wins over gravel topsoil, otherwise hell rock; elsewhere the tiles are kept |
| HellRandomLevelSource.Next | src/main/java/net/minecraft/world/level/levelgen/HellRandomLevelSource.java:138-188 | each cell lays exactly one tile |
| HellRandomLevelSource.WalkKeepsTiles | src/main/java/net/minecraft/world/level/levelgen/HellRandomLevelSource.java:138 | walking further down a column never changes the tiles already laid above |
| HellRandomLevelSource.SurfacedIsLast | src/main/java/net/minecraft/world/level/levelgen/HellRandomLevelSource.java:138-188 | a cell's final tile is the one the walk lays on reaching it |
| HellRandomLevelSource.WalkStep | src/main/java/net/minecraft/world/level/levelgen/HellRandomLevelSource.java:138-188 | the n-th cell extends the walk by one Next, with the next two draws of the stream |
| HellRandomLevelSource.Between | src/main/java/net/minecraft/world/level/levelgen/HellRandomLevelSource.java:144-187 | between the bedrock bands neither draw can apply and the cell takes one plain step |
| HellRandomLevelSource.FloorAndCeilingUnbreakable | src/main/java/net/minecraft/world/level/levelgen/HellRandomLevelSource.java:140-143 | the top and the bottom cells of every column become bedrock |
| HellRandomLevelSource.AirAndOthersKept | src/main/java/net/minecraft/world/level/levelgen/HellRandomLevelSource.java:145-147 | between the bands air stays air and resets the counter, and a tile that is neither air nor hell rock is kept |
| HellRandomLevelSource.FillerRun | src/main/java/net/minecraft/world/level/levelgen/HellRandomLevelSource.java:183-185 | under the first hell rock the counter drops by one for each further hell rock cell while it lasts |
| HellRandomLevelSource.FillerTiles | src/main/java/net/minecraft/world/level/levelgen/HellRandomLevelSource.java:183-185 | those cells all take the filler |
| HellRandomLevelSource.FillerTile | src/main/java/net/minecraft/world/level/levelgen/HellRandomLevelSource.java:185 | the cell i rock cells under the first takes the filler |
| HellRandomLevelSource.WalkDraws | src/main/java/net/minecraft/world/level/levelgen/HellRandomLevelSource.java:140-142 | a walk takes one draw in the ceiling band and two elsewhere, so between n and 2n for n cells |
| HellRandomLevelSource.ColumnWalk | src/main/java/net/minecraft/world/level/levelgen/HellRandomLevelSource.java:129-189 | a column's walk lays one tile per cell |
| HellRandomLevelSource.BuiltBedrock | src/main/java/net/minecraft/world/level/levelgen/HellRandomLevelSource.java:140-143 | every column buildSurfaces walks has bedrock at y = 0 and y = 127 |
| HellRandomLevelSource.HellRandomLevelSource.StepCell | src/main/java/net/minecraft/world/level/levelgen/HellRandomLevelSource.java:145-186 | one cell between the bands computes exactly the state and tile Step specifies |
| HellRandomLevelSource.HellRandomLevelSource.WalkCell | src/main/java/net/minecraft/world/level/levelgen/HellRandomLevelSource.java:139-187 | the ceiling draw, then (outside the ceiling band) the floor draw, then a step: exactly Next, with its draws |
| HellRandomLevelSource.HellRandomLevelSource.WalkCells | src/main/java/net/minecraft/world/level/levelgen/HellRandomLevelSource.java:138-188 | the column's cells become the walk's tiles, the generator advances by the walk's draws, and no other column changes |
| HellRandomLevelSource.HellRandomLevelSource.WalkColumn | src/main/java/net/minecraft/world/level/levelgen/HellRandomLevelSource.java:131-188 | the three patch draws and the walk leave the column as Built says |
| HellRandomLevelSource.HellRandomLevelSource.BuildSurfaces | src/main/java/net/minecraft/world/level/levelgen/HellRandomLevelSource.java:122-193 | every cell becomes Built of the chunk before, and the generator ends where the last column's draws end |
| HellRandomLevelSource.HellRandomLevelSource.GetChunk | src/main/java/net/minecraft/world/level/levelgen/HellRandomLevelSource.java:195-203 | the generator is seeded from the chunk position; the blocks are those after prepareHeights and buildSurfaces, before caveFeature.apply; every column has bedrock at y = 0 and y = 127 |
| Carving.Plan | src/main/java/net/minecraft/world/level/levelgen/CanyonFeature.java:17-31 | a budget of at most 0 becomes radius * 16 - 16 less a draw below a quarter of it; start -1 marks a seed call starting at half the budget; the branch point lies in [steps/4, steps/4 + steps/2); the slow pitch decay is one time in six; two or three draws are taken |
| Carving.Clamp | src/main/java/net/minecraft/world/level/levelgen/CanyonFeature.java:67-95 | a cell lies in the clamped box exactly when it lies in the raw box, in the chunk's columns and at heights 1 to 120 |
| Carving.FindLiquid | src/main/java/net/minecraft/world/level/levelgen/CanyonFeature.java:97-114 | reports liquid exactly when a cell of the box's shell (rim columns from y0 - 1 to y1 + 1, inner columns only at y0 - 1 and y1 + 1) holds either liquid tile |
| Carving.HalfTurn | src/main/java/net/minecraft/world/level/levelgen/CanyonFeature.java:32 | the sine's argument step * pi / steps lies in [0, pi) |
| Carving.Swell | src/main/java/net/minecraft/world/level/levelgen/CanyonFeature.java:32-33 | with the sine non-negative on that half turn, both radii of a segment are positive |
| CanyonFeature.CutTile | src/main/java/net/minecraft/world/level/levelgen/CanyonFeature.java:133-137 | a cut cell becomes lava exactly at heights up to 10 and air exactly above |
| CanyonFeature.CellChangeChains | src/main/java/net/minecraft/world/level/levelgen/CanyonFeature.java:116-148 | two canyon changes of a cell in a row are one canyon change |
| CanyonFeature.CarvedChains | src/main/java/net/minecraft/world/level/levelgen/CanyonFeature.java:12-158 | carving after carving is carving, so every call of addTunnel keeps the chunk carved |
| CanyonFeature.CutColumnChanges | src/main/java/net/minecraft/world/level/levelgen/CanyonFeature.java:125-146 | a column's cut changes each cell only as a canyon may (rock, dirt or grass to lava or air by height, dirt to grass from 10 up) and only from y0 to the first cell read |
| CanyonFeature.CutCarves | src/main/java/net/minecraft/world/level/levelgen/CanyonFeature.java:116-148 | a segment's cut is a canyon carving that changes cells only inside its box |
| CanyonFeature.CanyonFeature.AddFeature | src/main/java/net/minecraft/world/level/levelgen/CanyonFeature.java:160-170 | the chunk is carved; unless the first draw below 15 is 0, nothing changes and one draw is taken |
| CanyonFeature.CanyonFeature.AddTunnel | src/main/java/net/minecraft/world/level/levelgen/CanyonFeature.java:12-158 | the chunk is carved; a seed call cuts at most one segment; only a non-seed call thicker than 1 branches; the parent generator advances by 1, or 3 when it branches |
| CanyonFeature.CanyonFeature.CutSegment | src/main/java/net/minecraft/world/level/levelgen/CanyonFeature.java:97-148 | the segment is cut exactly when its clamped shell holds no water; uncut leaves the chunk unchanged; cut leaves every cell as Cut says, within the box |
| CanyonFeature.CanyonFeature.CutBox | src/main/java/net/minecraft/world/level/levelgen/CanyonFeature.java:117-148 | every cell of the chunk becomes Cut of the chunk before |
| CanyonFeature.CanyonFeature.CutColumnCells | src/main/java/net/minecraft/world/level/levelgen/CanyonFeature.java:122-146 | column (x, z) becomes its CutColumn and no other column changes |
| LargeHellCaveFeature.CellChangeChains | src/main/java/net/minecraft/world/level/levelgen/LargeHellCaveFeature.java:128-138 | two cave changes of a cell in a row are one cave change |
| LargeHellCaveFeature.HollowedChains | src/main/java/net/minecraft/world/level/levelgen/LargeHellCaveFeature.java:16-150 | hollowing after hollowing is hollowing, so every call of addTunnel keeps the chunk hollowed |
| LargeHellCaveFeature.HollowedMakesNoLava | src/main/java/net/minecraft/world/level/levelgen/LargeHellCaveFeature.java:131-134 | a cell holding lava or calm lava after nether caves held the same tile before: the carver never makes lava |
| LargeHellCaveFeature.HollowColumnChanges | src/main/java/net/minecraft/world/level/levelgen/LargeHellCaveFeature.java:128-138 | a column's cut turns to air exactly the hell rock, dirt and grass cells just above the tested heights inside the ellipsoid, and nothing else |
| LargeHellCaveFeature.HollowCarves | src/main/java/net/minecraft/world/level/levelgen/LargeHellCaveFeature.java:120-140 | a segment's cut is a cave hollowing that changes cells only inside its box |
| LargeHellCaveFeature.LargeHellCaveFeature.AddFeature | src/main/java/net/minecraft/world/level/levelgen/LargeHellCaveFeature.java:152-176 | the number of starting points is the nested draw below a draw below a draw below 10 when a draw below 5 is 0, else 0; it is below 10; with none, nothing changes and four draws are taken; the chunk is hollowed |
| LargeHellCaveFeature.LargeHellCaveFeature.AddRoom | src/main/java/net/minecraft/world/level/levelgen/LargeHellCaveFeature.java:12-14 | the chunk is hollowed and the generator advances by two |
| LargeHellCaveFeature.LargeHellCaveFeature.AddTunnel | src/main/java/net/minecraft/world/level/levelgen/LargeHellCaveFeature.java:16-150 | the chunk is hollowed; a seed call cuts at most one segment; only a non-seed call thicker than 1 branches; the parent generator advances by 1, or 3 when it branches |
| LargeHellCaveFeature.LargeHellCaveFeature.HollowSegment | src/main/java/net/minecraft/world/level/levelgen/LargeHellCaveFeature.java:101-140 | the segment is cut exactly when its clamped shell holds no lava; uncut leaves the chunk unchanged; cut leaves every cell as Hollow says, within the box |
| LargeHellCaveFeature.LargeHellCaveFeature.HollowBox | src/main/java/net/minecraft/world/level/levelgen/LargeHellCaveFeature.java:121-140 | every cell of the chunk becomes Hollow of the chunk before |
| LargeHellCaveFeature.LargeHellCaveFeature.HollowColumnCells | src/main/java/net/minecraft/world/level/levelgen/LargeHellCaveFeature.java:126-138 | column (x, z) becomes its HollowColumn and no other column changes |
| PerlinNoiseCpp.ShuffledIsPermutation | mc-cpp/src/world/levelgen/PerlinNoise.cpp:12-20 | every stage of the shuffle holds each of 0..255 exactly once |
| PerlinNoiseCpp.ShuffledSettles | mc-cpp/src/world/levelgen/PerlinNoise.cpp:18-20 | once the shuffle passes entry i it never moves it again |
| PerlinNoiseCpp.Blend | mc-cpp/src/world/levelgen/PerlinNoise.cpp:29-62 | the cube is the floor of each coordinate masked to 0..255; the blend equals the Java gradient noise at the same point and lies in [-2, 2] |
| PerlinNoiseCpp.LatticeZero | mc-cpp/src/world/levelgen/PerlinNoise.cpp:35-54 | the noise is 0 at every lattice point |
| PerlinNoiseCpp.PerlinNoise.constructor | mc-cpp/src/world/levelgen/PerlinNoise.cpp:10-27 | the table's lower half is the shuffled permutation of 0..255 and its upper half a copy |
| PerlinNoiseCpp.PerlinNoise.Shuffle | mc-cpp/src/world/levelgen/PerlinNoise.cpp:18-21 | the lower half becomes the result of all 255 exchange steps |
| PerlinNoiseCpp.PerlinNoise.Exchange | mc-cpp/src/world/levelgen/PerlinNoise.cpp:20 | entries i and j trade places and nothing else in the lower half changes |
| PerlinNoiseCpp.PerlinNoise.Mirror | mc-cpp/src/world/levelgen/PerlinNoise.cpp:24-26 | entry 256 + i becomes entry i, and the lower half is kept |
| PerlinNoiseCpp.PerlinNoise.Noise | mc-cpp/src/world/levelgen/PerlinNoise.cpp:29-62 | the noise lies in [-2, 2] |
| PerlinNoiseCpp.PerlinNoise.Noise2D | mc-cpp/src/world/levelgen/PerlinNoise.cpp:64-66 | the 2-D noise is the noise in the plane z = 0 |
| Rng.Random.constructor | src/main/java/net/minecraft/world/level/levelgen/RandomLevelSource.java:60 | a new generator draws from the stream of its seed, from the start |
| ChunkBlocks.IndexSplits | src/main/java/net/minecraft/world/level/levelgen/RandomLevelSource.java:159 | a slot splits back into its column x * 16 + z and its height y |
| RandomLevelSource.RandomLevelSource.constructor | src/main/java/net/minecraft/world/level/levelgen/RandomLevelSource.java:58-60 | the generator owns the random stream it is given |
| HellRandomLevelSource.HellRandomLevelSource.constructor | src/main/java/net/minecraft/world/level/levelgen/HellRandomLevelSource.java:45-47 | the generator owns the random stream it is given |
| CanyonFeature.CanyonFeature.constructor | src/main/java/net/minecraft/world/level/levelgen/CanyonFeature.java:9-10 | the carver keeps its random stream, radius and trigonometric functions |
| LargeHellCaveFeature.LargeHellCaveFeature.constructor | src/main/java/net/minecraft/world/level/levelgen/LargeHellCaveFeature.java:9-10 | the carver keeps its random stream, radius and trigonometric functions |

## Left out

Contracts stated weaker than the source, or with an added precondition:

- PathFinder.PathFinder.Explore: takes a `fuel` bound on the number of loop rounds. mc-cpp/src/pathfinder/PathFinder.cpp:56 loops until the open set is empty. The source gives no termination measure, because a node's g can fall several times. When the fuel runs out, the result is the nearest node popped so far.
- BinaryHeap.BinaryHeap.Insert: returns `false` and changes nothing where mc-cpp/include/pathfinder/BinaryHeap.hpp:15-17 throws on a node that is already in a heap. C++ exceptions are not modelled.
- Tesselator.Tesselator.Begin: returns `false` and changes nothing where mc-cpp/src/renderer/Tesselator.cpp throws "Already tesselating". Exceptions are not modelled.
- Tesselator.Tesselator.End: returns `false` and changes nothing where the source throws "Not tesselating".
- Textures.Textures.LoadTexture: takes the image as an input and omits the IOException path. OpenGL texture names come from a counter instead of `glGenTextures`.
- FontJava.ColourCode: decodes the character that follows the escape in the original string, lower-casing only A-Z. The source lower-cases the whole string and indexes it at i + 1, and Java's `toLowerCase` can make a string longer, which shifts that index. For "İ\u00DFa" (the escape is char 223, 'ß') the lower-cased string is "i\u0307\u00DFa", so the source reads the escape itself and selects 15 where the model reads 'a' and selects 10. Unicode case mapping is not modelled.
- ChunkSnapshot.ChunkSnapshot.Capture: requires every light value in the level to fit in 0..15 (`LightsOk`). The source's truncation of a larger value to uint8 is not modelled. A null level and the metadata array are not modelled either.
- ImprovedNoise.ImprovedNoise.Add: requires the buffer to hold sizeX * sizeY * sizeZ entries. The Java code would throw ArrayIndexOutOfBoundsException on a shorter buffer.
- PerlinNoise.PerlinNoise.GetRegion: requires a caller-supplied buffer to be large enough, for the same reason.
- PerlinNoise.PerlinNoise.GetRegion: also requires sizeX, sizeY and sizeZ to be non-negative when a buffer is given. Java then only zeroes the buffer, and the octave loops run over no samples. With no buffer, a negative size would make Java throw NegativeArraySizeException, which is not modelled either.
- PerlinNoise.PerlinNoise.GetRegion2: requires a caller-supplied buffer of at least sizeX * sizeZ entries, for the same reason. It also requires sizeX and sizeZ to be non-negative when a buffer is given, as GetRegion does.
- Inventory.Inventory.GetArmor: requires a slot in 0..3. The source does not check and would index out of bounds.
- Inventory.Inventory.GetSelected: requires the selected slot to lie inside the item array. The source does not check it. The client's key handlers only ever set it to 0..8.
- InventoryScreen.InventoryScreen.HandleSlotClick: requires slot < 40. getSlotAtPosition only yields -1..39.
- FontJava.Font.constructor: takes the decoded font image (its per-character widths) as an input. The image load and its IOException are not modelled.
- ChunkCache.MultiPlayerChunkCache.Create: the new chunk's block bytes and the fill of its sky light with full brightness (MultiPlayerChunkCache.java:42-44) are not modelled. A chunk is its position and loaded flag, because the chunk's storage (LevelChunk) is not part of this model.
- RandomLevelSource.RandomLevelSource.GetChunk: returns the block array after prepareHeights and buildSurfaces. The cave pass `caveFeature.apply` (RandomLevelSource.java:221) is not applied, because LargeFeature.java, which drives it, is not part of this model and LargeCaveFeature is not modelled. The LevelChunk wrapping and `recalcHeightmap` (RandomLevelSource.java:216, 222) are not modelled either.
- HellRandomLevelSource.HellRandomLevelSource.GetChunk: returns the block array after prepareHeights and buildSurfaces. The cave pass `caveFeature.apply` (HellRandomLevelSource.java:200) is not applied: LargeHellCaveFeature's addFeature and addTunnel are modelled on their own, but LargeFeature.apply, which walks the neighbouring chunks and calls them, is not part of this model. The LevelChunk wrapping (HellRandomLevelSource.java:201) is not modelled.
- ChunkCache.ChunkPos.HashCode: the hash is not injective, so only its low bits and its injectivity within one column are stated. `HashCollides` shows that (1, 0) and (0, 65536) both hash to 0x10000.

Not modelled:

- Floating point. `float` and `double` are modelled as exact `real` numbers. Rounding, NaN and infinities are out of scope.
- Java's (int) cast saturation at the int range, and the C++ `static_cast` of out-of-range doubles. The model truncates toward zero without a bound.
- `java.util.Random`. It is part of the JDK, not of this repository, so `Rng` is an abstract stream of draws.
- Mth::random, the mt19937 engine and setSeed (mc-cpp/src/util/Mth.cpp:89-106): these are random-number state.
- The Mth sin/cos lookup tables (mc-cpp/src/util/Mth.cpp:10-26) and the float sqrt/floor/ceil/abs wrappers. The carvers take sin and cos as parameters, and `Valid` assumes only that sin is non-negative on [0, pi).
- The generators' noise buffers, `getHeights` results and the biome source. These are inputs. The constructors' noise draws are not modelled either.
- LargeFeature.radius is a parameter, because LargeFeature.java is not part of this model. The unused Level parameter of the carvers is dropped.
- Not modelled: LargeCaveFeature, LevelChunk.recalcHeightmap, the LevelChunk class, postProcess (population) and calcWaterDepths. None of them is among the modelled generation steps.
- The carvers' ghost outputs (segments, branches, origins) exist only to state properties. They are not part of the source.
- Level.setTile's calls into the lighting engine and its listener notifications (mc-cpp/src/world/Level.cpp:91-97). Only the tile, data and height-map update is modelled.
- Level.setTile's truncation of a tile id of 256 or more to uint8. It is modelled as the id modulo 256.
- Lighting engine: queueUpdateAt, removeLightBFS, propagateLightImmediateBFS, processUpdates, propagateLightInRegion, initializeLighting, calculateSkyLightColumn, initializeBlockLight and propagateBlockLight are not modelled. calculateSkyLightColumn has the same `y > 0` scan as the first Finding below. The update-box merging and the light arrays are modelled.
- The lighting engine's worker threads and mutex (concurrency), and its null-level paths.
- The Java Font draw's GL display-list calls and colour table (src/main/java/net/minecraft/client/gui/Font.java:62-111). Only the sequence of list calls is modelled.
- The AABB ray clip (mc-cpp/src/phys/AABB.cpp:115-191). It uses vector intersection in floating point.
- Inventory.removeItem's reset when `left <= 0`. This is dead code: the count is clamped to the stack's count, and the stack is non-empty.
- Textures: the MIPMAP loop (src/main/java/net/minecraft/client/renderer/Textures.java:147-166) is not modelled, because MIPMAP is a static false. Also not modelled: makeStrip's pixels, releaseTexture, HTTP textures, tick, reloadAll and bind, which are GL and network I/O.
- Tesselator: the GPU upload and VAO (RenderDevice) and TesselatorPool are not modelled. `floatToRawIntBits` is an abstract FloatBits function.
- Path's `current(const Entity&)` (mc-cpp/include/pathfinder/Path.hpp:41) needs the entity's bounding box and is not modelled.
- PathNode.Node's `inOpenSet` and `equals` are definitions only. NegativeXCollides and HashLookupAliases show what equality by hash gets wrong.
- The liquid check in getNode (mc-cpp/src/pathfinder/PathFinder.cpp:145). It sits inside a loop that only runs while `isFree` is positive, so it can never fire. The model has no such branch.
- PathNode's distanceTo square root. Distances are compared as squared distances, which order nodes the same way.

## Findings

| source | as written | input that shows it | evidently intended | confidence | as-written member | corrected member |
|---|---|---|---|---|---|---|
| mc-cpp/src/world/Level.cpp:442-457 | updateHeightMap, called from setTile at lines 84-85, scans `y > 0`, so a blocker at y = 0 is never seen and the column records 0 | an empty column gets a blocker at y = 0 (setTile records 1), then one at y = 5 (records 6); setting y = 5 back to air rescans and records 0, though the column's true height is 1 | the rescan includes y = 0 and records 1, the value setTile itself records at line 82 when that block is placed | not executed | `Level.Level.UpdateHeightMapAsWritten`, `Level.RescanSkipsFloor` | `Level.Level.UpdateHeightMap`, used by `Level.Level.SetTile`, proved in `Level.HeightFollows` |
| mc-cpp/src/item/Inventory.cpp:80-86 | addToHotbar puts the whole count into the first empty hotbar slot, with no cap at the stack size of 64 | adding 100 of an item to an empty hotbar stores a stack of 100 in slot 0 | an empty slot takes at most 64, as the merging branch above it and `add` do | not executed | `Inventory.AddToHotbarAsWritten`, `Inventory.HotbarOverfills` | `Inventory.AddToHotbarSpec`, `Inventory.AddToHotbarKeepsStacks`, used by `Inventory.Inventory.AddToHotbar` |
| mc-cpp/src/gui/InventoryScreen.cpp:415-458 | the merge branches at lines 415 and 458 compare only item ids, not damage values | one black wool (35:15) dropped onto one white wool (35:0) gives two white wool | items stack only when id and damage both match, as in Inventory::add | not executed | `InventoryScreen.ClickAsWritten`, `InventoryScreen.MergeChangesDamage` | `InventoryScreen.Click`, `InventoryScreen.ClickKeepsKinds`, used by `InventoryScreen.InventoryScreen.HandleSlotClick` |
| mc-cpp/src/pathfinder/PathFinder.cpp:164-172 | getOrCreateNode keys nodes by x OR (y shifted left 10) OR (z shifted left 20), so a negative x sets every high bit and distinct blocks share a node; the goal test at line 60 compares nodes by that hash | the node for block (-1, 1, 0) is returned when (-1, 2, 5) is asked for: both hash to 0xFFFFFFFF | one node per block position | not executed | `PathFinder.HashLookup`, `PathFinder.HashLookupAliases`, `PathNode.NegativeXCollides` | `PathFinder.PathFinder.GetOrCreateNode`, whose node map is keyed by block position |
| src/main/java/net/minecraft/client/gui/Font.java:146-160 | after a colour code the inner loop tests `charAt(i)` again, and then the letter lookup reads `charAt(i)`, with no check that i is still inside the string | "\u00DFa", the escape (char 223) followed by 'a', a string that ends in a colour code: `charAt(2)` throws StringIndexOutOfBoundsException | a colour code at the end of the string ends the drawing | not executed | `FontJava.DrawCallsAsWritten`, `FontJava.TrailingCodeFails` | `FontJava.DrawCalls`, `FontJava.DrawGlyphsAreSanitized`, `FontJava.DrawCallsAgree` |
