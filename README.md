# Learning-LWJGL core, modelled in Dafny

This project models the parts of the Learning-LWJGL game and engine that compute something, as opposed to just driving OpenGL, GLFW or AWT:

- **Wavefront OBJ loading.** There are two loaders:
  - the engine's `ModelLoader.loadOBJModel`, which splits lines on `\s+` and switches on the first token;
  - the game's `OBJLoader.loadModel`, which splits on single spaces, recognises lines by prefix and runs two loops.

  They share `processVertex`. It resolves a face corner `p/t/n` against the collected texture coordinates and normals. It writes them into the per-vertex texture and normal arrays, which are allocated when the first face line is seen, and appends the vertex to the index list.
- **The font atlas** (`FontTexture`):
  - The width of a text is that of its widest line. Its height is the sum of the tallest glyph of each line.
  - The atlas is laid out from the glyph sizes the font reports.
  - The atlas image is packed from ARGB pixels into RGBA bytes.
- **Screenshots**: the RGBA front buffer, bottom row first, is turned into an ARGB image, top row first.
- **The game's texture loader**: its conversion loop from ARGB pixels to RGBA bytes.
- **The master renderer**:
  - entities are collected per textured model and terrains in a list;
  - a frame draws every bucket and every terrain, then clears both collections;
  - it has a wireframe flag.
- **The engine's `GameConfig`**: defaults, fluent setters and getters, and a dirty flag. The flag makes `updateGameState` push the settings to the window only after a change.
- **Keyboard state**:
  - the static `Keyboard` queries and the game's copies of them, over a 1024-entry key array;
  - the game's GLFW key callback, which records presses and releases, asks for a screenshot on F2 and toggles wireframe mode on F3.

Java exceptions become `Result`/`Option` error values that carry the fault and, for the loaders, the line that raised it.

Both loaders are given the lines the reader delivers. `OBJLoader` is also told how the reader ends (null or an `IOException`), because these take different paths in the source. Float values are not parsed: a `Float` stands for the value `Float.parseFloat` produces from its token, plus the `0`, `-1` and `1 - v` values the loaders make themselves. Pixels are `bv32` and bytes `bv8`, so the shifts and masks are the Java ones.

Modules:

| module | file | models |
|---|---|---|
| `Wrappers` | wrappers.dfy | `Option` and `Result` |
| `JavaText` | java_text.dfy | `String.split`, `startsWith`, `Integer.parseInt`, the syntax `Float.parseFloat` accepts |
| `ObjMesh` | obj_mesh.dfy | `processVertex`, face lines, the flattening loops |
| `ModelLoader` | model_loader.dfy | `ModelLoader.loadOBJModel` |
| `ObjLoader` | obj_loader.dfy | `OBJLoader.loadModel` |
| `Argb` | argb.dfy | ARGB channels and the RGBA packing loop |
| `FontText` | font_texture.dfy | `FontTexture` |
| `Screenshot` | screenshot.dfy | `Screenshot` |
| `GameTexture` | game_texture.dfy | the game's `Texture` constructor |
| `Rendering` | master_renderer.dfy | `MasterRenderer` and what `EntityRenderer` draws |
| `Config` | game_config.dfy | `GameConfig` |
| `Keyboard` | keyboard.dfy | `Keyboard` |
| `Game` | game.dfy | the key array, key callback and key queries of `Game` |

## Model

| member | source | states |
|---|---|---|
| JavaText.FieldsJoin | src/me/choco/game/utils/modelling/OBJLoader.java:36 | splitting a string on one character and joining the pieces with that character gives the string back |
| JavaText.FieldsAvoidSeparators | src/me/choco/game/utils/modelling/OBJLoader.java:61 | no piece of a split contains a separator |
| JavaText.FieldsAppend | src/me/choco/game/utils/modelling/OBJLoader.java:36 | the pieces of x + y are those of x, the last of which is joined with the first piece of y, then the rest of y's |
| JavaText.FieldsAroundSeparator | src/me/choco/game/utils/modelling/OBJLoader.java:36 | a separator between x and y gives the pieces of x followed by those of y |
| JavaText.FieldsAroundOther | src/me/choco/game/utils/modelling/OBJLoader.java:36 | a character that is not a separator joins the last piece of x and the first of y into one piece and leaves the others alone |
| JavaText.DropTrailingEmpty | src/me/choco/game/utils/modelling/OBJLoader.java:36 | split with limit 0 keeps a prefix of the pieces whose last piece is non-empty, and drops only empty pieces |
| JavaText.WhitespaceOnlySplitsToNothing | src/main/java/me/choco/learning/engine/model/ModelLoader.java:42 | a non-empty line of whitespace only splits on `\s+` into no pieces at all |
| JavaText.AllSeparatorsGiveEmptyFields | src/main/java/me/choco/learning/engine/model/ModelLoader.java:42 | a string made only of separators has no non-empty piece |
| JavaText.ParseInt | src/main/java/me/choco/learning/engine/model/ModelLoader.java:106 | every value parseInt accepts lies in the 32-bit range |
| JavaText.ParseIntRoundTrip | src/main/java/me/choco/learning/engine/model/ModelLoader.java:106 | parseInt reads back the decimal numeral of every value in the 32-bit range, unsigned, with '+' and with '-' |
| JavaText.DecimalStringValue | src/main/java/me/choco/learning/engine/model/ModelLoader.java:106 | the numeral of n is all digits and has the value n |
| ObjMesh.Zeros | src/main/java/me/choco/learning/engine/model/ModelLoader.java:58-59 | a new float[n] holds n zeros |
| ObjMesh.ApplyCornerResolves | src/main/java/me/choco/learning/engine/model/ModelLoader.java:105-123 | processVertex succeeds exactly when the corner resolves and names one of the n vertices the arrays are sized for, and then it appends that vertex to the indices and overwrites only its slots |
| ObjMesh.WriteAll | src/main/java/me/choco/learning/engine/model/ModelLoader.java:58-59 | writing corners never resizes the texture and normal arrays |
| ObjMesh.Positions | src/main/java/me/choco/learning/engine/model/ModelLoader.java:107 | one index per corner, each the corner's vertex, in order |
| ObjMesh.LastRef | src/main/java/me/choco/learning/engine/model/ModelLoader.java:109-122 | the position of the last corner naming vertex p (no later corner names p); None exactly when no corner names p |
| ObjMesh.WriteAllIndices | src/main/java/me/choco/learning/engine/model/ModelLoader.java:107 | writing corners appends their vertices to the index list in order |
| ObjMesh.WriteCornerSlots | src/main/java/me/choco/learning/engine/model/ModelLoader.java:109-122 | a corner sets the two texture and three normal slots of its own vertex and leaves every other vertex's slots unchanged |
| ObjMesh.WriteAllLastWins | src/main/java/me/choco/learning/engine/model/ModelLoader.java:109-122 | after all corners are written, a vertex's slots hold what the last corner naming it assigned, or their earlier contents if no corner names it |
| ObjMesh.Wrap32Is | src/main/java/me/choco/learning/engine/model/ModelLoader.java:106 | 32-bit wrap-around removes a whole number of 2^32 steps |
| ObjMesh.Int32SlotsAgree | src/main/java/me/choco/learning/engine/model/ModelLoader.java:106-122 | for fewer than 2^28 vertices, the slot checks under Java's 32-bit arithmetic pass exactly when 0 <= parseInt - 1 < n, as in the unbounded model, and then nothing wraps |
| ObjMesh.ProcessVertex | src/main/java/me/choco/learning/engine/model/ModelLoader.java:105-123 | processVertex on arrays: the fault, or the indices and the new array contents, are those of the step-by-step reference ApplyCorner on the old contents |
| ObjMesh.StoreTexture | src/main/java/me/choco/learning/engine/model/ModelLoader.java:109-117 | the two texture slots of vertex p receive the coordinate, or the result is the fault of the first slot outside the array |
| ObjMesh.StoreNormal | src/main/java/me/choco/learning/engine/model/ModelLoader.java:119-122 | the three normal slots of vertex p receive the normal, or the result is the fault of the first slot outside the array |
| ObjMesh.ApplyCornerIndex | src/main/java/me/choco/learning/engine/model/ModelLoader.java:106-107 | a successful processVertex appends exactly one index, which the corner's vertex field names, and keeps the array sizes |
| ObjMesh.ApplyFaceIndices | src/main/java/me/choco/learning/engine/model/ModelLoader.java:61-67 | a face line that succeeds has at least four tokens, appends the indices of its three corners and keeps the array sizes |
| ObjMesh.ProcessFace | src/main/java/me/choco/learning/engine/model/ModelLoader.java:61-67 | the face case on arrays agrees with the reference ApplyFace: the three corners are processed in order, and the first fault wins |
| ObjMesh.ResolveAll | src/main/java/me/choco/learning/engine/model/ModelLoader.java:61-67 | when every corner resolves, there is one resolved corner per field list, each resolved on its own |
| ObjMesh.ResolveAllExtends | src/main/java/me/choco/learning/engine/model/ModelLoader.java:49-56 | vt and vn lines read later do not change how an earlier corner resolves |
| ObjMesh.IndicesFromCorners | src/main/java/me/choco/learning/engine/model/ModelLoader.java:106-107 | each recorded index is one less than the parsed vertex field of its corner |
| ObjMesh.CornerMeaning | src/main/java/me/choco/learning/engine/model/ModelLoader.java:105-123 | a resolved corner names its vertex by its first field; an empty texture field gives (-1, -1), and otherwise the named vt entry with V flipped to 1 - v; the third field names the vn entry |
| ObjMesh.FlattenAt | src/main/java/me/choco/learning/engine/model/ModelLoader.java:74-82 | the positions array has three floats per vertex: x, y and z of vertex i at 3i, 3i+1 and 3i+2 |
| ObjMesh.FlattenPositions | src/main/java/me/choco/learning/engine/model/ModelLoader.java:74-82 | the vertexPointer loop fills the array with the flattened vertices |
| ObjMesh.CopyIndices | src/main/java/me/choco/learning/engine/model/ModelLoader.java:84-85 | the int[] holds the index list element for element |
| ModelLoader.RunStopsAtFault | src/main/java/me/choco/learning/engine/model/ModelLoader.java:41-72 | once a line faults, the loader's result is that fault whatever lines follow |
| ModelLoader.LoadOBJModel | src/main/java/me/choco/learning/engine/model/ModelLoader.java:30-93 | the method, with its arrays updated in place, returns the reference Load of the lines, which fails with a null-array fault when no face line left the texture and normal arrays null |
| ModelLoader.ReadLine | src/main/java/me/choco/learning/engine/model/ModelLoader.java:42-70 | one pass of the loop body turns the state into the reference Step's state, or its fault; arrays are allocated only at the first face line |
| ModelLoader.FaceLineSnoc | src/main/java/me/choco/learning/engine/model/ModelLoader.java:57-68 | one more f line adds one face and three corner field lists, and fixes the vertex count at the first face |
| ModelLoader.NonFaceLine | src/main/java/me/choco/learning/engine/model/ModelLoader.java:44-69 | a line not tagged f adds no face and no corner |
| ModelLoader.DeclaredSnoc | src/main/java/me/choco/learning/engine/model/ModelLoader.java:45-56 | a v, vt or vn line appends its vector to its own list and no other's |
| ModelLoader.FaceStepDescribed | src/main/java/me/choco/learning/engine/model/ModelLoader.java:57-68 | a face line keeps the state described by the file's declarations and corners |
| ModelLoader.OtherStepDescribed | src/main/java/me/choco/learning/engine/model/ModelLoader.java:44-56 | a declaration or ignored line keeps the state described by the file |
| ModelLoader.RunDescribed | src/main/java/me/choco/learning/engine/model/ModelLoader.java:41-71 | the state after any lines loaded without fault holds the declared vectors in file order, has arrays that are null until the first face line and then sized for the vertices declared before it, and has every corner resolved and written in order |
| ModelLoader.LoadPositions | src/main/java/me/choco/learning/engine/model/ModelLoader.java:74-82 | the positions are the x, y, z of every v line in file order |
| ModelLoader.LoadIndices | src/main/java/me/choco/learning/engine/model/ModelLoader.java:57-68 | three indices per f line in file order, each one less than its corner's vertex field |
| ModelLoader.LoadArrays | src/main/java/me/choco/learning/engine/model/ModelLoader.java:58-59 | a loaded file has a face line, and its texture and normal arrays are sized 2n and 3n for the n vertices declared before the first one |
| ModelLoader.FacelessFileFails | src/main/java/me/choco/learning/engine/model/VertexModel.java:59 | a file whose lines all parse fails with the null-array fault at the line count exactly when it has no face line, since the VertexModel constructor reads the length of the null texture array |
| ModelLoader.LoadLastCornerWins | src/main/java/me/choco/learning/engine/model/ModelLoader.java:109-122 | the slots of vertex p hold what the last corner naming p assigned, resolved against the whole file's vt and vn lists, and zeros if no corner names p |
| ModelLoader.OtherLinesIgnored | src/main/java/me/choco/learning/engine/model/ModelLoader.java:69 | a line whose first token is not v, vt, vn or f changes nothing |
| ModelLoader.EmptyLineIgnored | src/main/java/me/choco/learning/engine/model/ModelLoader.java:42-69 | the empty line changes nothing |
| ModelLoader.WhitespaceLineAborts | src/main/java/me/choco/learning/engine/model/ModelLoader.java:42-44 | a whitespace-only line makes the load fail at that line with a missing first token |
| ObjLoader.GatherStopsAtFault | src/me/choco/game/utils/modelling/OBJLoader.java:34-52 | a fault in the first loop decides its result whatever lines follow |
| ObjLoader.FirstFaceFrom | src/me/choco/game/utils/modelling/OBJLoader.java:34-52 | the position of the first "f " line at or after i, or the line count when there is none |
| ObjLoader.LoadModel | src/me/choco/game/utils/modelling/OBJLoader.java:18-85 | loadModel returns the reference Outcome of the lines and the way the reader ends, which fails when no face line is found: on the null line, or on the null arrays it hands to Loader.loadModel after a read error |
| ObjLoader.LoadFaces | src/me/choco/game/utils/modelling/OBJLoader.java:48-84 | from the first face line on (allocation, second loop, flattening), the result is SecondLoopOutcome |
| ObjLoader.DeclarationLoop | src/me/choco/game/utils/modelling/OBJLoader.java:34-52 | the first loop either stops at the first face line with the lists Gather collects, or reports the fault Gather reports |
| ObjLoader.FaceLoop | src/me/choco/game/utils/modelling/OBJLoader.java:54-68 | the second loop on arrays agrees with the reference Faces, in which each non-face line consumes two lines |
| ObjLoader.Visited | src/me/choco/game/utils/modelling/OBJLoader.java:54-58 | every line the second loop processes is a face line at or after its start |
| ObjLoader.FacesIndices | src/me/choco/game/utils/modelling/OBJLoader.java:60-67 | a successful second loop appends three indices for each face line it processes, in order, and keeps the array sizes |
| ObjLoader.VisitedAtMostFaces | src/me/choco/game/utils/modelling/OBJLoader.java:54-58 | the second loop never processes more lines than there are face lines |
| ObjLoader.SingleAdvanceVisitsAll | src/me/choco/game/utils/modelling/OBJLoader.java:54-58 | when a non-face line consumes only itself, every face line is processed |
| ObjLoader.FaceCountBeforeFirst | src/me/choco/game/utils/modelling/OBJLoader.java:47-50 | no face line lies before the first one |
| ObjLoader.OutcomeShape | src/me/choco/game/utils/modelling/OBJLoader.java:71-84 | a loaded file has a face line; the positions are the vertices declared before the first one; the texture and normal arrays are sized for those vertices; three indices for each processed face line |
| ObjLoader.FacelessFileFails | src/me/choco/game/utils/Loader.java:89 | a file whose declarations parse fails at the line count, on the null line or on the null arrays after a read error, exactly when it has no face line |
| ObjLoader.AsWrittenDropsFaces | src/me/choco/game/utils/modelling/OBJLoader.java:47-50 | a successful load comes from a file with a face line and has at least three indices fewer than its face lines call for, so none at all for a file with a single face line |
| ObjLoader.SkipsLineAfterNonFace | src/me/choco/game/utils/modelling/OBJLoader.java:55-57 | from any line on, the line after every non-face line the second loop's condition reads is never processed |
| ObjLoader.AsWrittenSkipsLineAfterNonFace | src/me/choco/game/utils/modelling/OBJLoader.java:55-57 | the line after every non-face line the second loop reads, from the line after the first face line on, is never processed, face line or not |
| ObjLoader.AsWrittenSkipsFourthFace | src/me/choco/game/utils/modelling/OBJLoader.java:55-57 | for the lines f, f, "s off", f only the second face line is processed: the first is skipped by the break and the fourth by the extra readLine |
| ObjLoader.VisitedPassesOver | src/me/choco/game/utils/modelling/OBJLoader.java:55-57 | a non-face line makes the second loop resume two lines later |
| ObjLoader.IntendedIndices | src/me/choco/game/utils/modelling/OBJLoader.java:54-67 | the corrected loader succeeds only on a file with a face line and records three indices for every face line, each its corner's vertex field minus one |
| ObjLoader.FacesIgnoreNonFace | src/me/choco/game/utils/modelling/OBJLoader.java:54-58 | replacing a non-face line with another non-face line leaves the second loop's result unchanged |
| ObjLoader.FaceStepAgrees | src/me/choco/game/utils/modelling/OBJLoader.java:60-67 | two files that agree at a face line and from the next line on give the same second loop from that line |
| ObjLoader.LateDeclarationsIgnored | src/me/choco/game/utils/modelling/OBJLoader.java:54-58 | v, vt, vn or other non-face lines after the first face line do not affect the result |
| ObjLoader.FirstFaceUnchanged | src/me/choco/game/utils/modelling/OBJLoader.java:47 | editing a line after the first face line does not move the first face line |
| Argb.RgbaOf | src/main/java/me/choco/learning/engine/rendering/text/FontTexture.java:204-207 | each pixel contributes four bytes |
| Argb.ChannelsOfPack | src/me/choco/game/utils/output/Screenshot.java:57 | a pixel packed from alpha, red, green and blue unpacks to the same four channels |
| Argb.PackOfChannels | src/me/choco/game/utils/output/Screenshot.java:57 | packing a pixel's four channels gives the pixel back |
| Argb.RgbaBytes | src/main/java/me/choco/learning/engine/rendering/text/FontTexture.java:200-209 | four bytes per pixel |
| Argb.RgbaBytesAt | src/main/java/me/choco/learning/engine/rendering/text/FontTexture.java:201-209 | byte k of pixel i (red, green, blue, alpha) sits at offset 4i + k |
| Argb.RgbaBytesSnoc | src/main/java/me/choco/learning/engine/rendering/text/FontTexture.java:203-207 | one more pixel appends its four bytes |
| Argb.PutPixel | src/main/java/me/choco/learning/engine/rendering/text/FontTexture.java:204-207 | four puts place a pixel's RGBA bytes right after the bytes already written |
| Argb.PackPixels | src/main/java/me/choco/learning/engine/rendering/text/FontTexture.java:200-209 | the packing loop fills a new buffer with the RGBA bytes of every pixel, in row-major order |
| Argb.PackRow | src/main/java/me/choco/learning/engine/rendering/text/FontTexture.java:202-208 | one row of pixels extends the packed prefix by that row's bytes |
| FontText.Lines | src/main/java/me/choco/learning/engine/rendering/text/FontTexture.java:49-53 | every text has at least one line |
| FontText.LinesStep | src/main/java/me/choco/learning/engine/rendering/text/FontTexture.java:46-53 | a '\n' starts a new empty line; any other character extends the last line |
| FontText.TextWidthIsWidestLine | src/main/java/me/choco/learning/engine/rendering/text/FontTexture.java:43-66 | no line is wider than the text's width, and some line is exactly that wide |
| FontText.MaxWidthIsWidest | src/main/java/me/choco/learning/engine/rendering/text/FontTexture.java:50-64 | the maximum width of a list of lines is at least each line's width and equal to one |
| FontText.LineHeightIsTallest | src/main/java/me/choco/learning/engine/rendering/text/FontTexture.java:74-97 | no character is taller than its line's height, and unless that height is 0 some character is exactly that tall |
| FontText.EmptyTextMeasuresZero | src/main/java/me/choco/learning/engine/rendering/text/FontTexture.java:43-97 | the empty text is 0 wide and 0 high |
| FontText.LineWidthAppend | src/main/java/me/choco/learning/engine/rendering/text/FontTexture.java:61 | the width of a line is additive over concatenation |
| FontText.LineHeightAppend | src/main/java/me/choco/learning/engine/rendering/text/FontTexture.java:74-97 | the height of a concatenated line is the larger of the two heights |
| FontText.MaxWidthAppend | src/main/java/me/choco/learning/engine/rendering/text/FontTexture.java:50-64 | the widest of two lists of lines is the wider of their widest lines |
| FontText.SumHeightsAppend | src/main/java/me/choco/learning/engine/rendering/text/FontTexture.java:74-97 | line heights add over concatenated lists of lines |
| FontText.TextOnSeparateLines | src/main/java/me/choco/learning/engine/rendering/text/FontTexture.java:43-97 | two texts joined by '\n': the width is the wider of the two, and the heights add |
| FontText.IgnoredCharacter | src/main/java/me/choco/learning/engine/rendering/text/FontTexture.java:55-59 | a carriage return, or a character without a glyph, changes neither width nor height |
| FontText.FontTexture.GetWidth | src/main/java/me/choco/learning/engine/rendering/text/FontTexture.java:43-66 | the loop's result is the width of the widest line |
| FontText.FontTexture.GetHeight | src/main/java/me/choco/learning/engine/rendering/text/FontTexture.java:74-97 | the loop's result is the sum of the lines' heights |
| FontText.FontTexture.constructor | src/main/java/me/choco/learning/engine/rendering/text/FontTexture.java:31-35 | the font texture holds the given glyphs, height and texture |
| FontText.MeasureSums | src/main/java/me/choco/learning/engine/rendering/text/FontTexture.java:158-167 | the measured width is the sum of the widths of the codes from 32 on (127 skipped), and the measured height is that of the tallest measured glyph: none is taller, and unless it is 0 some glyph is exactly that tall |
| FontText.PlacementOf | src/main/java/me/choco/learning/engine/rendering/text/FontTexture.java:173-186 | a code gets a glyph exactly when it is placed, from the start code on; the glyph's x is the sum of the widths placed before it, and its bottom is on the atlas's bottom edge |
| FontText.PlacedCodes | src/main/java/me/choco/learning/engine/rendering/text/FontTexture.java:174 | every glyph comes from a code the loop visits |
| FontText.WidthSumSplit | src/main/java/me/choco/learning/engine/rendering/text/FontTexture.java:165 | width sums over adjacent code ranges add |
| FontText.IntendedGlyphsFit | src/main/java/me/choco/learning/engine/rendering/text/FontTexture.java:158-186 | when placing starts at 32, every glyph lies inside the atlas, after the glyphs before it |
| FontText.ControlGlyphPushesPastAtlas | src/main/java/me/choco/learning/engine/rendering/text/FontTexture.java:174 | as written, a font with a glyph for code 0 gets a 7-wide atlas in which 'A' is placed at x = 5, and so extends past the atlas's edge |
| FontText.MeasureGlyphs | src/main/java/me/choco/learning/engine/rendering/text/FontTexture.java:154-167 | the measuring loop returns the reference measurement, or its first failure |
| FontText.PlaceGlyphs | src/main/java/me/choco/learning/engine/rendering/text/FontTexture.java:173-187 | the placement loop returns the reference placement from code 0 |
| FontText.MeasureStaysFailed | src/main/java/me/choco/learning/engine/rendering/text/FontTexture.java:162-163 | after a failure the measuring loop's result stays that failure |
| FontText.NewFontTexture | src/main/java/me/choco/learning/engine/rendering/text/FontTexture.java:153-216 | creating the atlas gives the laid-out glyphs, the atlas height and the RGBA bytes of the atlas image; otherwise the failure of the layout |
| Screenshot.FlippedRow | src/me/choco/game/utils/output/Screenshot.java:57 | the flipped row lies inside the image |
| Screenshot.FlipIsInvolution | src/me/choco/game/utils/output/Screenshot.java:57 | flipping a row twice gives the row back |
| Screenshot.FlipIsInjective | src/me/choco/game/utils/output/Screenshot.java:57 | two source rows land on the same image row exactly when they are the same row |
| Screenshot.OffsetInBounds | src/me/choco/game/utils/output/Screenshot.java:51 | all four bytes of every pixel lie inside the width * height * 4 buffer |
| Screenshot.ImagePixelReadsBack | src/me/choco/game/utils/output/Screenshot.java:51-57 | the image pixel of source pixel (x, y) sits on the flipped row and reads back as the source's red, green and blue bytes with alpha 0xFF |
| Screenshot.AlphaBytesIgnored | src/me/choco/game/utils/output/Screenshot.java:53-57 | buffers that differ only in their alpha bytes give the same screenshot |
| Screenshot.RenderScreenshot | src/me/choco/game/utils/output/Screenshot.java:46-60 | a new width x height image in which every pixel is its source pixel from the flipped row |
| Screenshot.Screenshot.constructor | src/me/choco/game/utils/output/Screenshot.java:23-31 | the screenshot of a 720 x 480 front buffer is its rendered image |
| GameTexture.Column | src/me/choco/game/models/textures/Texture.java:32-33 | the inner loop reads height pixels per column |
| GameTexture.ColumnReads | src/me/choco/game/models/textures/Texture.java:31-33 | the loops read n * height pixels for n columns |
| GameTexture.ColumnReadsAt | src/me/choco/game/models/textures/Texture.java:31-33 | the read at (x, y) is the (x * height + y)-th pixel emitted, and it is pixel x * width + y |
| GameTexture.ReadStaysInside | src/me/choco/game/models/textures/Texture.java:33 | on an image no wider than tall, every read index is below width * height |
| GameTexture.LastReadOutside | src/me/choco/game/models/textures/Texture.java:33 | on an image wider than tall, the last read is past the end |
| GameTexture.ReadsInBoundsIff | src/me/choco/game/models/textures/Texture.java:31-33 | for non-empty images, the reads stay in bounds exactly when width <= height |
| GameTexture.SquareColumn | src/me/choco/game/models/textures/Texture.java:31-33 | on a square image, column m is the m-th run of n pixels |
| GameTexture.SquareReadsInOrder | src/me/choco/game/models/textures/Texture.java:31-33 | a square image is read in row-major order |
| GameTexture.WideImageReadsPastEnd | src/me/choco/game/models/textures/Texture.java:33 | on a 2 x 1 image the loop reads index 2 of two pixels |
| GameTexture.TallImageRepeatsPixel | src/me/choco/game/models/textures/Texture.java:33 | on an image taller than wide, and wider than 1, the pixel at index width is emitted twice |
| GameTexture.TallImageSkipsLastPixel | src/me/choco/game/models/textures/Texture.java:33 | on such an image the last pixel is never read |
| GameTexture.RgbaBytesGrow | src/me/choco/game/models/textures/Texture.java:35-38 | one more pixel of a column appends its four bytes |
| GameTexture.ConvertColumn | src/me/choco/game/models/textures/Texture.java:32-39 | the inner loop completes exactly when every read of the column is in bounds, and then appends the column's RGBA bytes |
| GameTexture.ConvertPixels | src/me/choco/game/models/textures/Texture.java:29-40 | the loops complete exactly when width <= height, and then the buffer holds the RGBA bytes of the pixels in the order the loops read them |
| GameTexture.LoadTexture | src/me/choco/game/models/textures/Texture.java:17-40 | a missing image fails at the width lookup; a wide image fails in the loop; otherwise the texture has the image's size and the bytes the loops emit |
| GameTexture.IntendedLoadTexture | src/me/choco/game/models/textures/Texture.java:26-40 | the corrected loader emits the image's pixels in row-major order for every size |
| GameTexture.SquareTexturesAgree | src/me/choco/game/models/textures/Texture.java:31-33 | on square images the loaders as written and as corrected read the same bytes |
| Rendering.Submit | src/me/choco/game/utils/rendering/MasterRenderer.java:77-85 | processEntity adds the entity's model to the keys and no other key |
| Rendering.SubmitKeepsWellKeyed | src/me/choco/game/utils/rendering/MasterRenderer.java:77-85 | every bucket keeps holding only entities of its own model |
| Rendering.SubmitAllBuckets | src/me/choco/game/utils/rendering/MasterRenderer.java:79-84 | after a run of processEntity calls, a bucket holds its old entities followed by the submitted entities of its model, in submission order |
| Rendering.SubmitAllKeys | src/me/choco/game/utils/rendering/MasterRenderer.java:77-85 | a run of submissions adds exactly the submitted models as keys |
| Rendering.OfModelAppend | src/me/choco/game/utils/rendering/EntityRenderer.java:33-45 | keeping one model's entities distributes over concatenation |
| Rendering.BucketModels | src/me/choco/game/utils/rendering/MasterRenderer.java:79-84 | the entities of a bucket carry its model |
| Rendering.DrawsKeepBucketOrder | src/me/choco/game/utils/rendering/EntityRenderer.java:33-45 | within a frame, the entities of one model are drawn in their bucket's order, whatever order the models are visited in |
| Rendering.EntityDrawsOfSubmissions | src/me/choco/game/utils/rendering/EntityRenderer.java:33-45 | the draws of a frame are the frame's submissions bucket by bucket |
| Rendering.DrawsOfIsVisited | src/me/choco/game/utils/rendering/EntityRenderer.java:33-45 | as a multiset, the draws are the submissions whose model is visited |
| Rendering.SubmissionsDrawnOnce | src/me/choco/game/utils/rendering/MasterRenderer.java:52-69 | each entity submitted during a frame is drawn exactly once by that frame's render, whatever the key order |
| Rendering.MasterRenderer.constructor | src/me/choco/game/utils/rendering/MasterRenderer.java:29-40 | a new renderer has no entities, no terrains and wireframe mode off |
| Rendering.MasterRenderer.ProcessEntity | src/me/choco/game/utils/rendering/MasterRenderer.java:77-85 | the entity is appended to its model's bucket, which is created on first use; terrains and mode are unchanged |
| Rendering.MasterRenderer.ProcessTerrain | src/me/choco/game/utils/rendering/MasterRenderer.java:87-89 | the terrain is appended; nothing else changes |
| Rendering.MasterRenderer.Render | src/me/choco/game/utils/rendering/MasterRenderer.java:52-69 | the frame draws every bucket in key order, then every terrain, and leaves both collections empty |
| Rendering.MasterRenderer.SetWireframeMode | src/me/choco/game/utils/rendering/MasterRenderer.java:111-123 | isWireframeMode afterwards returns the mode set; the collections are unchanged |
| Config.SwapIntervalOf | src/main/java/me/choco/learning/engine/GameConfig.java:94 | the swap interval is 1 exactly when vsync is on, and 0 exactly when it is off |
| Config.PushBringsWindowInLine | src/main/java/me/choco/learning/engine/GameConfig.java:87-97 | pushing a configuration leaves any window current, with that title, width and height, and a swap interval that matches vsync |
| Config.GameConfig.constructor | src/main/java/me/choco/learning/engine/GameConfig.java:7-18 | the getters of a new config return the defaults: empty title, 1080 x 720, FPS cap Integer.MAX_VALUE, 20 UPS, no vsync; it is not dirty |
| Config.GameConfig.SetTitle | src/main/java/me/choco/learning/engine/GameConfig.java:20-28 | getTitle afterwards returns the title set, the dirty flag is set and the same config is returned; the other settings are unchanged |
| Config.GameConfig.SetWidth | src/main/java/me/choco/learning/engine/GameConfig.java:30-38 | getWidth afterwards returns the width set, the dirty flag is set and the same config is returned; the other settings are unchanged |
| Config.GameConfig.SetHeight | src/main/java/me/choco/learning/engine/GameConfig.java:40-48 | getHeight afterwards returns the height set, the dirty flag is set and the same config is returned; the other settings are unchanged |
| Config.GameConfig.SetMaxFPS | src/main/java/me/choco/learning/engine/GameConfig.java:50-58 | getMaxFPS afterwards returns the FPS cap set, the dirty flag is set and the same config is returned; the other settings are unchanged |
| Config.GameConfig.SetMaxUPS | src/main/java/me/choco/learning/engine/GameConfig.java:60-68 | getMaxUPS afterwards returns the UPS rate set, the dirty flag is set and the same config is returned; the other settings are unchanged |
| Config.GameConfig.SetVsync | src/main/java/me/choco/learning/engine/GameConfig.java:70-78 | isVsync afterwards returns the vsync set, the dirty flag is set and the same config is returned; the other settings are unchanged |
| Config.GameConfig.UpdateGameState | src/main/java/me/choco/learning/engine/GameConfig.java:87-97 | only after a change are the settings pushed and the flag cleared; otherwise nothing is sent; either way the config is not dirty afterwards, so a second call sends nothing |
| Keyboard.Pressed | src/me/choco/game/io/Keyboard.java:7-9 | the query succeeds exactly for a key inside the array |
| Keyboard.Released | src/me/choco/game/io/Keyboard.java:18-20 | the query succeeds exactly for a key inside the array |
| Keyboard.ReleasedIsNotPressed | src/me/choco/game/io/Keyboard.java:7-20 | a key is released exactly when it is not pressed, and both queries fail together |
| Keyboard.AllPressedMeans | src/me/choco/game/io/Keyboard.java:11-16 | areKeysPressed fails exactly when some key is out of range, and otherwise holds exactly when every listed key is pressed (so it holds for no keys) |
| Keyboard.AllReleasedMeans | src/me/choco/game/io/Keyboard.java:22-27 | areKeysReleased fails exactly when some key is out of range, and otherwise holds exactly when no listed key is pressed |
| Keyboard.AreKeysPressed | src/me/choco/game/io/Keyboard.java:11-16 | the loop over the array returns the reference AllPressed, and the array is only read |
| Keyboard.AreKeysReleased | src/me/choco/game/io/Keyboard.java:22-27 | the loop over the array returns the reference AllReleased, and the array is only read |
| Game.Game.constructor | src/me/choco/game/Game.java:60-62 | a fresh 1024-entry key array with every key up |
| Game.Game.KeyCallback | src/me/choco/game/Game.java:90-108 | a press sets its key and a release clears it; other actions change no key; F2 pressed asks for a screenshot; F3 pressed flips the renderer's wireframe mode and nothing else; a key outside the array fails and changes nothing |
| Game.Game.IsKeyPressed | src/me/choco/game/Game.java:182-184 | the key's pressed state in the game's own array, or a failure outside it |
| Game.Game.IsKeyReleased | src/me/choco/game/Game.java:193-195 | the key's released state in the game's own array, or a failure outside it |
| Game.Game.AreKeysPressed | src/me/choco/game/Game.java:186-191 | areKeysPressed over the game's own array |
| Game.Game.AreKeysReleased | src/me/choco/game/Game.java:197-202 | areKeysReleased over the game's own array |
| Game.UnknownKeyIsOutOfRange | src/me/choco/game/Game.java:90-92 | GLFW's unknown key (-1) is outside the array, while F2 and F3 are inside it |

## Left out

- OpenGL, GLFW and AWT: shaders, matrices, VAOs, texture uploads and the drawing done by `EntityRenderer` and `TerrainRenderer`. A draw is recorded as the entity or terrain it draws.
- File and resource I/O: each loader gets the lines read, `Texture` gets the decoded image (or none), and the screenshot gets the front buffer. `Screenshot.saveToDesktop`, `ImageIO` and the date format are not modelled.
- In `OBJLoader`, a file that cannot be opened (which leaves the reader null) is not modelled: the loader always gets lines.
- Float parsing: a parsed float is identified by its token, not by its IEEE value. `IsFloatText` recognises decimal syntax, NaN and Infinity, but not hexadecimal float literals.
- `HashMap` iteration order in `MasterRenderer.render` is not modelled. It is a parameter of `Render` that lists every key once, and `SubmissionsDrawnOnce` holds for every such order.
- `TexturedModel` equality is identity, modelled as an id. The entities' poses, the camera and the light used while rendering are not modelled.
- The window behind `updateGameState` is not modelled. `UpdateGameState` returns the commands it sends, and `WindowState` gives their effect.
- `GameConfig.constructNewWindow`, the game loop's timing and the camera's key handling are not modelled.
- `Keyboard`'s static array is a parameter of its queries rather than global state.
- In `FontTexture`, these AWT parts are not modelled:
  - `createCharImage`'s font metrics: the glyph sizes are an input;
  - the glyph drawing and the `AffineTransform` flip: the flipped image's pixels are an input;
  - `drawText`;
  - `toFloatBuffer`.
- FontText.FontTexture.GetWidth and FontText.FontTexture.GetHeight: return unbounded naturals, so they do not model 32-bit overflow of Java's int sums, which would need texts billions of pixels wide.
- Screenshot.RenderScreenshot: requires a positive width and height because `new BufferedImage` throws otherwise. The only caller passes the 720 x 480 window size.
- GameTexture.ConvertPixels and Argb.PackPixels: they use unbounded products, so they do not model Java's 32-bit overflow of `width * height * 4`. `ObjMesh.Int32SlotsAgree` covers the 32-bit arithmetic of the loaders' array slots.
- JavaText.ParseInt: accepts only the ASCII digits '0' to '9'. Java's `Integer.parseInt` goes through `Character.digit`, which also accepts the decimal digits of other scripts (an Arabic-Indic "١" parses as 1). Such a token is rejected here with the NumberFormatException fault instead of read as a number.
- Game.Game.KeyCallback: does not take a screenshot itself. It returns `Ok(true)` for the F2 press that calls `new Screenshot(...)` and saving it. ESC is handled by the game loop (`Game.java:161-162`), not by the callback, and is not modelled.

## Findings

| source | as written | input that shows it | evidently intended | confidence | as-written member | corrected member |
|---|---|---|---|---|---|---|
| src/me/choco/game/utils/modelling/OBJLoader.java:47-54 | the first loop breaks at the first "f " line after allocating the arrays, and the second loop starts reading at the next line, so the first face is never processed | a file of three v lines, one vn line and the single line "f 1//1 2//1 3//1" loads with no indices at all | every face line, the first included, is processed | high, not executed | ObjLoader.AsWrittenDropsFaces | ObjLoader.IntendedIndices |
| src/me/choco/game/utils/modelling/OBJLoader.java:55-57 | a non-face line in the second loop calls readLine once more before `continue`, and the loop condition reads again, so the line after it is discarded | faces separated by an "s off" or "usemtl" line: the face line right after it is dropped | a non-face line is simply passed over | high, not executed | ObjLoader.AsWrittenSkipsLineAfterNonFace | ObjLoader.IntendedIndices |
| src/main/java/me/choco/learning/engine/rendering/text/FontTexture.java:174 | the placement loop starts at code 0 while the measuring loop (line 158) starts at 32, so glyphs of control codes move the printable glyphs right without the atlas being widened for them | a font with a 5-wide glyph for code 0 and a 7-wide 'A': the atlas is 7 wide and 'A' is placed at x = 5 | both loops cover the same codes, 32 to 255 without 127 | medium, not executed | FontText.ControlGlyphPushesPastAtlas | FontText.IntendedGlyphsFit |
| src/me/choco/game/models/textures/Texture.java:33 | pixel `x * width + y` with x over the width and y over the height is row-major only for square images | a 2 x 1 image reads index 2 of its two pixels and throws; a 2 x 3 image emits pixel 2 twice and never reads pixel 5 | pixel `y * width + x`, emitted row by row | high, not executed | GameTexture.WideImageReadsPastEnd | GameTexture.IntendedLoadTexture |
