/**
 * ModelLoader.loadOBJModel, the engine's Wavefront OBJ loader: lines are
 * split on runs of whitespace and dispatched on their first token; v, vt
 * and vn lines collect vectors; f lines allocate the texture and normal
 * arrays once, at the first face, and hand their three corners to
 * processVertex; at the end the positions and indices are flattened.
 */
module ModelLoader {
  import opened Wrappers
  import opened JavaText
  import opened ObjMesh

  /** The fault and the (0-based) line that raised it. */
  datatype LoadError = LoadError(line: nat, fault: Fault)

  /** The loader's lists and arrays after some lines; None is a null array. */
  datatype Reading = Reading(vertices: seq<Vec3>, textures: seq<Vec2>, normals: seq<Vec3>,
                             indices: seq<int>, tex: Option<seq<Float>>, norm: Option<seq<Float>>)

  const Start: Reading := Reading([], [], [], [], None, None)

  function Tokens(line: string): seq<string> {
    SplitOnWhitespace(line)
  }

  /** The f case: allocate the arrays if they are still null, then read
      tokens 1 to 3 and process their corners in order. */
  function FaceLine(tokens: seq<string>, st: Reading): Result<Reading, Fault> {
    var tex := if st.tex.None? then Zeros(|st.vertices| * 2) else st.tex.value;
    var norm := if st.norm.None? then Zeros(|st.vertices| * 3) else st.norm.value;
    var a :- ApplyFace(tokens, st.textures, st.normals, Attributes(st.indices, tex, norm));
    Ok(st.(indices := a.indices, tex := Some(a.tex), norm := Some(a.norm)))
  }

  /** One pass of the readLine loop: the switch on the first token. */
  function Step(st: Reading, line: string): Result<Reading, Fault> {
    var tokens := Tokens(line);
    if |tokens| == 0 then Err(MissingField(0))
    else if tokens[0] == "v" then
      var v :- Vec3Fields(tokens);
      Ok(st.(vertices := st.vertices + [v]))
    else if tokens[0] == "vt" then
      var t :- Vec2Fields(tokens);
      Ok(st.(textures := st.textures + [t]))
    else if tokens[0] == "vn" then
      var n :- Vec3Fields(tokens);
      Ok(st.(normals := st.normals + [n]))
    else if tokens[0] == "f" then FaceLine(tokens, st)
    else Ok(st)
  }

  /** The state after the given lines, or the first fault. */
  function Run(lines: seq<string>): Result<Reading, LoadError> {
    if |lines| == 0 then Ok(Start)
    else
      match Run(lines[..|lines| - 1])
      case Err(e) => Err(e)
      case Ok(st) =>
        match Step(st, lines[|lines| - 1])
        case Ok(st') => Ok(st')
        case Err(f) => Err(LoadError(|lines| - 1, f))
  }

  /** What loadOBJModel returns for the lines the reader delivers. After the
      last line the VertexModel constructor reads the lengths of the texture
      and normal arrays, which throws while they are still null. */
  function Load(lines: seq<string>): Result<VertexModel, LoadError> {
    var st :- Run(lines);
    if st.tex.None? || st.norm.None? then Err(LoadError(|lines|, NullArrays))
    else Ok(VertexModel(Flatten(st.vertices), st.indices, st.tex.value, st.norm.value))
  }

  /** Once a line has failed, later lines do not matter. */
  lemma {:induction false} RunStopsAtFault(lines: seq<string>, i: nat)
    requires i < |lines| && Run(lines[..i + 1]).Err?
    ensures Run(lines) == Run(lines[..i + 1])
    decreases |lines|
  {
    if |lines| > i + 1 {
      var init := lines[..|lines| - 1];
      assert init[..i + 1] == lines[..i + 1];
      RunStopsAtFault(init, i);
    } else {
      assert lines[..i + 1] == lines;
    }
  }

  function ArrayValue(a: array?<Float>): Option<seq<Float>>
    reads a
  {
    if a == null then None else Some(a[..])
  }

  /** loadOBJModel on the lines the reader delivers before it reports the end
      of the file or throws the IOException the method swallows. */
  method LoadOBJModel(lines: seq<string>) returns (r: Result<VertexModel, LoadError>)
    ensures r == Load(lines)
  {
    var vertices: seq<Vec3> := [];
    var textureCoords: seq<Vec2> := [];
    var normals: seq<Vec3> := [];
    var indices: seq<int> := [];
    var textureCoordsArray: array?<Float> := null;
    var normalsArray: array?<Float> := null;

    var i := 0;
    while i < |lines|
      invariant 0 <= i <= |lines|
      invariant (textureCoordsArray == null) == (normalsArray == null)
      invariant textureCoordsArray != null ==> textureCoordsArray != normalsArray
      invariant textureCoordsArray != null ==> fresh(textureCoordsArray) && fresh(normalsArray)
      invariant Run(lines[..i]) == Ok(Reading(vertices, textureCoords, normals, indices,
                                              ArrayValue(textureCoordsArray), ArrayValue(normalsArray)))
    {
      assert lines[..i + 1][..i] == lines[..i];
      var fault;
      vertices, textureCoords, normals, indices, textureCoordsArray, normalsArray, fault :=
        ReadLine(lines[i], vertices, textureCoords, normals, indices, textureCoordsArray, normalsArray);
      if fault.Some? {
        RunStopsAtFault(lines, i);
        return Err(LoadError(i, fault.value));
      }
      i := i + 1;
    }
    assert lines[..i] == lines;

    var verticesArray := FlattenPositions(vertices);
    var indicesArray := CopyIndices(indices);
    if textureCoordsArray == null || normalsArray == null {
      return Err(LoadError(|lines|, NullArrays));
    }
    r := Ok(VertexModel(verticesArray[..], indicesArray[..], textureCoordsArray[..], normalsArray[..]));
  }

  /** One pass of the loop in loadOBJModel: split the line and switch on its
      first token. */
  method ReadLine(line: string, vertices: seq<Vec3>, textureCoords: seq<Vec2>, normals: seq<Vec3>,
                  indices: seq<int>, textureCoordsArray: array?<Float>, normalsArray: array?<Float>)
    returns (vertices': seq<Vec3>, textureCoords': seq<Vec2>, normals': seq<Vec3>, indices': seq<int>,
             textureCoordsArray': array?<Float>, normalsArray': array?<Float>, fault: Option<Fault>)
    requires (textureCoordsArray == null) == (normalsArray == null)
    requires textureCoordsArray != null ==> textureCoordsArray != normalsArray
    modifies textureCoordsArray, normalsArray
    ensures (textureCoordsArray' == null) == (normalsArray' == null)
    ensures textureCoordsArray' != null ==> textureCoordsArray' != normalsArray'
    ensures textureCoordsArray' != null ==>
              (textureCoordsArray' == textureCoordsArray && normalsArray' == normalsArray) ||
              (fresh(textureCoordsArray') && fresh(normalsArray'))
    ensures var st := Reading(vertices, textureCoords, normals, indices,
                              old(ArrayValue(textureCoordsArray)), old(ArrayValue(normalsArray)));
      match Step(st, line)
      case Err(f) => fault == Some(f)
      case Ok(st') =>
        fault.None? &&
        st' == Reading(vertices', textureCoords', normals', indices',
                       ArrayValue(textureCoordsArray'), ArrayValue(normalsArray'))
  {
    vertices', textureCoords', normals', indices' := vertices, textureCoords, normals, indices;
    textureCoordsArray', normalsArray' := textureCoordsArray, normalsArray;
    fault := None;
    var currentLine := SplitOnWhitespace(line);
    if |currentLine| == 0 {
      fault := Some(MissingField(0));
    } else if currentLine[0] == "v" {
      var vertex := Vec3Fields(currentLine);
      if vertex.Err? { fault := Some(vertex.error); } else { vertices' := vertices + [vertex.value]; }
    } else if currentLine[0] == "vt" {
      var textureCoord := Vec2Fields(currentLine);
      if textureCoord.Err? { fault := Some(textureCoord.error); } else { textureCoords' := textureCoords + [textureCoord.value]; }
    } else if currentLine[0] == "vn" {
      var normal := Vec3Fields(currentLine);
      if normal.Err? { fault := Some(normal.error); } else { normals' := normals + [normal.value]; }
    } else if currentLine[0] == "f" {
      if textureCoordsArray' == null {
        textureCoordsArray' := new Float[|vertices| * 2](_ => Zero);
        assert textureCoordsArray'[..] == Zeros(|vertices| * 2);
      }
      if normalsArray' == null {
        normalsArray' := new Float[|vertices| * 3](_ => Zero);
        assert normalsArray'[..] == Zeros(|vertices| * 3);
      }
      indices', fault := ProcessFace(currentLine, indices, textureCoords, normals, textureCoordsArray', normalsArray');
    }
  }

  // ----- the model described from the file alone -----

  /** A line whose first whitespace-separated token is tag. */
  predicate IsTag(line: string, tag: string) {
    var t := Tokens(line);
    |t| > 0 && t[0] == tag
  }

  /** The vectors of the lines tagged tag, in file order (lines that do not
      parse contribute nothing; a loaded file has none). */
  function Declared3(lines: seq<string>, tag: string): seq<Vec3> {
    if |lines| == 0 then []
    else
      var last := lines[|lines| - 1];
      Declared3(lines[..|lines| - 1], tag) +
        (if IsTag(last, tag) && Vec3Fields(Tokens(last)).Ok? then [Vec3Fields(Tokens(last)).value] else [])
  }

  function Vertices(lines: seq<string>): seq<Vec3> {
    Declared3(lines, "v")
  }

  function VertexNormals(lines: seq<string>): seq<Vec3> {
    Declared3(lines, "vn")
  }

  function TexCoords(lines: seq<string>): seq<Vec2> {
    if |lines| == 0 then []
    else
      var last := lines[|lines| - 1];
      TexCoords(lines[..|lines| - 1]) +
        (if IsTag(last, "vt") && Vec2Fields(Tokens(last)).Ok? then [Vec2Fields(Tokens(last)).value] else [])
  }

  function FaceCount(lines: seq<string>): nat {
    if |lines| == 0 then 0
    else FaceCount(lines[..|lines| - 1]) + (if IsTag(lines[|lines| - 1], "f") then 1 else 0)
  }

  /** The corners of the face lines, each split on '/', in file order:
      tokens 1 to 3 of every f line that has them; further tokens are unread. */
  function FaceFields(lines: seq<string>): seq<seq<string>> {
    if |lines| == 0 then []
    else
      var t := Tokens(lines[|lines| - 1]);
      FaceFields(lines[..|lines| - 1]) +
        (if IsTag(lines[|lines| - 1], "f") && |t| >= 4
         then [SplitOn(t[1], '/'), SplitOn(t[2], '/'), SplitOn(t[3], '/')] else [])
  }

  /** The number of vertices declared before the first face line, if any. */
  function FirstFaceVertices(lines: seq<string>): Option<nat> {
    if |lines| == 0 then None
    else
      var init := lines[..|lines| - 1];
      if FirstFaceVertices(init).Some? then FirstFaceVertices(init)
      else if IsTag(lines[|lines| - 1], "f") then Some(|Vertices(init)|)
      else None
  }

  /** What the reference functions promise about a state reached from lines. */
  predicate Describes(st: Reading, lines: seq<string>) {
    st.vertices == Vertices(lines) && st.textures == TexCoords(lines) && st.normals == VertexNormals(lines) &&
    |FaceFields(lines)| == 3 * FaceCount(lines) &&
    (FaceCount(lines) == 0 <==> FirstFaceVertices(lines).None?) &&
    (st.tex.None? <==> FirstFaceVertices(lines).None?) && (st.norm.None? <==> FirstFaceVertices(lines).None?) &&
    ResolveAll(FaceFields(lines), st.textures, st.normals).Some? &&
    var cs := ResolveAll(FaceFields(lines), st.textures, st.normals).value;
    match FirstFaceVertices(lines)
    case None => cs == [] && st.indices == []
    case Some(n) =>
      st.tex.Some? && st.norm.Some? &&
      (forall k :: 0 <= k < |cs| ==> 0 <= cs[k].pos < n) &&
      Attributes(st.indices, st.tex.value, st.norm.value) == WriteAll(Blank(n), cs, n)
  }

  /** The face references after one more face line. */
  lemma FaceLineSnoc(lines: seq<string>, line: string)
    requires IsTag(line, "f")
    ensures FaceCount(lines + [line]) == FaceCount(lines) + 1
    ensures var t := Tokens(line);
      FaceFields(lines + [line]) == FaceFields(lines) +
        (if |t| >= 4 then [SplitOn(t[1], '/'), SplitOn(t[2], '/'), SplitOn(t[3], '/')] else [])
    ensures FirstFaceVertices(lines + [line]) ==
      if FirstFaceVertices(lines).Some? then FirstFaceVertices(lines) else Some(|Vertices(lines)|)
  {
    var L := lines + [line];
    assert L[..|L| - 1] == lines;
  }

  /** The three corners of a successful face line, processed into arrays
      that held the earlier corners, hold those and these three, in order. */
  lemma FaceCorners(t: seq<string>, st: Reading, fs: seq<seq<string>>, cs: seq<Corner>, n: nat)
    requires |t| >= 4 && FaceLine(t, st).Ok?
    requires ResolveAll(fs, st.textures, st.normals) == Some(cs)
    requires forall k :: 0 <= k < |cs| ==> 0 <= cs[k].pos < n
    requires Attributes(st.indices, if st.tex.None? then Zeros(|st.vertices| * 2) else st.tex.value,
                        if st.norm.None? then Zeros(|st.vertices| * 3) else st.norm.value)
             == WriteAll(Blank(n), cs, n)
    ensures var fs' := fs + [SplitOn(t[1], '/'), SplitOn(t[2], '/'), SplitOn(t[3], '/')];
      var st' := FaceLine(t, st).value;
      ResolveAll(fs', st.textures, st.normals).Some? &&
      var cs' := ResolveAll(fs', st.textures, st.normals).value;
      (forall k :: 0 <= k < |cs'| ==> 0 <= cs'[k].pos < n) &&
      st'.vertices == st.vertices && st'.textures == st.textures && st'.normals == st.normals &&
      st'.tex.Some? && st'.norm.Some? &&
      Attributes(st'.indices, st'.tex.value, st'.norm.value) == WriteAll(Blank(n), cs', n)
  {
    var a0 := Attributes(st.indices, if st.tex.None? then Zeros(|st.vertices| * 2) else st.tex.value,
                         if st.norm.None? then Zeros(|st.vertices| * 3) else st.norm.value);
    var d1, d2, d3 := SplitOn(t[1], '/'), SplitOn(t[2], '/'), SplitOn(t[3], '/');
    OneCorner(d1, st.textures, st.normals, fs, cs, n, a0);
    var a1 := ApplyCorner(d1, st.textures, st.normals, a0).value;
    OneCorner(d2, st.textures, st.normals, fs + [d1], ResolveAll(fs + [d1], st.textures, st.normals).value, n, a1);
    var a2 := ApplyCorner(d2, st.textures, st.normals, a1).value;
    OneCorner(d3, st.textures, st.normals, fs + [d1] + [d2], ResolveAll(fs + [d1] + [d2], st.textures, st.normals).value, n, a2);
    AppendThree(fs, d1, d2, d3);
  }

  /** A successful f line extends the description by its three corners. */
  lemma FaceStepDescribed(st: Reading, lines: seq<string>, line: string)
    requires Describes(st, lines) && IsTag(line, "f") && Step(st, line).Ok?
    ensures Describes(Step(st, line).value, lines + [line])
  {
    var L := lines + [line];
    FaceLineSnoc(lines, line);
    DeclaredSnoc(lines, line);
    var t := Tokens(line);
    assert Step(st, line) == FaceLine(t, st);
    var n := FirstFaceVertices(L).value;
    FaceCorners(t, st, FaceFields(lines), ResolveAll(FaceFields(lines), st.textures, st.normals).value, n);
    FaceStepAssembled(st, FaceLine(t, st).value, lines, L, n);
  }

  /** The description of lines extended by one face line, put together from
      what that line does to the state and to the reference functions. */
  lemma FaceStepAssembled(st: Reading, st': Reading, lines: seq<string>, L: seq<string>, n: nat)
    requires Describes(st, lines)
    requires FaceCount(L) == FaceCount(lines) + 1 && |FaceFields(L)| == |FaceFields(lines)| + 3
    requires FirstFaceVertices(L) == Some(n)
    requires Vertices(L) == st'.vertices == st.vertices
    requires TexCoords(L) == st'.textures == st.textures
    requires VertexNormals(L) == st'.normals == st.normals
    requires ResolveAll(FaceFields(L), st.textures, st.normals).Some?
    requires var cs' := ResolveAll(FaceFields(L), st.textures, st.normals).value;
      (forall k :: 0 <= k < |cs'| ==> 0 <= cs'[k].pos < n) &&
      st'.tex.Some? && st'.norm.Some? &&
      Attributes(st'.indices, st'.tex.value, st'.norm.value) == WriteAll(Blank(n), cs', n)
    ensures Describes(st', L)
  {
  }

  /** A line that is not a face line leaves the face references alone. */
  lemma NonFaceLine(lines: seq<string>, line: string)
    requires !IsTag(line, "f")
    ensures FaceCount(lines + [line]) == FaceCount(lines)
    ensures FaceFields(lines + [line]) == FaceFields(lines)
    ensures FirstFaceVertices(lines + [line]) == FirstFaceVertices(lines)
  {
    var L := lines + [line];
    assert L[..|L| - 1] == lines;
  }

  /** The vector lists after one more line. */
  lemma DeclaredSnoc(lines: seq<string>, line: string)
    ensures Vertices(lines + [line]) == Vertices(lines) +
      (if IsTag(line, "v") && Vec3Fields(Tokens(line)).Ok? then [Vec3Fields(Tokens(line)).value] else [])
    ensures VertexNormals(lines + [line]) == VertexNormals(lines) +
      (if IsTag(line, "vn") && Vec3Fields(Tokens(line)).Ok? then [Vec3Fields(Tokens(line)).value] else [])
    ensures TexCoords(lines + [line]) == TexCoords(lines) +
      (if IsTag(line, "vt") && Vec2Fields(Tokens(line)).Ok? then [Vec2Fields(Tokens(line)).value] else [])
  {
    var L := lines + [line];
    assert L[..|L| - 1] == lines;
  }

  /** A successful line other than a face line extends the description. */
  lemma OtherStepDescribed(st: Reading, lines: seq<string>, line: string)
    requires Describes(st, lines) && !IsTag(line, "f") && Step(st, line).Ok?
    ensures Describes(Step(st, line).value, lines + [line])
  {
    var L := lines + [line];
    NonFaceLine(lines, line);
    DeclaredSnoc(lines, line);
    var st' := Step(st, line).value;
    var t := Tokens(line);
    if IsTag(line, "v") {
      assert st' == st.(vertices := st.vertices + [Vec3Fields(t).value]);
      assert Describes(st', L);
    } else if IsTag(line, "vt") {
      var tc := Vec2Fields(t).value;
      assert st' == st.(textures := st.textures + [tc]);
      ResolveAllExtends(FaceFields(lines), st.textures, st.normals, [tc], []);
      assert st.normals + [] == st.normals;
      assert Describes(st', L);
    } else if IsTag(line, "vn") {
      var nm := Vec3Fields(t).value;
      assert st' == st.(normals := st.normals + [nm]);
      ResolveAllExtends(FaceFields(lines), st.textures, st.normals, [], [nm]);
      assert st.textures + [] == st.textures;
      assert Describes(st', L);
    } else {
      assert st' == st;
      assert Describes(st', L);
    }
  }

  /** The loader's state after any lines it gets through is the one the
      reference functions describe: the declared vectors in file order, the
      arrays null until the first face line and sized for the vertices
      declared before it, and every face corner resolved and written in
      order into those arrays. */
  lemma {:induction false} RunDescribed(lines: seq<string>)
    requires Run(lines).Ok?
    ensures Describes(Run(lines).value, lines)
  {
    if |lines| > 0 {
      var init := lines[..|lines| - 1];
      var line := lines[|lines| - 1];
      assert lines == init + [line];
      RunDescribed(init);
      if IsTag(line, "f") {
        FaceStepDescribed(Run(init).value, init, line);
      } else {
        OtherStepDescribed(Run(init).value, init, line);
      }
    }
  }

  // ----- what a successful load delivers -----

  /** The positions are the x, y, z of every v line, in file order. */
  lemma LoadPositions(lines: seq<string>)
    requires Load(lines).Ok?
    ensures var m := Load(lines).value; var vs := Vertices(lines);
      |m.positions| == 3 * |vs| &&
      forall i :: 0 <= i < |vs| ==>
        m.positions[3 * i] == vs[i].x && m.positions[3 * i + 1] == vs[i].y && m.positions[3 * i + 2] == vs[i].z
  {
    RunDescribed(lines);
    FlattenAt(Vertices(lines));
  }

  /** Three indices per face line, in face-traversal order, each the
      parsed vertex field of its corner minus one. */
  lemma LoadIndices(lines: seq<string>)
    requires Load(lines).Ok?
    ensures var m := Load(lines).value;
      |m.indices| == 3 * FaceCount(lines) && |FaceFields(lines)| == |m.indices| &&
      forall k :: 0 <= k < |m.indices| ==> NamesVertex(FaceFields(lines)[k], m.indices[k])
  {
    RunDescribed(lines);
    var st := Run(lines).value;
    var fs := FaceFields(lines);
    var cs := ResolveAll(fs, st.textures, st.normals).value;
    if FirstFaceVertices(lines).Some? {
      var n := FirstFaceVertices(lines).value;
      WriteAllIndices(Blank(n), cs, n);
    }
    assert st.indices == Positions(cs);
    IndicesFromCorners(fs, st.textures, st.normals, cs, st.indices);
    assert Load(lines).value.indices == st.indices;
  }

  /** A loaded file has a face line, and the texture and normal arrays are
      sized for the vertices declared before the first one. */
  lemma LoadArrays(lines: seq<string>)
    requires Load(lines).Ok?
    ensures FaceCount(lines) > 0 && FirstFaceVertices(lines).Some?
    ensures var m := Load(lines).value;
      |m.textureCoords| == 2 * FirstFaceVertices(lines).value &&
      |m.normals| == 3 * FirstFaceVertices(lines).value
  {
    RunDescribed(lines);
  }

  /** A file whose lines all load but which has no face line fails after
      its last line: the arrays are still null when the model is built. */
  lemma FacelessFileFails(lines: seq<string>)
    requires Run(lines).Ok?
    ensures Load(lines) == Err(LoadError(|lines|, NullArrays)) <==> FaceCount(lines) == 0
  {
    RunDescribed(lines);
  }

  /** Last occurrence wins: the texture and normal slots of vertex p hold
      what the last face corner naming p assigned, resolved against the
      file's vt and vn lists, and zeros when no corner names p. */
  lemma LoadLastCornerWins(lines: seq<string>, p: nat)
    requires Load(lines).Ok?
    requires FirstFaceVertices(lines).Some? && p < FirstFaceVertices(lines).value
    ensures ResolveAll(FaceFields(lines), TexCoords(lines), VertexNormals(lines)).Some?
    ensures var m := Load(lines).value;
      var cs := ResolveAll(FaceFields(lines), TexCoords(lines), VertexNormals(lines)).value;
      var tex := m.textureCoords; var norm := m.normals;
      2 * p + 1 < |tex| && 3 * p + 2 < |norm| &&
      match LastRef(cs, p)
      case None =>
        tex[2 * p] == Zero && tex[2 * p + 1] == Zero &&
        norm[3 * p] == Zero && norm[3 * p + 1] == Zero && norm[3 * p + 2] == Zero
      case Some(k) =>
        tex[2 * p] == cs[k].uv.x && tex[2 * p + 1] == cs[k].uv.y &&
        norm[3 * p] == cs[k].normal.x && norm[3 * p + 1] == cs[k].normal.y && norm[3 * p + 2] == cs[k].normal.z
  {
    RunDescribed(lines);
    var st := Run(lines).value;
    var n := FirstFaceVertices(lines).value;
    var cs := ResolveAll(FaceFields(lines), st.textures, st.normals).value;
    WriteAllLastWins(Blank(n), cs, n, p);
  }

  // ----- single lines -----

  /** A line whose first token is none of v, vt, vn and f changes nothing;
      among them comments, object names and the empty line. */
  lemma OtherLinesIgnored(st: Reading, line: string)
    requires |Tokens(line)| > 0 && Tokens(line)[0] !in {"v", "vt", "vn", "f"}
    ensures Step(st, line) == Ok(st)
  {
  }

  lemma EmptyLineIgnored(st: Reading)
    ensures Step(st, "") == Ok(st)
  {
    assert Tokens("") == [""];
  }

  /** A line of whitespace only splits into no tokens, so reading its first
      token throws and the load fails at that line. */
  lemma WhitespaceLineAborts(lines: seq<string>, i: nat)
    requires i < |lines| && Run(lines[..i]).Ok?
    requires |lines[i]| > 0 && forall j :: 0 <= j < |lines[i]| ==> lines[i][j] in Whitespace
    ensures Load(lines) == Err(LoadError(i, MissingField(0)))
  {
    WhitespaceOnlySplitsToNothing(lines[i]);
    assert lines[..i + 1][..i] == lines[..i];
    RunStopsAtFault(lines, i);
  }
}
