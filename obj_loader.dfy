/**
 * OBJLoader.loadModel, the game's Wavefront OBJ loader. Lines are split on
 * single spaces and recognised by prefix. A first loop collects v, vt and
 * vn lines until the first "f " line, allocates the texture and normal
 * arrays there and breaks; a second loop reads the following lines and
 * processes the face lines among them. The first face line itself is
 * never processed, and every non-face line in the second loop makes it
 * read and discard the line after it.
 */
module ObjLoader {
  import opened Wrappers
  import opened JavaText
  import opened ObjMesh

  /** The fault and the (0-based) line that raised it; NoFaceLine and
      NullArrays are reported at the line count. */
  datatype LoadError = LoadError(line: nat, fault: Fault)

  /** The arguments loadModel passes to Loader.loadModel: positions, the
      texture and normal arrays and the indices. */
  datatype RawModelData = RawModelData(positions: seq<Float>, textures: seq<Float>,
                                       normals: seq<Float>, indices: seq<int>)

  /** The three lists the first loop fills. */
  datatype Collected = Collected(vertices: seq<Vec3>, textures: seq<Vec2>, normals: seq<Vec3>)

  predicate IsFaceLine(line: string) {
    StartsWith(line, "f ")
  }

  /** A line of the first loop that is not a face line. */
  function Declare(c: Collected, line: string): Result<Collected, Fault> {
    var currentLine := SplitOn(line, ' ');
    if StartsWith(line, "v ") then
      var vertex :- Vec3Fields(currentLine);
      Ok(c.(vertices := c.vertices + [vertex]))
    else if StartsWith(line, "vt ") then
      var texture :- Vec2Fields(currentLine);
      Ok(c.(textures := c.textures + [texture]))
    else if StartsWith(line, "vn ") then
      var normal :- Vec3Fields(currentLine);
      Ok(c.(normals := c.normals + [normal]))
    else Ok(c)
  }

  /** The first loop over lines before the first face line. */
  function Gather(lines: seq<string>): Result<Collected, LoadError> {
    if |lines| == 0 then Ok(Collected([], [], []))
    else
      match Gather(lines[..|lines| - 1])
      case Err(e) => Err(e)
      case Ok(c) =>
        match Declare(c, lines[|lines| - 1])
        case Ok(c') => Ok(c')
        case Err(f) => Err(LoadError(|lines| - 1, f))
  }

  lemma {:induction false} GatherStopsAtFault(lines: seq<string>, i: nat)
    requires i < |lines| && Gather(lines[..i + 1]).Err?
    ensures Gather(lines) == Gather(lines[..i + 1])
    decreases |lines|
  {
    if |lines| > i + 1 {
      var init := lines[..|lines| - 1];
      assert init[..i + 1] == lines[..i + 1];
      GatherStopsAtFault(init, i);
    } else {
      assert lines[..i + 1] == lines;
    }
  }

  /** The position of the first face line at or after i, or |lines|. */
  function FirstFaceFrom(lines: seq<string>, i: nat): (k: nat)
    requires i <= |lines|
    ensures i <= k <= |lines|
    ensures forall j :: i <= j < k ==> !IsFaceLine(lines[j])
    ensures k < |lines| ==> IsFaceLine(lines[k])
    decreases |lines| - i
  {
    if i == |lines| || IsFaceLine(lines[i]) then i else FirstFaceFrom(lines, i + 1)
  }

  function FirstFace(lines: seq<string>): nat {
    FirstFaceFrom(lines, 0)
  }

  /** The lines a non-face line of the second loop consumes: itself and the
      one the extra readLine discards. */
  const SkipAdvance: nat := 2

  /** The second loop from line i onward: a face line is processed; any
      other line is dropped together with the advance - 1 lines after it. */
  function Faces(lines: seq<string>, i: nat, advance: nat, textures: seq<Vec2>, normals: seq<Vec3>,
                 a: Attributes): Result<Attributes, LoadError>
    requires advance > 0
    decreases |lines| - i
  {
    if i >= |lines| then Ok(a)
    else if !IsFaceLine(lines[i]) then Faces(lines, i + advance, advance, textures, normals, a)
    else
      match ApplyFace(SplitOn(lines[i], ' '), textures, normals, a)
      case Err(f) => Err(LoadError(i, f))
      case Ok(a') => Faces(lines, i + 1, advance, textures, normals, a')
  }

  /** What loadModel does with the lines the reader delivers. When they run
      out, the reader either returns null (ioError false) or throws an
      IOException (ioError true), which the method catches. Running out
      before any face line then either dereferences the null line, or skips
      to the flattening and hands null texture and normal arrays to
      Loader.loadModel, which throws when it reads their lengths. */
  function Outcome(lines: seq<string>, ioError: bool): Result<RawModelData, LoadError> {
    var k := FirstFace(lines);
    var c :- Gather(lines[..k]);
    if k == |lines| then Err(LoadError(k, if ioError then NullArrays else NoFaceLine))
    else SecondLoopOutcome(lines, k, c)
  }

  /** The result when line k is the first face line and c what the first
      loop collected before it. */
  function SecondLoopOutcome(lines: seq<string>, k: nat, c: Collected): Result<RawModelData, LoadError> {
    var a :- Faces(lines, k + 1, SkipAdvance, c.textures, c.normals, Blank(|c.vertices|));
    Ok(RawModelData(Flatten(c.vertices), a.tex, a.norm, a.indices))
  }

  /** loadModel, reading the given lines. */
  method LoadModel(lines: seq<string>, ioError: bool) returns (r: Result<RawModelData, LoadError>)
    ensures r == Outcome(lines, ioError)
  {
    var collected, i, fault := DeclarationLoop(lines);
    if fault.Some? {
      return Err(LoadError(i, fault.value));
    }
    if i == |lines| {
      if !ioError {
        return Err(LoadError(i, NoFaceLine));
      }
      return Err(LoadError(i, NullArrays));
    }
    r := LoadFaces(lines, i, collected);
  }

  /** loadModel from the first face line, at k, on: allocate the texture
      and normal arrays, run the second loop and flatten the results. */
  method LoadFaces(lines: seq<string>, k: nat, c: Collected) returns (r: Result<RawModelData, LoadError>)
    ensures r == SecondLoopOutcome(lines, k, c)
  {
    var textureArray := new Float[|c.vertices| * 2](_ => Zero);
    var normalsArray := new Float[|c.vertices| * 3](_ => Zero);
    assert textureArray[..] == Zeros(|c.vertices| * 2);
    assert normalsArray[..] == Zeros(|c.vertices| * 3);
    var indices, failure := FaceLoop(lines, k, c.textures, c.normals, textureArray, normalsArray);
    if failure.Some? {
      return Err(failure.value);
    }
    var verticesArray := FlattenPositions(c.vertices);
    var indicesArray := CopyIndices(indices);
    r := Ok(RawModelData(verticesArray[..], textureArray[..], normalsArray[..], indicesArray[..]));
  }

  /** The first loop: read lines and collect v, vt and vn up to the first
      face line, where it breaks; a fault stops it at its line. */
  method DeclarationLoop(lines: seq<string>) returns (c: Collected, i: nat, fault: Option<Fault>)
    ensures fault.Some? ==> i < FirstFace(lines) && Gather(lines[..FirstFace(lines)]) == Err(LoadError(i, fault.value))
    ensures fault.None? ==> i == FirstFace(lines) && Gather(lines[..i]) == Ok(c)
  {
    c := Collected([], [], []);
    i := 0;
    while true
      invariant 0 <= i <= FirstFace(lines)
      invariant Gather(lines[..i]) == Ok(c)
      decreases |lines| - i
    {
      if i == |lines| {
        return c, i, None;
      }
      var line := lines[i];
      if StartsWith(line, "f ") {
        return c, i, None;
      }
      assert lines[..i + 1][..i] == lines[..i];
      var next := Declare(c, line);
      if next.Err? {
        GatherStopsAtFault(lines[..FirstFace(lines)], i);
        assert lines[..FirstFace(lines)][..i + 1] == lines[..i + 1];
        return c, i, Some(next.error);
      }
      c := next.value;
      i := i + 1;
    }
  }

  /** The second loop, after the face line at k: each face line read is
      processed; any other line makes it read one more line and go on. */
  method FaceLoop(lines: seq<string>, k: nat, textures: seq<Vec2>, normals: seq<Vec3>,
                  textureArray: array<Float>, normalsArray: array<Float>)
    returns (indices: seq<int>, failure: Option<LoadError>)
    requires textureArray != normalsArray
    modifies textureArray, normalsArray
    ensures match Faces(lines, k + 1, SkipAdvance, textures, normals, Attributes([], old(textureArray[..]), old(normalsArray[..])))
      case Err(e) => failure == Some(e)
      case Ok(a) => failure.None? && indices == a.indices && textureArray[..] == a.tex && normalsArray[..] == a.norm
  {
    indices := [];
    var i := k + 1;
    while i < |lines|
      invariant k + 1 <= i
      invariant Faces(lines, i, SkipAdvance, textures, normals, Attributes(indices, textureArray[..], normalsArray[..])) ==
                Faces(lines, k + 1, SkipAdvance, textures, normals, Attributes([], old(textureArray[..]), old(normalsArray[..])))
      decreases |lines| + 1 - i
    {
      var line := lines[i];
      if !StartsWith(line, "f ") {
        i := i + 2;
        continue;
      }
      var currentLine := SplitOn(line, ' ');
      var fault;
      indices, fault := ProcessFace(currentLine, indices, textures, normals, textureArray, normalsArray);
      if fault.Some? {
        return indices, Some(LoadError(i, fault.value));
      }
      i := i + 1;
    }
    failure := None;
  }

  // ----- which face lines are processed -----

  /** The number of face lines at or after line i. */
  function FaceCountFrom(lines: seq<string>, i: nat): nat
    decreases |lines| - i
  {
    if i >= |lines| then 0 else (if IsFaceLine(lines[i]) then 1 else 0) + FaceCountFrom(lines, i + 1)
  }

  /** The face lines the second loop processes, from line i on, when a
      non-face line consumes advance lines. */
  function Visited(lines: seq<string>, i: nat, advance: nat): (r: seq<nat>)
    requires advance > 0
    ensures forall j :: 0 <= j < |r| ==> i <= r[j] < |lines| && IsFaceLine(lines[r[j]])
    decreases |lines| - i
  {
    if i >= |lines| then []
    else if !IsFaceLine(lines[i]) then Visited(lines, i + advance, advance)
    else [i] + Visited(lines, i + 1, advance)
  }

  /** The indices the processed face lines record, in order. */
  function IndicesFrom(lines: seq<string>, i: nat, advance: nat): seq<int>
    requires advance > 0
    decreases |lines| - i
  {
    if i >= |lines| then []
    else if !IsFaceLine(lines[i]) then IndicesFrom(lines, i + advance, advance)
    else FaceIndices(SplitOn(lines[i], ' ')) + IndicesFrom(lines, i + 1, advance)
  }

  /** A successful second loop appends the indices of the face lines it
      processes, three per line, and keeps the array sizes. */
  lemma {:induction false} FacesIndices(lines: seq<string>, i: nat, advance: nat,
                                        textures: seq<Vec2>, normals: seq<Vec3>, a: Attributes)
    requires advance > 0 && Faces(lines, i, advance, textures, normals, a).Ok?
    ensures var a' := Faces(lines, i, advance, textures, normals, a).value;
      a'.indices == a.indices + IndicesFrom(lines, i, advance) &&
      |IndicesFrom(lines, i, advance)| == 3 * |Visited(lines, i, advance)| &&
      |a'.tex| == |a.tex| && |a'.norm| == |a.norm|
    decreases |lines| - i, 1
  {
    if i < |lines| {
      if !IsFaceLine(lines[i]) {
        FacesIndices(lines, i + advance, advance, textures, normals, a);
      } else {
        FaceLineIndices(lines, i, advance, textures, normals, a);
      }
    }
  }

  /** FacesIndices when line i is a face line. */
  lemma {:induction false} FaceLineIndices(lines: seq<string>, i: nat, advance: nat,
                                           textures: seq<Vec2>, normals: seq<Vec3>, a: Attributes)
    requires advance > 0 && i < |lines| && IsFaceLine(lines[i])
    requires Faces(lines, i, advance, textures, normals, a).Ok?
    ensures var a' := Faces(lines, i, advance, textures, normals, a).value;
      a'.indices == a.indices + IndicesFrom(lines, i, advance) &&
      |IndicesFrom(lines, i, advance)| == 3 * |Visited(lines, i, advance)| &&
      |a'.tex| == |a.tex| && |a'.norm| == |a.norm|
    decreases |lines| - i, 0
  {
    var t := SplitOn(lines[i], ' ');
    FaceLineUnfolds(lines, i, advance, textures, normals, a);
    ApplyFaceIndices(t, textures, normals, a);
    var a1 := ApplyFace(t, textures, normals, a).value;
    FacesIndices(lines, i + 1, advance, textures, normals, a1);
    SeqAssoc(a.indices, FaceIndices(t), IndicesFrom(lines, i + 1, advance));
  }

  /** One step of the second loop at a face line. */
  lemma FaceLineUnfolds(lines: seq<string>, i: nat, advance: nat,
                        textures: seq<Vec2>, normals: seq<Vec3>, a: Attributes)
    requires advance > 0 && i < |lines| && IsFaceLine(lines[i])
    requires Faces(lines, i, advance, textures, normals, a).Ok?
    ensures var t := SplitOn(lines[i], ' ');
      ApplyFace(t, textures, normals, a).Ok? &&
      Faces(lines, i, advance, textures, normals, a) ==
        Faces(lines, i + 1, advance, textures, normals, ApplyFace(t, textures, normals, a).value) &&
      IndicesFrom(lines, i, advance) == FaceIndices(t) + IndicesFrom(lines, i + 1, advance) &&
      Visited(lines, i, advance) == [i] + Visited(lines, i + 1, advance)
  {
  }

  /** No more face lines are processed than there are. */
  lemma {:induction false} VisitedAtMostFaces(lines: seq<string>, i: nat, advance: nat)
    requires advance > 0
    ensures |Visited(lines, i, advance)| <= FaceCountFrom(lines, i)
    decreases |lines| - i
  {
    if i < |lines| {
      if !IsFaceLine(lines[i]) {
        VisitedAtMostFaces(lines, i + advance, advance);
        FaceCountMonotone(lines, i, i + advance);
      } else {
        VisitedAtMostFaces(lines, i + 1, advance);
      }
    }
  }

  lemma {:induction false} FaceCountMonotone(lines: seq<string>, i: nat, j: nat)
    requires i <= j
    ensures FaceCountFrom(lines, j) <= FaceCountFrom(lines, i)
    decreases j - i
  {
    if i < j {
      FaceCountMonotone(lines, i + 1, j);
    }
  }

  /** When non-face lines consume only themselves, every face line is processed. */
  lemma {:induction false} SingleAdvanceVisitsAll(lines: seq<string>, i: nat)
    ensures |Visited(lines, i, 1)| == FaceCountFrom(lines, i)
    ensures forall j :: i <= j < |lines| && IsFaceLine(lines[j]) ==> j in Visited(lines, i, 1)
    decreases |lines| - i
  {
    if i < |lines| {
      SingleAdvanceVisitsAll(lines, i + 1);
    }
  }

  /** Lines before the first face line hold no face line. */
  lemma {:induction false} FaceCountBeforeFirst(lines: seq<string>, i: nat)
    requires i <= FirstFace(lines)
    ensures FaceCountFrom(lines, i) == FaceCountFrom(lines, FirstFace(lines))
    decreases FirstFace(lines) - i
  {
    if i < FirstFace(lines) {
      FaceCountBeforeFirst(lines, i + 1);
    }
  }

  // ----- what a successful load delivers -----

  /** A loaded file has a face line; the positions are the vertices
      declared before the first one, the texture and normal arrays are sized
      for those vertices, and the indices are three per processed face line,
      each its corner's vertex field minus one. */
  lemma OutcomeShape(lines: seq<string>, ioError: bool)
    requires Outcome(lines, ioError).Ok?
    ensures var m := Outcome(lines, ioError).value; var k := FirstFace(lines);
      Gather(lines[..k]).Ok? &&
      var c := Gather(lines[..k]).value;
      m.positions == Flatten(c.vertices) &&
      k < |lines| && |m.textures| == 2 * |c.vertices| && |m.normals| == 3 * |c.vertices| &&
      m.indices == IndicesFrom(lines, k + 1, SkipAdvance) &&
      |m.indices| == 3 * |Visited(lines, k + 1, SkipAdvance)|
  {
    var k := FirstFace(lines);
    var c := Gather(lines[..k]).value;
    FacesIndices(lines, k + 1, SkipAdvance, c.textures, c.normals, Blank(|c.vertices|));
  }

  /** As written, the first face line is never processed, so a successful
      load has at least one face's worth of indices fewer than the file
      describes, and none at all when the file has a single face line. */
  lemma AsWrittenDropsFaces(lines: seq<string>, ioError: bool)
    requires Outcome(lines, ioError).Ok?
    ensures FaceCountFrom(lines, 0) > 0
    ensures var m := Outcome(lines, ioError).value;
      |m.indices| + 3 <= 3 * FaceCountFrom(lines, 0)
  {
    var k := FirstFace(lines);
    OutcomeShape(lines, ioError);
    FaceCountBeforeFirst(lines, 0);
    VisitedAtMostFaces(lines, k + 1, SkipAdvance);
  }

  /** A file whose declarations parse but which has no face line fails:
      with a null line from the reader, and with null texture and normal
      arrays handed on after a read error. */
  lemma FacelessFileFails(lines: seq<string>, ioError: bool)
    requires Gather(lines[..FirstFace(lines)]).Ok?
    ensures FaceCountFrom(lines, 0) == 0 <==>
      Outcome(lines, ioError) == Err(LoadError(|lines|, if ioError then NullArrays else NoFaceLine))
  {
    var k := FirstFace(lines);
    FaceCountBeforeFirst(lines, 0);
    if k < |lines| {
      assert FaceCountFrom(lines, k) > 0;
      if Outcome(lines, ioError).Err? {
        OutcomeNotFacelessError(lines, ioError);
      }
    } else {
      assert FaceCountFrom(lines, k) == 0;
    }
  }

  /** A face line that fails is reported at its own line. */
  lemma {:induction false} FacesFailWithinFile(lines: seq<string>, i: nat, advance: nat,
                                               textures: seq<Vec2>, normals: seq<Vec3>, a: Attributes)
    requires advance > 0
    requires Faces(lines, i, advance, textures, normals, a).Err?
    ensures i <= Faces(lines, i, advance, textures, normals, a).error.line < |lines|
    decreases |lines| - i
  {
    if !IsFaceLine(lines[i]) {
      FacesFailWithinFile(lines, i + advance, advance, textures, normals, a);
    } else if ApplyFace(SplitOn(lines[i], ' '), textures, normals, a).Ok? {
      FacesFailWithinFile(lines, i + 1, advance, textures, normals,
                          ApplyFace(SplitOn(lines[i], ' '), textures, normals, a).value);
    }
  }

  /** A declaration that fails is reported at its own line. */
  lemma {:induction false} GatherFailsWithin(lines: seq<string>)
    requires Gather(lines).Err?
    ensures Gather(lines).error.line < |lines|
  {
    if Gather(lines[..|lines| - 1]).Err? {
      GatherFailsWithin(lines[..|lines| - 1]);
    }
  }

  /** Once a face line is found, no error is reported at the line count. */
  lemma OutcomeNotFacelessError(lines: seq<string>, ioError: bool)
    requires FirstFace(lines) < |lines|
    requires Outcome(lines, ioError).Err?
    ensures Outcome(lines, ioError).error.line < |lines|
  {
    var k := FirstFace(lines);
    if Gather(lines[..k]).Ok? {
      var c := Gather(lines[..k]).value;
      FacesFailWithinFile(lines, k + 1, SkipAdvance, c.textures, c.normals, Blank(|c.vertices|));
    } else {
      GatherFailsWithin(lines[..k]);
    }
  }

  /** The lines the second loop's condition reads, from line i on, when a
      non-face line consumes advance lines: a line the extra readLine
      discards is not among them. */
  function Reads(lines: seq<string>, i: nat, advance: nat): (r: seq<nat>)
    requires advance > 0
    ensures forall k :: 0 <= k < |r| ==> i <= r[k] < |lines|
    decreases |lines| - i
  {
    if i >= |lines| then []
    else if !IsFaceLine(lines[i]) then [i] + Reads(lines, i + advance, advance)
    else [i] + Reads(lines, i + 1, advance)
  }

  /** A face line right after a non-face line the second loop reads is
      discarded by the extra readLine and never processed. */
  lemma {:induction false} SkipsLineAfterNonFace(lines: seq<string>, i: nat, j: nat)
    requires j in Reads(lines, i, SkipAdvance) && !IsFaceLine(lines[j])
    ensures j + 1 !in Visited(lines, i, SkipAdvance)
    decreases |lines| - i
  {
    if !IsFaceLine(lines[i]) {
      if j != i {
        SkipsLineAfterNonFace(lines, i + SkipAdvance, j);
      }
    } else {
      SkipsLineAfterNonFace(lines, i + 1, j);
    }
  }

  /** As written, whenever the second loop reads a non-face line, the line
      after it is never processed, face line or not. */
  lemma AsWrittenSkipsLineAfterNonFace(lines: seq<string>, j: nat)
    requires j in Reads(lines, FirstFace(lines) + 1, SkipAdvance) && !IsFaceLine(lines[j])
    ensures j + 1 !in Visited(lines, FirstFace(lines) + 1, SkipAdvance)
  {
    SkipsLineAfterNonFace(lines, FirstFace(lines) + 1, j);
  }

  /** For instance, four face lines with an "s off" line after the second:
      the fourth face line is never processed. */
  lemma AsWrittenSkipsFourthFace()
    ensures var lines := ["f 1 1 1", "f 1 1 1", "s off", "f 1 1 1"];
      FirstFace(lines) == 0 && Visited(lines, 1, SkipAdvance) == [1]
  {
    var lines := ["f 1 1 1", "f 1 1 1", "s off", "f 1 1 1"];
    assert lines[2][..2] != "f " by { assert lines[2][..2][0] == 's'; }
    assert IsFaceLine(lines[0]) && IsFaceLine(lines[1]) && !IsFaceLine(lines[2]);
  }

  lemma VisitedPassesOver(lines: seq<string>, i: nat, advance: nat)
    requires advance > 0 && i < |lines| && !IsFaceLine(lines[i])
    ensures Visited(lines, i, advance) == Visited(lines, i + advance, advance)
  {
  }

  /** The loader as evidently intended: the second loop starts at the first
      face line and a non-face line is simply passed over. */
  function IntendedOutcome(lines: seq<string>, ioError: bool): Result<RawModelData, LoadError> {
    var k := FirstFace(lines);
    var c :- Gather(lines[..k]);
    if k == |lines| then Err(LoadError(k, if ioError then NullArrays else NoFaceLine))
    else
      var a :- Faces(lines, k, 1, c.textures, c.normals, Blank(|c.vertices|));
      Ok(RawModelData(Flatten(c.vertices), a.tex, a.norm, a.indices))
  }

  /** The intended loader processes every face line of the file: three
      indices per face line, each its corner's vertex field minus one. */
  lemma IntendedIndices(lines: seq<string>, ioError: bool)
    requires IntendedOutcome(lines, ioError).Ok?
    ensures FaceCountFrom(lines, 0) > 0
    ensures var m := IntendedOutcome(lines, ioError).value;
      m.indices == IndicesFrom(lines, FirstFace(lines), 1) &&
      |m.indices| == 3 * FaceCountFrom(lines, 0)
  {
    var k := FirstFace(lines);
    var c := Gather(lines[..k]).value;
    FaceCountBeforeFirst(lines, 0);
    SingleAdvanceVisitsAll(lines, k);
    if k < |lines| {
      FacesIndices(lines, k, 1, c.textures, c.normals, Blank(|c.vertices|));
    }
  }

  // ----- lines the second loop does not look at -----

  /** Replacing a line that is not a face line with another such line does
      not change the second loop. */
  lemma {:induction false} FacesIgnoreNonFace(lines: seq<string>, i: nat, advance: nat, j: nat, line: string,
                                              textures: seq<Vec2>, normals: seq<Vec3>, a: Attributes)
    requires advance > 0 && j < |lines| && !IsFaceLine(lines[j]) && !IsFaceLine(line)
    ensures Faces(lines[j := line], i, advance, textures, normals, a) == Faces(lines, i, advance, textures, normals, a)
    decreases |lines| - i, 1
  {
    var lines' := lines[j := line];
    if i < |lines| {
      assert IsFaceLine(lines'[i]) == IsFaceLine(lines[i]);
      if !IsFaceLine(lines[i]) {
        FacesIgnoreNonFace(lines, i + advance, advance, j, line, textures, normals, a);
      } else {
        FaceLineIgnoresNonFace(lines, i, advance, j, line, textures, normals, a);
      }
    }
  }

  /** FacesIgnoreNonFace when line i is a face line. */
  lemma {:induction false} FaceLineIgnoresNonFace(lines: seq<string>, i: nat, advance: nat, j: nat, line: string,
                                                  textures: seq<Vec2>, normals: seq<Vec3>, a: Attributes)
    requires advance > 0 && j < |lines| && !IsFaceLine(lines[j]) && !IsFaceLine(line)
    requires i < |lines| && IsFaceLine(lines[i])
    ensures Faces(lines[j := line], i, advance, textures, normals, a) == Faces(lines, i, advance, textures, normals, a)
    decreases |lines| - i, 0
  {
    var r := ApplyFace(SplitOn(lines[i], ' '), textures, normals, a);
    if r.Ok? {
      FacesIgnoreNonFace(lines, i + 1, advance, j, line, textures, normals, r.value);
    }
    FaceStepAgrees(lines, lines[j := line], i, advance, textures, normals, a);
  }

  /** Two files that agree at face line i, and from line i + 1 on, agree
      from line i on. */
  lemma FaceStepAgrees(lines: seq<string>, lines': seq<string>, i: nat, advance: nat,
                       textures: seq<Vec2>, normals: seq<Vec3>, a: Attributes)
    requires advance > 0 && i < |lines| == |lines'| && lines'[i] == lines[i] && IsFaceLine(lines[i])
    requires var r := ApplyFace(SplitOn(lines[i], ' '), textures, normals, a);
      r.Ok? ==> Faces(lines', i + 1, advance, textures, normals, r.value) == Faces(lines, i + 1, advance, textures, normals, r.value)
    ensures Faces(lines', i, advance, textures, normals, a) == Faces(lines, i, advance, textures, normals, a)
  {
  }

  /** Declarations after the first face line are ignored: changing a v, vt,
      vn or any other non-face line there to another non-face line leaves
      the result as it was. */
  lemma LateDeclarationsIgnored(lines: seq<string>, ioError: bool, j: nat, line: string)
    requires FirstFace(lines) < j < |lines| && !IsFaceLine(lines[j]) && !IsFaceLine(line)
    ensures Outcome(lines[j := line], ioError) == Outcome(lines, ioError)
  {
    var lines' := lines[j := line];
    var k := FirstFace(lines);
    FirstFaceUnchanged(lines, j, line, 0);
    assert lines'[..k] == lines[..k];
    var c := Gather(lines[..k]);
    if c.Ok? {
      FacesIgnoreNonFace(lines, k + 1, SkipAdvance, j, line, c.value.textures, c.value.normals, Blank(|c.value.vertices|));
    }
  }

  lemma {:induction false} FirstFaceUnchanged(lines: seq<string>, j: nat, line: string, i: nat)
    requires i <= FirstFace(lines) < j < |lines|
    requires FirstFace(lines) == FirstFaceFrom(lines, i)
    ensures FirstFaceFrom(lines[j := line], i) == FirstFace(lines)
    decreases FirstFace(lines) - i
  {
    if i < FirstFace(lines) {
      FirstFaceUnchanged(lines, j, line, i + 1);
    }
  }
}
