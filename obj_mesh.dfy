/**
 * What the two Wavefront OBJ loaders share: the attribute values, the
 * faults a malformed line raises, processVertex (the same code in both
 * loaders) and the loops that flatten the collected lists into arrays.
 */
module ObjMesh {
  import opened Wrappers
  import opened JavaText

  /** A float as the loaders see it: the 0 every new float[] holds, the -1
      sentinel, a value Float.parseFloat produced from a token (identified by
      that token), and 1 - v. */
  datatype Float = Zero | MinusOne | Parsed(text: string) | OneMinus(of: Float)

  datatype Vec2 = Vec2(x: Float, y: Float)
  datatype Vec3 = Vec3(x: Float, y: Float, z: Float)

  /** The exceptions a line can raise; none of them is caught. */
  datatype Fault =
    | MissingField(field: nat)   // ArrayIndexOutOfBoundsException on a split result
    | NotAFloat(text: string)    // NumberFormatException from Float.parseFloat
    | NotAnInt(text: string)     // NumberFormatException from Integer.parseInt
    | NoSuchEntry(entry: int)    // IndexOutOfBoundsException from List.get
    | SlotOutOfBounds(slot: int) // ArrayIndexOutOfBoundsException on an attribute array
    | NoFaceLine                 // NullPointerException: the file ended before any face line
    | NullArrays                 // NullPointerException: the model is built from null texture and normal arrays

  /** The pieces of the loaders' output that face lines build: the index
      list and the texture and normal arrays. */
  datatype Attributes = Attributes(indices: seq<int>, tex: seq<Float>, norm: seq<Float>)

  /** The arrays new VertexModel is built from: positions, indices, texture
      coordinates and normals. */
  datatype VertexModel = VertexModel(positions: seq<Float>, indices: seq<int>,
                                     textureCoords: seq<Float>, normals: seq<Float>)

  function Zeros(n: nat): (r: seq<Float>)
    ensures |r| == n && forall i :: 0 <= i < n ==> r[i] == Zero
  {
    seq(n, _ => Zero)
  }

  /** The arrays allocated at the first face line for n vertices. */
  function Blank(n: nat): Attributes {
    Attributes([], Zeros(2 * n), Zeros(3 * n))
  }

  // ----- reading the fields of a line -----

  /** Float.parseFloat(tokens[k]). */
  function FloatField(tokens: seq<string>, k: nat): Result<Float, Fault> {
    if k >= |tokens| then Err(MissingField(k))
    else if IsFloatText(tokens[k]) then Ok(Parsed(tokens[k]))
    else Err(NotAFloat(tokens[k]))
  }

  /** new Vector3f(parseFloat(tokens[1]), parseFloat(tokens[2]), parseFloat(tokens[3])). */
  function Vec3Fields(tokens: seq<string>): Result<Vec3, Fault> {
    var x :- FloatField(tokens, 1);
    var y :- FloatField(tokens, 2);
    var z :- FloatField(tokens, 3);
    Ok(Vec3(x, y, z))
  }

  /** new Vector2f(parseFloat(tokens[1]), parseFloat(tokens[2])). */
  function Vec2Fields(tokens: seq<string>): Result<Vec2, Fault> {
    var x :- FloatField(tokens, 1);
    var y :- FloatField(tokens, 2);
    Ok(Vec2(x, y))
  }

  /** Integer.parseInt(data[k]). */
  function IntField(data: seq<string>, k: nat): Result<int, Fault> {
    if k >= |data| then Err(MissingField(k))
    else match ParseInt(data[k])
      case Some(n) => Ok(n)
      case None => Err(NotAnInt(data[k]))
  }

  /** list.get(n - 1). */
  function Entry<T>(list: seq<T>, n: int): Result<T, Fault> {
    if 1 <= n <= |list| then Ok(list[n - 1]) else Err(NoSuchEntry(n - 1))
  }

  /** The texture coordinate a corner's texture field selects: the (-1, -1)
      sentinel for an empty field, else entry t - 1 with V flipped to 1 - v. */
  function CornerUV(field: string, textures: seq<Vec2>): Result<Vec2, Fault> {
    if field == "" then Ok(Vec2(MinusOne, MinusOne))
    else
      match ParseInt(field)
      case None => Err(NotAnInt(field))
      case Some(t) =>
        var tc :- Entry(textures, t);
        Ok(Vec2(tc.x, OneMinus(tc.y)))
  }

  // ----- processVertex -----

  /** A face corner resolved against the lists: its 0-based vertex, the
      texture coordinate and the normal it assigns to that vertex. */
  datatype Corner = Corner(pos: int, uv: Vec2, normal: Vec3)

  /** The reading of one face corner ("p/t/n", t possibly empty) against the
      texture and normal lists, apart from the array bounds. */
  function ResolveCorner(data: seq<string>, textures: seq<Vec2>, normals: seq<Vec3>): Result<Corner, Fault> {
    var p :- IntField(data, 0);
    if |data| < 2 then Err(MissingField(1))
    else
      var uv :- CornerUV(data[1], textures);
      var n :- IntField(data, 2);
      var normal :- Entry(normals, n);
      Ok(Corner(p - 1, uv, normal))
  }

  /** The two texture slots of vertex p overwritten with uv, checked slot by slot. */
  function Store2(arr: seq<Float>, p: int, uv: Vec2): Result<seq<Float>, Fault> {
    if !(0 <= 2 * p < |arr|) then Err(SlotOutOfBounds(2 * p))
    else if !(2 * p + 1 < |arr|) then Err(SlotOutOfBounds(2 * p + 1))
    else Ok(arr[2 * p := uv.x][2 * p + 1 := uv.y])
  }

  /** The three normal slots of vertex p overwritten with v, checked slot by slot. */
  function Store3(arr: seq<Float>, p: int, v: Vec3): Result<seq<Float>, Fault> {
    if !(0 <= 3 * p < |arr|) then Err(SlotOutOfBounds(3 * p))
    else if !(3 * p + 1 < |arr|) then Err(SlotOutOfBounds(3 * p + 1))
    else if !(3 * p + 2 < |arr|) then Err(SlotOutOfBounds(3 * p + 2))
    else Ok(arr[3 * p := v.x][3 * p + 1 := v.y][3 * p + 2 := v.z])
  }

  /** processVertex step by step, in the order the Java evaluates it: parse
      the vertex, record the index, resolve and store the texture coordinate,
      then resolve and store the normal. The first failure is the result. */
  function ApplyCorner(data: seq<string>, textures: seq<Vec2>, normals: seq<Vec3>, a: Attributes): Result<Attributes, Fault> {
    var n :- IntField(data, 0);
    var p := n - 1;
    if |data| < 2 then Err(MissingField(1))
    else
      var uv :- CornerUV(data[1], textures);
      var tex :- Store2(a.tex, p, uv);
      var m :- IntField(data, 2);
      var normal :- Entry(normals, m);
      var norm :- Store3(a.norm, p, normal);
      Ok(Attributes(a.indices + [p], tex, norm))
  }

  /** The effect of a resolved corner on the arrays. */
  function WriteCorner(a: Attributes, c: Corner): Attributes
    requires 0 <= c.pos && 2 * c.pos + 1 < |a.tex| && 3 * c.pos + 2 < |a.norm|
  {
    var p := c.pos;
    Attributes(a.indices + [p],
               a.tex[2 * p := c.uv.x][2 * p + 1 := c.uv.y],
               a.norm[3 * p := c.normal.x][3 * p + 1 := c.normal.y][3 * p + 2 := c.normal.z])
  }

  /** The arrays are sized for n vertices. */
  predicate SizedFor(a: Attributes, n: nat) {
    |a.tex| == 2 * n && |a.norm| == 3 * n
  }

  /** processVertex succeeds exactly when the corner resolves and names one
      of the n vertices the arrays were sized for, and then it appends the
      vertex to the indices and overwrites its texture and normal slots. */
  lemma ApplyCornerResolves(data: seq<string>, textures: seq<Vec2>, normals: seq<Vec3>, a: Attributes, n: nat)
    requires SizedFor(a, n)
    ensures var r := ResolveCorner(data, textures, normals);
      ApplyCorner(data, textures, normals, a).Ok? <==> (r.Ok? && 0 <= r.value.pos < n)
    ensures var r := ResolveCorner(data, textures, normals);
      r.Ok? && 0 <= r.value.pos < n ==>
        ApplyCorner(data, textures, normals, a) == Ok(WriteCorner(a, r.value))
  {
  }

  /** The corners written one after another, first to last. */
  function WriteAll(a: Attributes, cs: seq<Corner>, n: nat): (r: Attributes)
    requires SizedFor(a, n)
    requires forall k :: 0 <= k < |cs| ==> 0 <= cs[k].pos < n
    ensures SizedFor(r, n)
  {
    if |cs| == 0 then a
    else WriteCorner(WriteAll(a, cs[..|cs| - 1], n), cs[|cs| - 1])
  }

  /** The vertex of every corner, in order. */
  function Positions(cs: seq<Corner>): (r: seq<int>)
    ensures |r| == |cs| && forall k :: 0 <= k < |cs| ==> r[k] == cs[k].pos
  {
    if |cs| == 0 then [] else Positions(cs[..|cs| - 1]) + [cs[|cs| - 1].pos]
  }

  /** The index of the last corner that names vertex p. */
  function LastRef(cs: seq<Corner>, p: int): (r: Option<nat>)
    ensures r.Some? ==> r.value < |cs| && cs[r.value].pos == p
    ensures r.Some? ==> forall k :: r.value < k < |cs| ==> cs[k].pos != p
    ensures r.None? ==> forall k :: 0 <= k < |cs| ==> cs[k].pos != p
  {
    if |cs| == 0 then None
    else if cs[|cs| - 1].pos == p then Some(|cs| - 1)
    else LastRef(cs[..|cs| - 1], p)
  }

  /** Writing corners appends their vertices to the indices, in order. */
  lemma {:induction false} WriteAllIndices(a: Attributes, cs: seq<Corner>, n: nat)
    requires SizedFor(a, n)
    requires forall k :: 0 <= k < |cs| ==> 0 <= cs[k].pos < n
    ensures WriteAll(a, cs, n).indices == a.indices + Positions(cs)
  {
    if |cs| > 0 {
      WriteAllIndices(a, cs[..|cs| - 1], n);
    }
  }

  /** The texture slots of vertex p hold uv and its normal slots hold normal. */
  predicate HoldsAt(a: Attributes, p: nat, uv: Vec2, normal: Vec3)
    requires 2 * p + 1 < |a.tex| && 3 * p + 2 < |a.norm|
  {
    a.tex[2 * p] == uv.x && a.tex[2 * p + 1] == uv.y &&
    a.norm[3 * p] == normal.x && a.norm[3 * p + 1] == normal.y && a.norm[3 * p + 2] == normal.z
  }

  /** The slots of vertex p are the same in a and b. */
  predicate SameAt(a: Attributes, b: Attributes, p: nat)
    requires 2 * p + 1 < |a.tex| && 3 * p + 2 < |a.norm|
    requires 2 * p + 1 < |b.tex| && 3 * p + 2 < |b.norm|
  {
    HoldsAt(a, p, Vec2(b.tex[2 * p], b.tex[2 * p + 1]), Vec3(b.norm[3 * p], b.norm[3 * p + 1], b.norm[3 * p + 2]))
  }

  /** Writing a corner sets the slots of its own vertex and no other's. */
  lemma WriteCornerSlots(a: Attributes, c: Corner, n: nat, p: nat)
    requires SizedFor(a, n) && 0 <= c.pos < n && p < n
    ensures c.pos == p ==> HoldsAt(WriteCorner(a, c), p, c.uv, c.normal)
    ensures c.pos != p ==> SameAt(WriteCorner(a, c), a, p)
  {
  }

  /** Last occurrence wins: after the corners are written, the texture and
      normal slots of vertex p hold what the last corner naming p assigned,
      and keep their earlier contents when no corner names p. */
  lemma {:induction false} WriteAllLastWins(a: Attributes, cs: seq<Corner>, n: nat, p: nat)
    requires SizedFor(a, n) && p < n
    requires forall k :: 0 <= k < |cs| ==> 0 <= cs[k].pos < n
    ensures var r := WriteAll(a, cs, n);
      match LastRef(cs, p)
      case None => SameAt(r, a, p)
      case Some(k) => HoldsAt(r, p, cs[k].uv, cs[k].normal)
  {
    if |cs| > 0 {
      var init := cs[..|cs| - 1];
      var c := cs[|cs| - 1];
      WriteAllLastWins(a, init, n, p);
      WriteCornerSlots(WriteAll(a, init, n), c, n, p);
      if c.pos != p {
        assert LastRef(cs, p) == LastRef(init, p);
        assert forall k :: 0 <= k < |init| ==> init[k] == cs[k];
      }
    }
  }

  /** Thirty-two-bit wrap-around of a Java int expression. */
  function Wrap32(x: int): int {
    (x - IntMin) % 0x1_0000_0000 + IntMin
  }

  /** Wrap-around removes a whole number of 2^32 steps. */
  lemma Wrap32Is(x: int, k: int)
    requires IntMin <= x + k * 0x1_0000_0000 <= IntMax
    ensures Wrap32(x) == x + k * 0x1_0000_0000
  {
    var y := x + k * 0x1_0000_0000;
    assert (x - IntMin) == (y - IntMin) + (-k) * 0x1_0000_0000;
    assert 0 <= y - IntMin < 0x1_0000_0000;
  }

  /** Java evaluates the five slots of processVertex in 32-bit arithmetic. */
  predicate JavaSlotsInBounds(p: int, n: nat) {
    0 <= Wrap32(2 * p) < 2 * n && 0 <= Wrap32(2 * p + 1) < 2 * n &&
    0 <= Wrap32(3 * p) < 3 * n && 0 <= Wrap32(3 * p + 1) < 3 * n && 0 <= Wrap32(3 * p + 2) < 3 * n
  }

  /** The model computes vertex pointers and slots on unbounded integers.
      For fewer than 2^28 vertices a corner gets past processVertex under
      Java's 32-bit wrap-around exactly when it does in the model: the
      pointer parseInt - 1 and all five slots are in bounds precisely when
      0 <= parseInt - 1 < n, and then nothing wraps. (A pointer of -2^31
      wraps its two texture slots onto vertex 0; its normal slots fail.) */
  lemma {:induction false} Int32SlotsAgree(parsed: int, n: nat)
    requires IntMin <= parsed <= IntMax && 0 < n < 0x1000_0000
    ensures var p := Wrap32(parsed - 1);
      (JavaSlotsInBounds(p, n) <==> 0 <= parsed - 1 < n) &&
      (0 <= parsed - 1 < n ==> p == parsed - 1 && Wrap32(2 * p) == 2 * p && Wrap32(3 * p) == 3 * p)
  {
    var p := Wrap32(parsed - 1);
    if parsed == IntMin {
      Wrap32Is(parsed - 1, 1);
      assert p == IntMax;
      Wrap32Is(2 * p, -1);
    } else {
      Wrap32Is(parsed - 1, 0);
      assert p == parsed - 1;
      if 0 <= p < n {
        Wrap32Is(2 * p, 0); Wrap32Is(2 * p + 1, 0);
        Wrap32Is(3 * p, 0); Wrap32Is(3 * p + 1, 0); Wrap32Is(3 * p + 2, 0);
      } else if n <= p < 0x4000_0000 {
        Wrap32Is(2 * p, 0);
      } else if p >= 0x4000_0000 {
        Wrap32Is(2 * p, -1);
      } else if -0x4000_0000 <= p {
        Wrap32Is(2 * p, 0);
      } else if p >= n + IntMin {
        Wrap32Is(2 * p, 1);
      } else {
        Wrap32Is(3 * p, 1);
      }
    }
  }

  /** processVertex: the slots of the vertex the corner names are
      overwritten in place and its index is appended; on a fault the loader
      is abandoned, so nothing is promised about the arrays then. */
  method ProcessVertex(data: seq<string>, indices: seq<int>, textures: seq<Vec2>, normals: seq<Vec3>,
                       textureArray: array<Float>, normalsArray: array<Float>)
    returns (r: Result<seq<int>, Fault>)
    requires textureArray != normalsArray
    modifies textureArray, normalsArray
    ensures var want := ApplyCorner(data, textures, normals,
                                    Attributes(indices, old(textureArray[..]), old(normalsArray[..])));
      (r.Ok? <==> want.Ok?) &&
      (r.Err? ==> r.error == want.error) &&
      (r.Ok? ==> r.value == want.value.indices &&
                 textureArray[..] == want.value.tex && normalsArray[..] == want.value.norm)
  {
    if |data| == 0 { return Err(MissingField(0)); }
    var parsed := ParseInt(data[0]);
    if parsed.None? { return Err(NotAnInt(data[0])); }
    var p := parsed.value - 1;
    var out := indices + [p];

    if |data| < 2 { return Err(MissingField(1)); }
    var uv: Vec2;
    if data[1] == "" {
      uv := Vec2(MinusOne, MinusOne);
    } else {
      var t := ParseInt(data[1]);
      if t.None? { return Err(NotAnInt(data[1])); }
      if !(1 <= t.value <= |textures|) { return Err(NoSuchEntry(t.value - 1)); }
      var current := textures[t.value - 1];
      uv := Vec2(current.x, OneMinus(current.y));
    }
    var fault := StoreTexture(textureArray, p, uv);
    if fault.Some? { return Err(fault.value); }

    if |data| < 3 { return Err(MissingField(2)); }
    var m := ParseInt(data[2]);
    if m.None? { return Err(NotAnInt(data[2])); }
    if !(1 <= m.value <= |normals|) { return Err(NoSuchEntry(m.value - 1)); }
    fault := StoreNormal(normalsArray, p, normals[m.value - 1]);
    if fault.Some? { return Err(fault.value); }
    r := Ok(out);
  }

  /** The texture half of processVertex: the two slots of vertex p, each
      checked before it is written. */
  method StoreTexture(textureArray: array<Float>, p: int, uv: Vec2) returns (fault: Option<Fault>)
    modifies textureArray
    ensures match Store2(old(textureArray[..]), p, uv)
      case Err(e) => fault == Some(e)
      case Ok(tex) => fault.None? && textureArray[..] == tex
  {
    if !(0 <= 2 * p < textureArray.Length) { return Some(SlotOutOfBounds(2 * p)); }
    textureArray[2 * p] := uv.x;
    if !(2 * p + 1 < textureArray.Length) { return Some(SlotOutOfBounds(2 * p + 1)); }
    textureArray[2 * p + 1] := uv.y;
    return None;
  }

  /** The normal half of processVertex: the three slots of vertex p, each
      checked before it is written. */
  method StoreNormal(normalsArray: array<Float>, p: int, normal: Vec3) returns (fault: Option<Fault>)
    modifies normalsArray
    ensures match Store3(old(normalsArray[..]), p, normal)
      case Err(e) => fault == Some(e)
      case Ok(norm) => fault.None? && normalsArray[..] == norm
  {
    if !(0 <= 3 * p < normalsArray.Length) { return Some(SlotOutOfBounds(3 * p)); }
    normalsArray[3 * p] := normal.x;
    if !(3 * p + 1 < normalsArray.Length) { return Some(SlotOutOfBounds(3 * p + 1)); }
    normalsArray[3 * p + 1] := normal.y;
    if !(3 * p + 2 < normalsArray.Length) { return Some(SlotOutOfBounds(3 * p + 2)); }
    normalsArray[3 * p + 2] := normal.z;
    return None;
  }

  /** The three corners of a face line, tokens 1 to 3 each split on '/',
      processed in order; a line with fewer tokens fails at the first
      missing one. */
  function ApplyFace(tokens: seq<string>, textures: seq<Vec2>, normals: seq<Vec3>, a: Attributes): Result<Attributes, Fault> {
    if |tokens| < 4 then Err(MissingField(|tokens|))
    else
      var a1 :- ApplyCorner(SplitOn(tokens[1], '/'), textures, normals, a);
      var a2 :- ApplyCorner(SplitOn(tokens[2], '/'), textures, normals, a1);
      ApplyCorner(SplitOn(tokens[3], '/'), textures, normals, a2)
  }

  /** The index processVertex records for a corner: its vertex field read
      by parseInt, minus one (-1 for a corner without a readable one, which
      makes processVertex throw). */
  function VertexIndex(d: seq<string>): int {
    if |d| > 0 && ParseInt(d[0]).Some? then ParseInt(d[0]).value - 1 else -1
  }

  /** processVertex appends the corner's index and keeps the array sizes. */
  lemma ApplyCornerIndex(d: seq<string>, textures: seq<Vec2>, normals: seq<Vec3>, a: Attributes)
    requires ApplyCorner(d, textures, normals, a).Ok?
    ensures var a' := ApplyCorner(d, textures, normals, a).value;
      a'.indices == a.indices + [VertexIndex(d)] && NamesVertex(d, VertexIndex(d)) &&
      |a'.tex| == |a.tex| && |a'.norm| == |a.norm|
  {
  }

  /** The indices a face line's corners record, tokens 1 to 3 split on '/'. */
  function FaceIndices(tokens: seq<string>): seq<int> {
    if |tokens| < 4 then []
    else [VertexIndex(SplitOn(tokens[1], '/')), VertexIndex(SplitOn(tokens[2], '/')), VertexIndex(SplitOn(tokens[3], '/'))]
  }

  /** A face appends its three corners' indices and keeps the array sizes. */
  lemma ApplyFaceIndices(tokens: seq<string>, textures: seq<Vec2>, normals: seq<Vec3>, a: Attributes)
    requires ApplyFace(tokens, textures, normals, a).Ok?
    ensures |tokens| >= 4
    ensures var a' := ApplyFace(tokens, textures, normals, a).value;
      a'.indices == a.indices + FaceIndices(tokens) && |a'.tex| == |a.tex| && |a'.norm| == |a.norm|
  {
    var d1, d2, d3 := SplitOn(tokens[1], '/'), SplitOn(tokens[2], '/'), SplitOn(tokens[3], '/');
    ApplyCornerIndex(d1, textures, normals, a);
    var a1 := ApplyCorner(d1, textures, normals, a).value;
    ApplyCornerIndex(d2, textures, normals, a1);
    var a2 := ApplyCorner(d2, textures, normals, a1).value;
    ApplyCornerIndex(d3, textures, normals, a2);
    assert a.indices + [VertexIndex(d1)] + [VertexIndex(d2)] + [VertexIndex(d3)] == a.indices + FaceIndices(tokens);
  }

  /** The face case of both loaders once the arrays exist: split tokens 1 to
      3 on '/' and call processVertex on the three corners. */
  method ProcessFace(currentLine: seq<string>, indices: seq<int>, textures: seq<Vec2>, normals: seq<Vec3>,
                     textureArray: array<Float>, normalsArray: array<Float>)
    returns (indices': seq<int>, fault: Option<Fault>)
    requires textureArray != normalsArray
    modifies textureArray, normalsArray
    ensures match ApplyFace(currentLine, textures, normals, Attributes(indices, old(textureArray[..]), old(normalsArray[..])))
      case Err(f) => fault == Some(f)
      case Ok(a) => fault.None? && indices' == a.indices && textureArray[..] == a.tex && normalsArray[..] == a.norm
  {
    indices' := indices;
    if |currentLine| < 4 { return indices', Some(MissingField(|currentLine|)); }
    var vertex1 := SplitOn(currentLine[1], '/');
    var vertex2 := SplitOn(currentLine[2], '/');
    var vertex3 := SplitOn(currentLine[3], '/');
    var res := ProcessVertex(vertex1, indices', textures, normals, textureArray, normalsArray);
    if res.Err? { return indices', Some(res.error); }
    indices' := res.value;
    res := ProcessVertex(vertex2, indices', textures, normals, textureArray, normalsArray);
    if res.Err? { return indices', Some(res.error); }
    indices' := res.value;
    res := ProcessVertex(vertex3, indices', textures, normals, textureArray, normalsArray);
    if res.Err? { return indices', Some(res.error); }
    indices' := res.value;
    fault := None;
  }


  // ----- corners resolved against the lists -----

  /** Every corner resolved against the given lists, or None if one fails. */
  function ResolveAll(fs: seq<seq<string>>, textures: seq<Vec2>, normals: seq<Vec3>): (r: Option<seq<Corner>>)
    ensures r.Some? ==> |r.value| == |fs|
    ensures r.Some? ==> forall k :: 0 <= k < |fs| ==> ResolveCorner(fs[k], textures, normals) == Ok(r.value[k])
  {
    if |fs| == 0 then Some([])
    else
      match ResolveAll(fs[..|fs| - 1], textures, normals)
      case None => None
      case Some(cs) =>
        match ResolveCorner(fs[|fs| - 1], textures, normals)
        case Err(_) => None
        case Ok(c) => Some(cs + [c])
  }

  lemma ResolveAllSnoc(fs: seq<seq<string>>, d: seq<string>, textures: seq<Vec2>, normals: seq<Vec3>, cs: seq<Corner>, c: Corner)
    requires ResolveAll(fs, textures, normals) == Some(cs)
    requires ResolveCorner(d, textures, normals) == Ok(c)
    ensures ResolveAll(fs + [d], textures, normals) == Some(cs + [c])
  {
    assert (fs + [d])[..|fs|] == fs;
  }

  /** A corner that resolves against lists resolves the same way once more
      entries are appended to them. */
  lemma ResolveAllExtends(fs: seq<seq<string>>, textures: seq<Vec2>, normals: seq<Vec3>,
                          moreTextures: seq<Vec2>, moreNormals: seq<Vec3>)
    requires ResolveAll(fs, textures, normals).Some?
    ensures ResolveAll(fs, textures + moreTextures, normals + moreNormals) == ResolveAll(fs, textures, normals)
    decreases |fs|
  {
    if |fs| > 0 {
      ResolveAllExtends(fs[..|fs| - 1], textures, normals, moreTextures, moreNormals);
      ResolveCornerExtends(fs[|fs| - 1], textures, normals, moreTextures, moreNormals);
    }
  }

  lemma ResolveCornerExtends(d: seq<string>, textures: seq<Vec2>, normals: seq<Vec3>,
                             moreTextures: seq<Vec2>, moreNormals: seq<Vec3>)
    requires ResolveCorner(d, textures, normals).Ok?
    ensures ResolveCorner(d, textures + moreTextures, normals + moreNormals) == ResolveCorner(d, textures, normals)
  {
    if d[1] != "" {
      var t := ParseInt(d[1]).value;
      assert (textures + moreTextures)[t - 1] == textures[t - 1];
    }
    var m := ParseInt(d[2]).value;
    assert (normals + moreNormals)[m - 1] == normals[m - 1];
  }

  lemma WriteAllSnoc(a: Attributes, cs: seq<Corner>, c: Corner, n: nat)
    requires SizedFor(a, n)
    requires forall k :: 0 <= k < |cs| ==> 0 <= cs[k].pos < n
    requires 0 <= c.pos < n
    ensures WriteAll(a, cs + [c], n) == WriteCorner(WriteAll(a, cs, n), c)
  {
    assert (cs + [c])[..|cs|] == cs;
  }

  /** One more corner processed: it resolves, names one of the n vertices
      and is written after the earlier ones. */
  lemma OneCorner(d: seq<string>, textures: seq<Vec2>, normals: seq<Vec3>, fs: seq<seq<string>>,
                  cs: seq<Corner>, n: nat, a: Attributes)
    requires ResolveAll(fs, textures, normals) == Some(cs)
    requires forall k :: 0 <= k < |cs| ==> 0 <= cs[k].pos < n
    requires a == WriteAll(Blank(n), cs, n)
    requires ApplyCorner(d, textures, normals, a).Ok?
    ensures ResolveAll(fs + [d], textures, normals).Some?
    ensures var cs' := ResolveAll(fs + [d], textures, normals).value;
      (forall k :: 0 <= k < |cs'| ==> 0 <= cs'[k].pos < n) &&
      ApplyCorner(d, textures, normals, a).value == WriteAll(Blank(n), cs', n)
  {
    ApplyCornerResolves(d, textures, normals, a, n);
    var c := ResolveCorner(d, textures, normals).value;
    ResolveAllSnoc(fs, d, textures, normals, cs, c);
    CornersInRangeSnoc(cs, c, n);
    WriteAllSnoc(Blank(n), cs, c, n);
  }

  lemma CornersInRangeSnoc(cs: seq<Corner>, c: Corner, n: nat)
    requires forall k :: 0 <= k < |cs| ==> 0 <= cs[k].pos < n
    requires 0 <= c.pos < n
    ensures forall k :: 0 <= k < |cs + [c]| ==> 0 <= (cs + [c])[k].pos < n
  {
  }

  lemma AppendThree<T>(xs: seq<T>, a: T, b: T, c: T)
    ensures xs + [a, b, c] == xs + [a] + [b] + [c]
  {
  }

  /** The corner's vertex field parses to index + 1. */
  predicate NamesVertex(d: seq<string>, index: int) {
    |d| > 0 && ParseInt(d[0]) == Some(index + 1)
  }

  lemma IndicesFromCorners(fs: seq<seq<string>>, textures: seq<Vec2>, normals: seq<Vec3>,
                           cs: seq<Corner>, indices: seq<int>)
    requires ResolveAll(fs, textures, normals) == Some(cs) && indices == Positions(cs)
    ensures |fs| == |indices|
    ensures forall k :: 0 <= k < |indices| ==> NamesVertex(fs[k], indices[k])
  {
    forall k | 0 <= k < |cs|
      ensures NamesVertex(fs[k], cs[k].pos)
    {
      CornerNamesVertex(fs[k], textures, normals, cs[k]);
    }
  }

  lemma CornerNamesVertex(d: seq<string>, textures: seq<Vec2>, normals: seq<Vec3>, c: Corner)
    requires ResolveCorner(d, textures, normals) == Ok(c)
    ensures NamesVertex(d, c.pos)
  {
  }

  /** What a resolved corner assigns: its vertex field names the vertex; an
      empty texture field gives (-1, -1), otherwise the named entry with V
      flipped; the normal field names the normal. */
  lemma CornerMeaning(d: seq<string>, textures: seq<Vec2>, normals: seq<Vec3>, c: Corner)
    requires ResolveCorner(d, textures, normals) == Ok(c)
    ensures |d| >= 3 && ParseInt(d[0]) == Some(c.pos + 1)
    ensures d[1] == "" ==> c.uv == Vec2(MinusOne, MinusOne)
    ensures d[1] != "" ==>
      ParseInt(d[1]).Some? && 1 <= ParseInt(d[1]).value <= |textures| &&
      c.uv == Vec2(textures[ParseInt(d[1]).value - 1].x, OneMinus(textures[ParseInt(d[1]).value - 1].y))
    ensures ParseInt(d[2]).Some? && 1 <= ParseInt(d[2]).value <= |normals| &&
      c.normal == normals[ParseInt(d[2]).value - 1]
  {
  }

  // ----- flattening -----

  /** The vertices' coordinates one after another, x, y, z. */
  function Flatten(vs: seq<Vec3>): seq<Float> {
    if |vs| == 0 then [] else Flatten(vs[..|vs| - 1]) + [vs[|vs| - 1].x, vs[|vs| - 1].y, vs[|vs| - 1].z]
  }

  /** The positions array has three floats per vertex, in declaration order. */
  lemma {:induction false} FlattenAt(vs: seq<Vec3>)
    ensures |Flatten(vs)| == 3 * |vs|
    ensures forall i :: 0 <= i < |vs| ==>
      Flatten(vs)[3 * i] == vs[i].x && Flatten(vs)[3 * i + 1] == vs[i].y && Flatten(vs)[3 * i + 2] == vs[i].z
  {
    if |vs| > 0 {
      FlattenAt(vs[..|vs| - 1]);
    }
  }

  /** The vertexPointer loop: each vertex's x, y and z stored after the
      previous vertex's. */
  method FlattenPositions(vertices: seq<Vec3>) returns (verticesArray: array<Float>)
    ensures verticesArray[..] == Flatten(vertices)
  {
    verticesArray := new Float[|vertices| * 3](_ => Zero);
    var vertexPointer := 0;
    var k := 0;
    while k < |vertices|
      invariant 0 <= k <= |vertices| && vertexPointer == 3 * k
      invariant verticesArray[..vertexPointer] == Flatten(vertices[..k])
    {
      var vertex := vertices[k];
      verticesArray[vertexPointer] := vertex.x;
      vertexPointer := vertexPointer + 1;
      verticesArray[vertexPointer] := vertex.y;
      vertexPointer := vertexPointer + 1;
      verticesArray[vertexPointer] := vertex.z;
      vertexPointer := vertexPointer + 1;
      assert vertices[..k + 1][..k] == vertices[..k];
      k := k + 1;
    }
    assert vertices[..k] == vertices;
    assert verticesArray[..] == verticesArray[..vertexPointer];
  }

  /** The index list copied element for element into an int[]. */
  method CopyIndices(indices: seq<int>) returns (indicesArray: array<int>)
    ensures indicesArray[..] == indices
  {
    indicesArray := new int[|indices|];
    for i := 0 to |indices|
      invariant indicesArray[..i] == indices[..i]
    {
      indicesArray[i] := indices[i];
    }
    assert indicesArray[..] == indicesArray[..|indices|];
  }
}
