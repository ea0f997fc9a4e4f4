/**
  The `tiledTexture` class: a plane cut into `kernel * kernel` textured tiles.
  Each VTK object the loop creates is a plain record here, keeping only what
  the code sets on it and which object it is connected to.
 */
module TiledTextures {
  import opened PyArith
  import opened Tiling

  datatype Vec3 = Vec3(x: real, y: real, z: real)

  /** `vtkPlaneSource`: the normal and the three points set on it. */
  datatype PlaneSource = PlaneSource(normal: Vec3, center: Point, point1: Point, point2: Point)

  /** `vtkExtractVOI` reading the image: the extent set on it. */
  datatype ExtractVoi = ExtractVoi(voi: seq<int>)

  /** `vtkTexture` fed by an extractor. */
  datatype Texture = Texture(input: ExtractVoi)

  /** `vtkTextureMapToPlane` fed by a plane source. */
  datatype TextureMapToPlane = TextureMapToPlane(input: PlaneSource)

  /** `vtkPolyDataMapper` fed by a texture mapper. */
  datatype PolyDataMapper = PolyDataMapper(input: TextureMapToPlane)

  /** `vtkActor` with its mapper, texture and user matrix (shared, not copied). */
  datatype Actor = Actor(mapper: PolyDataMapper, texture: Texture, userMatrix: array2<real>)

  /** The six objects one loop iteration appends, one to each list. */
  datatype TilePipeline = TilePipeline(
    source: PlaneSource, extract: ExtractVoi, texture: Texture,
    textMapper: TextureMapToPlane, mapper: PolyDataMapper, actor: Actor)

  /** The objects built for one tile and how they are connected. */
  function PipelineFor(t: Tile, normal: Vec3, userMatrix: array2<real>): TilePipeline {
    var source := PlaneSource(normal, t.center, t.point1, t.point2);
    var extract := ExtractVoi(t.voi);
    var texture := Texture(extract);
    var textMapper := TextureMapToPlane(source);
    var mapper := PolyDataMapper(textMapper);
    TilePipeline(source, extract, texture, textMapper, mapper, Actor(mapper, texture, userMatrix))
  }

  lemma SquareNonNegative(step: int)
    ensures step * step >= 0
  {
    if step < 0 { assert step * step == (-step) * (-step); }
  }

  /** The pipelines of tiles `0 .. n-1`, in loop order. */
  function PipelinesUpTo(w: nat, h: nat, step: int, normal: Vec3, userMatrix: array2<real>, n: nat): (ps: seq<TilePipeline>)
    requires step != 0
    ensures |ps| == n
  {
    if n == 0 then []
    else PipelinesUpTo(w, h, step, normal, userMatrix, n - 1) + [PipelineFor(TileAt(w, h, step, n - 1), normal, userMatrix)]
  }

  /** Everything `createTexture` appends for a step of `step`: one pipeline per tile. */
  function TilePipelines(w: nat, h: nat, step: int, normal: Vec3, userMatrix: array2<real>): (ps: seq<TilePipeline>)
    requires step != 0
    ensures |ps| == step * step
  {
    SquareNonNegative(step);
    PipelinesUpTo(w, h, step, normal, userMatrix, step * step)
  }

  /** Entry `k` of the appended pipelines is built from tile `k`, whose VOI it extracts and whose plane it maps. */
  lemma {:induction false} PipelinesUpToAt(w: nat, h: nat, step: int, normal: Vec3, userMatrix: array2<real>, n: nat, k: nat)
    requires step != 0 && k < n
    ensures var p, t := PipelinesUpTo(w, h, step, normal, userMatrix, n)[k], TileAt(w, h, step, k);
            && p.extract.voi == t.voi
            && p.source == PlaneSource(normal, t.center, t.point1, t.point2)
            && p.actor == Actor(p.mapper, p.texture, userMatrix)
            && p.texture.input == p.extract && p.mapper.input == p.textMapper && p.textMapper.input == p.source
  {
    if k < n - 1 {
      PipelinesUpToAt(w, h, step, normal, userMatrix, n - 1, k);
    }
  }

  /** Six lists of equal length read side by side. */
  function Zip(s: seq<PlaneSource>, v: seq<ExtractVoi>, t: seq<Texture>, tm: seq<TextureMapToPlane>,
               m: seq<PolyDataMapper>, a: seq<Actor>): (ps: seq<TilePipeline>)
    requires |v| == |s| && |t| == |s| && |tm| == |s| && |m| == |s| && |a| == |s|
    ensures |ps| == |s|
  {
    if |s| == 0 then []
    else
      var n := |s| - 1;
      Zip(s[..n], v[..n], t[..n], tm[..n], m[..n], a[..n]) + [TilePipeline(s[n], v[n], t[n], tm[n], m[n], a[n])]
  }

  /** One loop iteration: appending pipeline `i` to each list extends the zipped lists by it. */
  lemma AppendTile(start: seq<TilePipeline>, done: seq<TilePipeline>,
                   s: seq<PlaneSource>, v: seq<ExtractVoi>, t: seq<Texture>, tm: seq<TextureMapToPlane>,
                   m: seq<PolyDataMapper>, a: seq<Actor>, p: TilePipeline)
    requires |v| == |s| && |t| == |s| && |tm| == |s| && |m| == |s| && |a| == |s|
    requires Zip(s, v, t, tm, m, a) == start + done
    ensures Zip(s + [p.source], v + [p.extract], t + [p.texture], tm + [p.textMapper], m + [p.mapper], a + [p.actor])
         == start + (done + [p])
  {
    var n := |s|;
    assert (s + [p.source])[..n] == s && (v + [p.extract])[..n] == v && (t + [p.texture])[..n] == t;
    assert (tm + [p.textMapper])[..n] == tm && (m + [p.mapper])[..n] == m && (a + [p.actor])[..n] == a;
  }

  /**
    The 4x4 pose `T` after construction: the rotation block in the upper left,
    the centre in the translation column, and `[0, 0, 0, 1]` in the last row.
   */
  ghost predicate IsPose(m: array2<real>, center: Vec3, rotation: (nat, nat) -> real)
    reads m
  {
    && m.Length0 == 4 && m.Length1 == 4
    && (forall i, j :: 0 <= i < 3 && 0 <= j < 3 ==> m[i, j] == rotation(i, j))
    && m[0, 3] == center.x && m[1, 3] == center.y && m[2, 3] == center.z
    && m[3, 0] == 0.0 && m[3, 1] == 0.0 && m[3, 2] == 0.0 && m[3, 3] == 1.0
  }

  /**
    Copies the upper-left 4x4 entries of `marray` into a new matrix. A smaller
    array makes the source's indexing raise `IndexError`; that is the `null` result.
   */
  method StoreAsMatrix4x4(marray: array2<real>) returns (m: array2?<real>)
    ensures m != null <==> marray.Length0 >= 4 && marray.Length1 >= 4
    ensures m != null ==> fresh(m) && m.Length0 == 4 && m.Length1 == 4
    ensures m != null ==> forall i, j :: 0 <= i < 4 && 0 <= j < 4 ==> m[i, j] == marray[i, j]
  {
    if marray.Length0 < 4 || marray.Length1 < 4 {
      return null;
    }
    // a new vtkMatrix4x4 is the identity
    m := new real[4, 4]((i, j) => if i == j then 1.0 else 0.0);
    for i := 0 to 4
      invariant forall a, b :: 0 <= a < i && 0 <= b < 4 ==> m[a, b] == marray[a, b]
    {
      for j := 0 to 4
        invariant forall a, b :: 0 <= a < i && 0 <= b < 4 ==> m[a, b] == marray[a, b]
        invariant forall b :: 0 <= b < j ==> m[i, b] == marray[i, b]
      {
        m[i, j] := marray[i, j];
      }
    }
  }

  class TiledTexture {
    var path: string
    var w: nat
    var h: nat
    var center: Vec3
    var direction: Vec3
    var T: array2<real>
    var transform: array2<real>
    var sources: seq<PlaneSource>
    var vois: seq<ExtractVoi>
    var textures: seq<Texture>
    var textMappers: seq<TextureMapToPlane>
    var mappers: seq<PolyDataMapper>
    var actors: seq<Actor>

    /** The matrices are 4x4 and distinct, and the six lists have one entry per tile each. */
    ghost predicate Valid()
      reads this
    {
      && T.Length0 == 4 && T.Length1 == 4
      && transform.Length0 == 4 && transform.Length1 == 4
      && T != transform
      && |vois| == |sources| && |textures| == |sources| && |textMappers| == |sources|
      && |mappers| == |sources| && |actors| == |sources|
    }

    /** The six lists read side by side, one pipeline per tile. */
    ghost function Pipelines(): seq<TilePipeline>
      reads this
      requires Valid()
    {
      Zip(sources, vois, textures, textMappers, mappers, actors)
    }

    /**
      The constructor up to the call of `createTexture`: empty lists, the pose
      `T` (identity, rotation block, then the translation column) and the
      transform matrix copied from it. The image is not read: its size is given.
      The rotation that `R_2vect` writes is the parameter `rotation`.
     */
    constructor Init(imagePath: string, imageW: nat, imageH: nat, rotation: (nat, nat) -> real,
                     center: Vec3 := Vec3(0.0, 0.0, 0.0), direction: Vec3 := Vec3(0.0, 0.0, 1.0))
      ensures Valid() && fresh(T) && fresh(transform)
      ensures path == imagePath && w == imageW && h == imageH
      ensures this.center == center && this.direction == direction
      ensures Pipelines() == []
      ensures IsPose(T, center, rotation)
      ensures forall i, j :: 0 <= i < 4 && 0 <= j < 4 ==> transform[i, j] == T[i, j]
    {
      path := imagePath;
      sources := [];
      w, h := imageW, imageH;
      vois, textures, textMappers, mappers, actors := [], [], [], [], [];
      this.center := center;
      this.direction := direction;
      var m := new real[4, 4]((i: nat, j: nat) => if i < 3 && j < 3 then rotation(i, j) else if i == j then 1.0 else 0.0);
      m[0, 3] := center.x;
      m[1, 3] := center.y;
      m[2, 3] := center.z;
      T := m;
      var t := StoreAsMatrix4x4(m);
      transform := t;
    }

    /**
      The whole constructor: `Init` followed by `createTexture(kernel)`. With a
      kernel of 0 the constructor raises `ZeroDivisionError`; no object results.
      The defaults are those of the source.
     */
    static method New(imagePath: string, imageW: nat, imageH: nat, rotation: (nat, nat) -> real,
                      center: Vec3 := Vec3(0.0, 0.0, 0.0), direction: Vec3 := Vec3(0.0, 0.0, 1.0),
                      kernel: int := 4) returns (t: TiledTexture?)
      ensures t != null <==> kernel != 0
      ensures t != null ==> fresh(t) && t.Valid() && IsPose(t.T, center, rotation)
      ensures t != null ==> t.path == imagePath && t.w == imageW && t.h == imageH
      ensures t != null ==> t.center == center && t.direction == direction
      ensures t != null ==> forall i, j :: 0 <= i < 4 && 0 <= j < 4 ==> t.transform[i, j] == t.T[i, j]
      ensures t != null ==> t.Pipelines() == TilePipelines(imageW, imageH, kernel, direction, t.transform)
    {
      t := new TiledTexture.Init(imagePath, imageW, imageH, rotation, center, direction);
      var ok, _ := t.CreateTexture(kernel);
      if !ok {
        t := null;
      }
    }

    /** Appends the six objects of one tile, one to each list. */
    method AddPipeline(p: TilePipeline)
      requires Valid()
      modifies this`sources, this`vois, this`textures, this`textMappers, this`mappers, this`actors
      ensures Valid()
      ensures Pipelines() == old(Pipelines()) + [p]
    {
      AppendTile([], Pipelines(), sources, vois, textures, textMappers, mappers, actors, p);
      sources, vois, textures := sources + [p.source], vois + [p.extract], textures + [p.texture];
      textMappers, mappers, actors := textMappers + [p.textMapper], mappers + [p.mapper], actors + [p.actor];
    }

    /**
      Appends one pipeline per tile to the six lists, tiles in row-major order.
      `ok` is false when `kernel` is 0, the `ZeroDivisionError` of the size
      check, and then nothing is appended. `warned` is the size check's verdict.
     */
    method CreateTexture(kernel: int := 4) returns (ok: bool, warned: bool)
      requires Valid()
      modifies this`sources, this`vois, this`textures, this`textMappers, this`mappers, this`actors
      ensures Valid()
      ensures ok <==> kernel != 0
      ensures ok ==> warned == SizeWarning(w, h, kernel)
      ensures ok ==> Pipelines() == old(Pipelines()) + TilePipelines(w, h, kernel, direction, transform)
      ensures ok ==> |actors| == old(|actors|) + kernel * kernel
      ensures !ok ==> Pipelines() == old(Pipelines())
    {
      var step := kernel;
      if step == 0 {
        return false, false;
      }
      SquareNonNegative(step);
      var tiles := step * step;
      ok, warned := true, SizeWarning(w, h, step);
      ghost var start := Pipelines();
      var curX, curY := 0, 0;
      for i := 0 to tiles
        invariant Valid()
        invariant i > 0 ==> Cursor(curX, curY) == CursorAt(w, h, step, i - 1)
        invariant Pipelines() == start + PipelinesUpTo(w, h, step, direction, transform, i)
      {
        if i == 0 {
          curX, curY := 0, 0;
        } else if FloorMod(i, step) == 0 {
          curX := 0;
          curY := curY + FloorDiv(h, step);
        } else {
          curX := curX + FloorDiv(w, step);
        }
        assert Cursor(curX, curY) == CursorAt(w, h, step, i) by {
          if i > 0 { CursorNext(w, h, step, i); }
        }
        // the clamped box, its VOI and plane corners, then the six objects built from them
        var tile := TileFromBox(TileBox(w, h, step, Cursor(curX, curY)));
        AddPipeline(PipelineFor(tile, direction, transform));
      }
    }
  }
}
