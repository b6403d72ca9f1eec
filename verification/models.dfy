/** Models, meshes and primitives (lib/model.ts). A primitive holds up to four vertex
    buffers and a texture, set through fluent setters; the first `Draw` uploads the
    buffers into a fresh vertex array object, and every draw binds it, binds the texture
    when there is one and issues an indexed or a plain draw. */
module Models {
  import opened Wrappers
  import opened Algebra
  import opened WebGL

  /** A typed vertex or index buffer: `count` elements of `size` components each. */
  datatype BufferData = BufferData(count: int, size: int, componentType: int, normalized: bool, data: seq<real>)

  /** A mesh: its primitives and the transform to its model's frame. */
  datatype Mesh = Mesh(primitives: seq<Primitive>, matrix: Mat4)

  /** `new Mesh(primitives)`: the transform defaults to the identity. */
  function NewMesh(primitives: seq<Primitive>): (mesh: Mesh)
    ensures mesh.primitives == primitives && mesh.matrix == Identity()
  {
    Mesh(primitives, Identity())
  }

  class Model {
    var meshes: seq<Mesh>
    var matrix: Mat4

    /** `new Model()`: no meshes and the identity transform. */
    constructor()
      ensures meshes == [] && matrix == Identity()
    {
      meshes := [];
      matrix := Identity();
    }

    constructor WithMeshes(meshes: seq<Mesh>)
      ensures this.meshes == meshes && matrix == Identity()
    {
      this.meshes := meshes;
      matrix := Identity();
    }
  }

  // ---------------------------------------------------------------------------
  // The commands a primitive issues

  /** Where a buffer is wired: a vertex attribute slot, or the element array. */
  datatype Slot = Attribute(index: nat) | Indices

  /** The buffers of a primitive in the order `enableVAO` visits them: positions, texture
      coordinates and normals to attribute slots 0, 1 and 2, then the indices. */
  function Slots(positions: Option<BufferData>, texcoords: Option<BufferData>, normals: Option<BufferData>,
                 indices: Option<BufferData>): seq<(Slot, Option<BufferData>)>
  {
    [(Attribute(0), positions), (Attribute(1), texcoords), (Attribute(2), normals), (Indices, indices)]
  }

  /** `enableAttribute` / `enableIndices` for one buffer, uploaded into the buffer `name`. */
  function SlotCommands(slot: Slot, b: BufferData, name: Name): seq<Command>
  {
    match slot
    case Attribute(index) =>
      [CreateBuffer(name), BindBuffer(ARRAY_BUFFER, name), BufferDataUpload(ARRAY_BUFFER, b.data, STATIC_DRAW),
       VertexAttribPointer(index, b.size, b.componentType, b.normalized, 0, 0), EnableVertexAttribArray(index)]
    case Indices =>
      [CreateBuffer(name), BindBuffer(ELEMENT_ARRAY_BUFFER, name), BufferDataUpload(ELEMENT_ARRAY_BUFFER, b.data, STATIC_DRAW)]
  }

  /** The uploads for the present buffers among `slots`, taking buffer names from `next` on. */
  function UploadCommands(slots: seq<(Slot, Option<BufferData>)>, next: nat): seq<Command>
  {
    if |slots| == 0 then []
    else SlotUploads(slots[0].0, slots[0].1, next) + UploadCommands(slots[1..], next + Present(slots[0].1))
  }

  /** The uploads for one slot: none when its buffer is absent. */
  function SlotUploads(slot: Slot, b: Option<BufferData>, next: nat): seq<Command>
  {
    if b.Some? then SlotCommands(slot, b.value, Name(next)) else []
  }

  /** How many buffer names an optional buffer takes. */
  function Present(b: Option<BufferData>): nat
  {
    if b.Some? then 1 else 0
  }

  /** The uploads of the four slots, one slot after the other. */
  lemma SlotsUploadInOrder(positions: Option<BufferData>, texcoords: Option<BufferData>, normals: Option<BufferData>,
                           indices: Option<BufferData>, next: nat)
    ensures UploadCommands(Slots(positions, texcoords, normals, indices), next)
      == SlotUploads(Attribute(0), positions, next)
       + SlotUploads(Attribute(1), texcoords, next + Present(positions))
       + SlotUploads(Attribute(2), normals, next + Present(positions) + Present(texcoords))
       + SlotUploads(Indices, indices, next + Present(positions) + Present(texcoords) + Present(normals))
  {
    var slots := Slots(positions, texcoords, normals, indices);
    assert slots[0] == (Attribute(0), positions) && slots[1] == (Attribute(1), texcoords);
    assert slots[2] == (Attribute(2), normals) && slots[3] == (Indices, indices);
    UploadFour(slots, next);
  }

  /** The uploads of four slots are those of each slot in turn, each taking names after the
      buffers before it. */
  lemma UploadFour(s: seq<(Slot, Option<BufferData>)>, next: nat)
    requires |s| == 4
    ensures UploadCommands(s, next)
      == SlotUploads(s[0].0, s[0].1, next)
       + SlotUploads(s[1].0, s[1].1, next + Present(s[0].1))
       + SlotUploads(s[2].0, s[2].1, next + Present(s[0].1) + Present(s[1].1))
       + SlotUploads(s[3].0, s[3].1, next + Present(s[0].1) + Present(s[1].1) + Present(s[2].1))
  {
    var n1 := next + Present(s[0].1);
    var n2 := n1 + Present(s[1].1);
    var n3 := n2 + Present(s[2].1);
    var t1, t2, t3 := s[1..], s[2..], s[3..];
    var a, b, c, d := SlotUploads(s[0].0, s[0].1, next), SlotUploads(s[1].0, s[1].1, n1),
                      SlotUploads(s[2].0, s[2].1, n2), SlotUploads(s[3].0, s[3].1, n3);
    assert UploadCommands(t3, n3) == d by {
      assert t3[0] == s[3] && t3[1..] == [];
      assert d + [] == d;
    }
    assert UploadCommands(t2, n2) == c + d by {
      assert t2[0] == s[2] && t2[1..] == t3;
    }
    assert UploadCommands(t1, n1) == b + (c + d) by {
      assert t1[0] == s[1] && t1[1..] == t2;
    }
    assert UploadCommands(s, next) == a + (b + (c + d)) by {
      assert s[1..] == t1;
    }
    AppendThree(a, b, c, d);
  }

  lemma AppendThree<T>(a: seq<T>, b: seq<T>, c: seq<T>, d: seq<T>)
    ensures a + (b + (c + d)) == a + b + c + d
  {
  }

  /** The four uploads issued one after the other make the uploads of the four slots. */
  lemma UploadsJoin(start: seq<Command>, a: seq<Command>, b: seq<Command>, c: seq<Command>, log: seq<Command>,
                    positions: Option<BufferData>, texcoords: Option<BufferData>,
                    normals: Option<BufferData>, indices: Option<BufferData>, first: nat)
    requires a == start + SlotUploads(Attribute(0), positions, first)
    requires b == a + SlotUploads(Attribute(1), texcoords, first + Present(positions))
    requires c == b + SlotUploads(Attribute(2), normals, first + Present(positions) + Present(texcoords))
    requires log == c + SlotUploads(Indices, indices, first + Present(positions) + Present(texcoords) + Present(normals))
    ensures log == start + UploadCommands(Slots(positions, texcoords, normals, indices), first)
  {
    SlotsUploadInOrder(positions, texcoords, normals, indices, first);
    AppendFour(start, SlotUploads(Attribute(0), positions, first),
               SlotUploads(Attribute(1), texcoords, first + Present(positions)),
               SlotUploads(Attribute(2), normals, first + Present(positions) + Present(texcoords)),
               SlotUploads(Indices, indices, first + Present(positions) + Present(texcoords) + Present(normals)));
  }

  lemma AppendFour<T>(s: seq<T>, a: seq<T>, b: seq<T>, c: seq<T>, d: seq<T>)
    ensures s + a + b + c + d == s + (a + (b + (c + d)))
    ensures s + (a + b + c + d) == s + (a + (b + (c + d)))
  {
  }

  /** `enableVAO` with the next free name `first`: the vertex array takes `first`, and the
      buffers the names after it. */
  function VaoCommands(positions: Option<BufferData>, texcoords: Option<BufferData>, normals: Option<BufferData>,
                       indices: Option<BufferData>, first: nat): seq<Command>
  {
    [CreateVertexArray(Name(first)), BindVertexArray(Name(first))]
      + UploadCommands(Slots(positions, texcoords, normals, indices), first + 1)
  }

  /** How many names `enableVAO` takes: the vertex array and one buffer per present buffer. */
  function VaoNames(positions: Option<BufferData>, texcoords: Option<BufferData>, normals: Option<BufferData>,
                    indices: Option<BufferData>): nat
  {
    1 + (if positions.Some? then 1 else 0) + (if texcoords.Some? then 1 else 0)
      + (if normals.Some? then 1 else 0) + (if indices.Some? then 1 else 0)
  }

  /** The draw call itself: indexed when there are indices, else a plain draw of the
      positions, else nothing. */
  function DrawCall(mode: int, positions: Option<BufferData>, indices: Option<BufferData>): seq<Command>
  {
    if indices.Some? then [DrawElements(mode, indices.value.count, indices.value.componentType, 0)]
    else if positions.Some? then [DrawArrays(mode, 0, positions.value.count)]
    else []
  }

  /** What every draw issues once the vertex array exists. */
  function BindAndDraw(vao: Name, texture: Option<TextureRef>, mode: int, positions: Option<BufferData>,
                       indices: Option<BufferData>): seq<Command>
  {
    [BindVertexArray(vao)]
      + (if texture.Some? then [ActiveTexture(TEXTURE0), BindTexture(TEXTURE_2D, texture.value)] else [])
      + DrawCall(mode, positions, indices)
  }

  /** True of the commands that draw. */
  predicate IsDraw(c: Command)
  {
    c.DrawElements? || c.DrawArrays?
  }

  /** The commands that show in the frame: uniform settings and draws. */
  predicate Shown(c: Command)
  {
    c.Uniform? || IsDraw(c)
  }

  /** The uniform and draw commands of a log, in order. */
  function Visible(log: seq<Command>): (r: seq<Command>)
    ensures forall c :: c in r ==> c in log && Shown(c)
  {
    if |log| == 0 then [] else (if Shown(log[0]) then [log[0]] else []) + Visible(log[1..])
  }

  lemma {:induction false} VisibleAppend(a: seq<Command>, b: seq<Command>)
    ensures Visible(a + b) == Visible(a) + Visible(b)
  {
    if |a| > 0 {
      assert (a + b)[1..] == a[1..] + b;
      VisibleAppend(a[1..], b);
    } else {
      assert a + b == b;
    }
  }

  lemma VisibleOne(c: Command)
    ensures Visible([c]) == if Shown(c) then [c] else []
  {
    assert [c][1..] == [];
  }

  lemma {:induction false} NoneShown(log: seq<Command>)
    requires forall i :: 0 <= i < |log| ==> !Shown(log[i])
    ensures Visible(log) == []
  {
    if |log| > 0 {
      assert forall i :: 0 <= i < |log[1..]| ==> log[1..][i] == log[i + 1];
      NoneShown(log[1..]);
    }
  }

  /** One buffer's upload shows nothing. */
  lemma SlotShowsNothing(slot: Slot, b: Option<BufferData>, next: nat)
    ensures Visible(SlotUploads(slot, b, next)) == []
  {
    NoneShown(SlotUploads(slot, b, next));
  }

  /** The uploads of any slots show nothing. */
  lemma {:induction false} UploadsShowNothing(slots: seq<(Slot, Option<BufferData>)>, next: nat)
    ensures Visible(UploadCommands(slots, next)) == []
  {
    if |slots| > 0 {
      var n := next + Present(slots[0].1);
      var first, rest := SlotUploads(slots[0].0, slots[0].1, next), UploadCommands(slots[1..], n);
      assert UploadCommands(slots, next) == first + rest;
      SlotShowsNothing(slots[0].0, slots[0].1, next);
      UploadsShowNothing(slots[1..], n);
      VisibleAppend(first, rest);
    }
  }

  /** `enableVAO` shows nothing: it only creates, binds, uploads and enables. */
  lemma VaoShowsNothing(positions: Option<BufferData>, texcoords: Option<BufferData>, normals: Option<BufferData>,
                        indices: Option<BufferData>, first: nat)
    ensures Visible(VaoCommands(positions, texcoords, normals, indices, first)) == []
  {
    var prefix: seq<Command> := [CreateVertexArray(Name(first)), BindVertexArray(Name(first))];
    var uploads := UploadCommands(Slots(positions, texcoords, normals, indices), first + 1);
    NoneShown(prefix);
    UploadsShowNothing(Slots(positions, texcoords, normals, indices), first + 1);
    VisibleAppend(prefix, uploads);
  }

  /** All a draw shows once its vertex array exists is its draw call: one `drawElements`
      with the index count when indices are set, else one `drawArrays` with the vertex count
      when positions are set, else nothing. Binding the array and the texture shows nothing. */
  lemma DrawShowsDrawCall(vao: Name, texture: Option<TextureRef>, mode: int,
                          positions: Option<BufferData>, indices: Option<BufferData>)
    ensures Visible(BindAndDraw(vao, texture, mode, positions, indices)) == DrawCall(mode, positions, indices)
  {
    var binds: seq<Command> := [BindVertexArray(vao)]
      + (if texture.Some? then [ActiveTexture(TEXTURE0), BindTexture(TEXTURE_2D, texture.value)] else []);
    NoneShown(binds);
    var call := DrawCall(mode, positions, indices);
    VisibleAppend(binds, call);
    if |call| > 0 {
      VisibleOne(call[0]);
      assert call == [call[0]];
    }
  }

  /** A texture is bound exactly when one is set, and it is that texture. */
  lemma TextureBoundOnlyWhenSet(vao: Name, texture: Option<TextureRef>, mode: int, positions: Option<BufferData>,
                                indices: Option<BufferData>, t: TextureRef)
    ensures BindTexture(TEXTURE_2D, t) in BindAndDraw(vao, texture, mode, positions, indices) <==> texture == Some(t)
  {
    var call := DrawCall(mode, positions, indices);
    assert forall c :: c in call ==> IsDraw(c);
    if texture.Some? {
      assert BindAndDraw(vao, texture, mode, positions, indices)
        == [BindVertexArray(vao), ActiveTexture(TEXTURE0), BindTexture(TEXTURE_2D, texture.value)] + call;
    } else {
      assert BindAndDraw(vao, texture, mode, positions, indices) == [BindVertexArray(vao)] + call;
    }
  }

  lemma UploadEnables(slots: seq<(Slot, Option<BufferData>)>, next: nat, k: nat)
    ensures EnableVertexAttribArray(k) in UploadCommands(slots, next)
      <==> exists i :: 0 <= i < |slots| && slots[i].0 == Attribute(k) && slots[i].1.Some?
  {
    UploadEnablesSet(slots, next, k);
    AttributeSetExists(slots, k);
  }

  /** Some slot among `slots` is attribute k with its buffer set. */
  predicate AttributeSet(slots: seq<(Slot, Option<BufferData>)>, k: nat)
  {
    |slots| > 0 && ((slots[0].0 == Attribute(k) && slots[0].1.Some?) || AttributeSet(slots[1..], k))
  }

  /** The uploads enable attribute k exactly when some slot sets it, by induction on the slots. */
  lemma {:induction false} UploadEnablesSet(slots: seq<(Slot, Option<BufferData>)>, next: nat, k: nat)
    ensures EnableVertexAttribArray(k) in UploadCommands(slots, next) <==> AttributeSet(slots, k)
  {
    if |slots| > 0 {
      UploadEnablesSet(slots[1..], next + Present(slots[0].1), k);
      var rest := UploadCommands(slots[1..], next + Present(slots[0].1));
      var head := SlotUploads(slots[0].0, slots[0].1, next);
      assert UploadCommands(slots, next) == head + rest;
      SlotUploadsEnable(slots[0].0, slots[0].1, next, k);
    }
  }

  /** The recursive reading of `AttributeSet` agrees with the existential one. */
  lemma {:induction false} AttributeSetExists(slots: seq<(Slot, Option<BufferData>)>, k: nat)
    ensures AttributeSet(slots, k)
      <==> exists i :: 0 <= i < |slots| && slots[i].0 == Attribute(k) && slots[i].1.Some?
  {
    if |slots| > 0 {
      AttributeSetExists(slots[1..], k);
      SlotSetStep(slots, k);
    }
  }

  /** One slot's uploads enable attribute k exactly when it is slot k and its buffer is set. */
  lemma SlotUploadsEnable(slot: Slot, b: Option<BufferData>, next: nat, k: nat)
    ensures EnableVertexAttribArray(k) in SlotUploads(slot, b, next) <==> slot == Attribute(k) && b.Some?
  {
  }

  /** A set slot for attribute k is the first slot or a set slot among the rest. */
  lemma SlotSetStep(slots: seq<(Slot, Option<BufferData>)>, k: nat)
    requires |slots| > 0
    ensures (exists i :: 0 <= i < |slots| && slots[i].0 == Attribute(k) && slots[i].1.Some?)
      <==> ((slots[0].0 == Attribute(k) && slots[0].1.Some?)
            || (exists i :: 0 <= i < |slots[1..]| && slots[1..][i].0 == Attribute(k) && slots[1..][i].1.Some?))
  {
    if exists i :: 0 <= i < |slots| && slots[i].0 == Attribute(k) && slots[i].1.Some? {
      var i :| 0 <= i < |slots| && slots[i].0 == Attribute(k) && slots[i].1.Some?;
      if i > 0 {
        assert slots[1..][i - 1] == slots[i];
      }
    }
    if exists i :: 0 <= i < |slots[1..]| && slots[1..][i].0 == Attribute(k) && slots[1..][i].1.Some? {
      var i :| 0 <= i < |slots[1..]| && slots[1..][i].0 == Attribute(k) && slots[1..][i].1.Some?;
      assert slots[i + 1] == slots[1..][i];
    }
  }

  /** `enableVAO` enables attribute slot k exactly when slot k's buffer is set: 0 for
      positions, 1 for texture coordinates, 2 for normals, and no other slot. */
  lemma VaoEnablesPresentSlots(positions: Option<BufferData>, texcoords: Option<BufferData>, normals: Option<BufferData>,
                               indices: Option<BufferData>, first: nat, k: nat)
    ensures EnableVertexAttribArray(k) in VaoCommands(positions, texcoords, normals, indices, first)
      <==> (k == 0 && positions.Some?) || (k == 1 && texcoords.Some?) || (k == 2 && normals.Some?)
  {
    var slots := Slots(positions, texcoords, normals, indices);
    UploadEnables(slots, first + 1, k);
    var cmds := VaoCommands(positions, texcoords, normals, indices, first);
    assert cmds == [CreateVertexArray(Name(first)), BindVertexArray(Name(first))] + UploadCommands(slots, first + 1);
    if (k == 0 && positions.Some?) || (k == 1 && texcoords.Some?) || (k == 2 && normals.Some?) {
      assert slots[k].0 == Attribute(k) && slots[k].1.Some?;
    }
  }

  /** A draw after the first creates no vertex array: the commands of a draw with the vertex
      array already made create nothing. */
  lemma LaterDrawsCreateNothing(vao: Name, texture: Option<TextureRef>, mode: int, positions: Option<BufferData>,
                                indices: Option<BufferData>)
    ensures forall c :: c in BindAndDraw(vao, texture, mode, positions, indices) ==>
      !c.CreateVertexArray? && !c.CreateBuffer?
  {
  }

  // ---------------------------------------------------------------------------
  // Primitives

  class Primitive {
    var mode: int
    var vao: Option<Name>
    var positions: Option<BufferData>
    var texcoords: Option<BufferData>
    var texture: Option<TextureRef>
    var normals: Option<BufferData>
    var indices: Option<BufferData>

    /** A primitive with nothing set, drawn as triangles. */
    constructor()
      ensures mode == TRIANGLES && vao == None && positions == None && texcoords == None
      ensures texture == None && normals == None && indices == None
    {
      mode := TRIANGLES;
      vao := None;
      positions := None;
      texcoords := None;
      texture := None;
      normals := None;
      indices := None;
    }

    method SetPositions(bufferData: BufferData) returns (self: Primitive)
      modifies this
      ensures self == this && positions == Some(bufferData)
      ensures mode == old(mode) && vao == old(vao) && texcoords == old(texcoords)
      ensures texture == old(texture) && normals == old(normals) && indices == old(indices)
    {
      positions := Some(bufferData);
      self := this;
    }

    method SetTexCoords(bufferData: BufferData) returns (self: Primitive)
      modifies this
      ensures self == this && texcoords == Some(bufferData)
      ensures mode == old(mode) && vao == old(vao) && positions == old(positions)
      ensures texture == old(texture) && normals == old(normals) && indices == old(indices)
    {
      texcoords := Some(bufferData);
      self := this;
    }

    method SetNormals(bufferData: BufferData) returns (self: Primitive)
      modifies this
      ensures self == this && normals == Some(bufferData)
      ensures mode == old(mode) && vao == old(vao) && positions == old(positions)
      ensures texcoords == old(texcoords) && texture == old(texture) && indices == old(indices)
    {
      normals := Some(bufferData);
      self := this;
    }

    method SetIndices(bufferData: BufferData) returns (self: Primitive)
      modifies this
      ensures self == this && indices == Some(bufferData)
      ensures mode == old(mode) && vao == old(vao) && positions == old(positions)
      ensures texcoords == old(texcoords) && texture == old(texture) && normals == old(normals)
    {
      indices := Some(bufferData);
      self := this;
    }

    method SetTexture(texture: TextureRef) returns (self: Primitive)
      modifies this
      ensures self == this && this.texture == Some(texture)
      ensures mode == old(mode) && vao == old(vao) && positions == old(positions)
      ensures texcoords == old(texcoords) && normals == old(normals) && indices == old(indices)
    {
      this.texture := Some(texture);
      self := this;
    }

    /** `enableAttribute` / `enableIndices`: one buffer uploaded into a fresh buffer object. */
    static method Upload(gl: Context, slot: Slot, b: Option<BufferData>)
      modifies gl
      ensures gl.log == old(gl.log) + SlotUploads(slot, b, old(gl.nextName))
      ensures gl.nextName == old(gl.nextName) + Present(b)
      ensures gl.shaders == old(gl.shaders) && gl.attached == old(gl.attached) && gl.linked == old(gl.linked)
    {
      if b.Some? {
        var name := gl.NewBuffer();
        match slot {
          case Attribute(index) =>
            gl.Issue(BindBuffer(ARRAY_BUFFER, name));
            gl.Issue(BufferDataUpload(ARRAY_BUFFER, b.value.data, STATIC_DRAW));
            gl.Issue(VertexAttribPointer(index, b.value.size, b.value.componentType, b.value.normalized, 0, 0));
            gl.Issue(EnableVertexAttribArray(index));
          case Indices =>
            gl.Issue(BindBuffer(ELEMENT_ARRAY_BUFFER, name));
            gl.Issue(BufferDataUpload(ELEMENT_ARRAY_BUFFER, b.value.data, STATIC_DRAW));
        }
      }
    }

    /** The four uploads of `enableVAO`, in slot order. */
    static method UploadAll(gl: Context, positions: Option<BufferData>, texcoords: Option<BufferData>,
                            normals: Option<BufferData>, indices: Option<BufferData>)
      modifies gl
      ensures gl.log == old(gl.log) + UploadCommands(Slots(positions, texcoords, normals, indices), old(gl.nextName))
      ensures gl.nextName + 1 == old(gl.nextName) + VaoNames(positions, texcoords, normals, indices)
      ensures gl.shaders == old(gl.shaders) && gl.attached == old(gl.attached) && gl.linked == old(gl.linked)
    {
      ghost var start := gl.log;
      ghost var first := gl.nextName;
      Upload(gl, Attribute(0), positions);
      ghost var a := gl.log;
      Upload(gl, Attribute(1), texcoords);
      ghost var b := gl.log;
      Upload(gl, Attribute(2), normals);
      ghost var c := gl.log;
      Upload(gl, Indices, indices);
      UploadsJoin(start, a, b, c, gl.log, positions, texcoords, normals, indices, first);
    }

    /** `enableVAO`: a fresh vertex array, bound, with every set buffer uploaded and wired. */
    method EnableVao(gl: Context)
      modifies this, gl
      ensures vao == Some(Name(old(gl.nextName)))
      ensures gl.log == old(gl.log) + VaoCommands(positions, texcoords, normals, indices, old(gl.nextName))
      ensures gl.nextName == old(gl.nextName) + VaoNames(positions, texcoords, normals, indices)
      ensures gl.shaders == old(gl.shaders) && gl.attached == old(gl.attached) && gl.linked == old(gl.linked)
      ensures mode == old(mode) && positions == old(positions) && texcoords == old(texcoords)
      ensures texture == old(texture) && normals == old(normals) && indices == old(indices)
    {
      var name := gl.NewVertexArray();
      vao := Some(name);
      gl.Issue(BindVertexArray(name));
      UploadAll(gl, positions, texcoords, normals, indices);
    }

    /** `draw`: creates the vertex array on the first draw only, then binds it, binds the
        texture if one is set and issues the draw call. */
    method Draw(gl: Context)
      modifies this, gl
      ensures old(vao).None? ==>
        && vao == Some(Name(old(gl.nextName)))
        && gl.log == old(gl.log) + VaoCommands(positions, texcoords, normals, indices, old(gl.nextName))
                     + BindAndDraw(vao.value, texture, mode, positions, indices)
        && gl.nextName == old(gl.nextName) + VaoNames(positions, texcoords, normals, indices)
      ensures old(vao).Some? ==>
        && vao == old(vao)
        && gl.log == old(gl.log) + BindAndDraw(vao.value, texture, mode, positions, indices)
        && gl.nextName == old(gl.nextName)
      ensures gl.shaders == old(gl.shaders) && gl.attached == old(gl.attached) && gl.linked == old(gl.linked)
      ensures mode == old(mode) && positions == old(positions) && texcoords == old(texcoords)
      ensures texture == old(texture) && normals == old(normals) && indices == old(indices)
    {
      if vao == None {
        EnableVao(gl);
      }
      BindAndIssue(gl);
    }

    /** The part of `draw` after the vertex array exists: bind it, bind the texture if one
        is set, issue the draw call. */
    method BindAndIssue(gl: Context)
      requires vao.Some?
      modifies gl
      ensures gl.log == old(gl.log) + BindAndDraw(vao.value, texture, mode, positions, indices)
      ensures gl.nextName == old(gl.nextName) && gl.shaders == old(gl.shaders)
      ensures gl.attached == old(gl.attached) && gl.linked == old(gl.linked)
    {
      ghost var before := gl.log;
      gl.Issue(BindVertexArray(vao.value));
      if texture != None {
        gl.Issue(ActiveTexture(TEXTURE0));
        gl.Issue(BindTexture(TEXTURE_2D, texture.value));
      }
      if indices != None {
        gl.Issue(DrawElements(mode, indices.value.count, indices.value.componentType, 0));
      } else if positions != None {
        gl.Issue(DrawArrays(mode, 0, positions.value.count));
      }
      assert gl.log == before + BindAndDraw(vao.value, texture, mode, positions, indices);
    }
  }
}
