/** The glTF 2.0 loader (lib/loader.ts): the accessor tables, the strided copy of an
    accessor's components out of the BIN chunk (section 3.6.2 of the glTF 2.0
    specification), the choice of a primitive's texture, and the pre-order walk of the node
    hierarchy (section 3.5.3) that appends one mesh per mesh-bearing node with its global
    transform. The JSON document is taken already parsed, with node ids resolved into a
    tree; the textures are taken already created. */
module Loader {
  import opened Wrappers
  import opened Algebra
  import opened WebGL
  import opened Models
  import opened Glb

  // ---------------------------------------------------------------------------
  // The accessor tables

  datatype ComponentType = Int8 | UInt8 | Int16 | UInt16 | UInt32 | Float32

  /** The `componentType` code of each typed-array kind. */
  function ComponentCode(t: ComponentType): int
  {
    match t
    case Int8 => 5120
    case UInt8 => 5121
    case Int16 => 5122
    case UInt16 => 5123
    case UInt32 => 5125
    case Float32 => 5126
  }

  /** `COMPONENT_TYPE[code]`: undefined for a code outside the table. */
  function ComponentFromCode(code: int): Option<ComponentType>
  {
    if code == 5120 then Some(Int8)
    else if code == 5121 then Some(UInt8)
    else if code == 5122 then Some(Int16)
    else if code == 5123 then Some(UInt16)
    else if code == 5125 then Some(UInt32)
    else if code == 5126 then Some(Float32)
    else None
  }

  lemma ComponentCodeRoundTrip(t: ComponentType)
    ensures ComponentFromCode(ComponentCode(t)) == Some(t)
  {
  }

  /** The table holds exactly the six codes, each for the kind with that code. */
  lemma ComponentFromCodeInverse(code: int)
    ensures ComponentFromCode(code).Some? <==> code in {5120, 5121, 5122, 5123, 5125, 5126}
    ensures ComponentFromCode(code).Some? ==> ComponentCode(ComponentFromCode(code).value) == code
  {
  }

  /** `BYTES_PER_ELEMENT`. */
  function BytesPerElement(t: ComponentType): (n: nat)
    ensures n in {1, 2, 4}
  {
    match t
    case Int8 => 1
    case UInt8 => 1
    case Int16 => 2
    case UInt16 => 2
    case UInt32 => 4
    case Float32 => 4
  }

  /** The accessor `type` names. */
  datatype ElementType = SCALAR | VEC2 | VEC3 | VEC4 | MAT2 | MAT3 | MAT4

  /** `ELEMENT_SIZE`: components per element. */
  function ElementSize(e: ElementType): (n: nat)
    ensures n in {1, 2, 3, 4, 9, 16}
  {
    match e
    case SCALAR => 1
    case VEC2 => 2
    case VEC3 => 3
    case VEC4 => 4
    case MAT2 => 4
    case MAT3 => 9
    case MAT4 => 16
  }

  /** One component as the typed array reads it: little-endian, two's complement for the
      signed kinds; a 32-bit float as the platform decodes it. */
  function Decode(t: ComponentType, bytes: seq<Byte>, float32: seq<Byte> -> real): real
    requires |bytes| == BytesPerElement(t)
  {
    var u := LittleEndian(bytes);
    match t
    case Int8 => (if u < 128 then u else u - 256) as real
    case UInt8 => u as real
    case Int16 => (if u < 32768 then u else u - 65536) as real
    case UInt16 => u as real
    case UInt32 => u as real
    case Float32 => float32(bytes)
  }

  /** The integer kinds decode into their ranges. */
  lemma DecodeRange(t: ComponentType, bytes: seq<Byte>, float32: seq<Byte> -> real)
    requires |bytes| == BytesPerElement(t) && t != Float32
    ensures var x := Decode(t, bytes, float32);
      && (t == Int8 ==> -128.0 <= x <= 127.0)
      && (t == UInt8 ==> 0.0 <= x <= 255.0)
      && (t == Int16 ==> -32768.0 <= x <= 32767.0)
      && (t == UInt16 ==> 0.0 <= x <= 65535.0)
      && (t == UInt32 ==> 0.0 <= x < 4294967296.0)
  {
    Pow256Four();
    assert Pow256(2) == 65536 by { assert Pow256(1) == 256; }
  }

  // ---------------------------------------------------------------------------
  // The parsed document

  datatype Accessor = Accessor(
    bufferView: Option<nat>,
    byteOffset: Option<nat>,
    componentType: int,
    count: nat,
    elementType: ElementType,
    normalized: Option<bool>)

  datatype BufferView = BufferView(byteOffset: Option<nat>, byteStride: Option<nat>)

  /** A material's `pbrMetallicRoughness.baseColorTexture.index` and `emissiveTexture.index`. */
  datatype Material = Material(baseColorTexture: Option<nat>, emissiveTexture: Option<nat>)

  /** A mesh primitive: the accessors of its `POSITION`, `TEXCOORD_0` and `NORMAL`
      attributes and of its indices, and its material. */
  datatype PrimitiveSpec = PrimitiveSpec(
    position: Option<nat>,
    texcoord: Option<nat>,
    normal: Option<nat>,
    indices: Option<nat>,
    material: Option<nat>)

  datatype MeshSpec = MeshSpec(primitives: seq<PrimitiveSpec>)

  /** A node with its children inline. */
  datatype Node = Node(
    matrix: Option<Mat4>,
    translation: Option<Vec3>,
    rotation: Option<Vec4>,
    scale: Option<Vec3>,
    mesh: Option<nat>,
    children: seq<Node>)

  datatype Scene = Scene(nodes: seq<Node>)

  datatype Document = Document(
    scenes: seq<Scene>,
    scene: Option<nat>,
    meshes: seq<MeshSpec>,
    materials: seq<Material>,
    accessors: seq<Accessor>,
    bufferViews: seq<BufferView>)

  /** What a load works from: the document, the BIN chunk's bytes, the textures made from
      the document's images, and the platform's 32-bit float decoding. */
  datatype Asset = Asset(gltf: Document, bin: seq<Byte>, textures: seq<Name>, float32: seq<Byte> -> real)

  /** Why a load throws: a missing accessor, an unknown component type, a missing buffer
      view, a read that is misaligned or past the end of the BIN chunk, a missing mesh,
      material or scene. */
  datatype LoadError =
    | MissingAccessor
    | UnknownComponentType
    | MissingBufferView
    | RangeError
    | MissingMesh
    | MissingMaterial
    | MissingScene

  // ---------------------------------------------------------------------------
  // access

  /** Where element k starts. */
  function ElementOffset(base: nat, stride: nat, k: nat): nat
  {
    base + k * stride
  }

  /** `new typedArray(bin, offset, size)` succeeds: the offset is a multiple of the component
      size and the element ends inside the buffer. */
  predicate Readable(binLength: nat, t: ComponentType, size: nat, offset: nat)
  {
    offset % BytesPerElement(t) == 0 && offset + size * BytesPerElement(t) <= binLength
  }

  /** The component at `offset` (never past the end on a successful access). */
  function ComponentAt(bin: seq<Byte>, t: ComponentType, offset: nat, float32: seq<Byte> -> real): real
  {
    if offset + BytesPerElement(t) <= |bin| then Decode(t, bin[offset..offset + BytesPerElement(t)], float32)
    else 0.0
  }

  /** The layout `access` reads an accessor with: its component type, components per
      element, the start of element 0 and the distance between elements. */
  datatype Layout = Layout(t: ComponentType, size: nat, base: nat, stride: nat)

  /** The layout of an accessor, or why there is none, in the order `access` would throw. */
  function AccessorLayout(gltf: Document, accessorId: nat): (r: Result<Layout, LoadError>)
    ensures r.Ok? ==> r.value.size in {1, 2, 3, 4, 9, 16}
  {
    if accessorId >= |gltf.accessors| then Err(MissingAccessor)
    else
      var accessor := gltf.accessors[accessorId];
      var t := ComponentFromCode(accessor.componentType);
      if t.None? then Err(UnknownComponentType)
      else if accessor.bufferView.None? || accessor.bufferView.value >= |gltf.bufferViews| then Err(MissingBufferView)
      else
        var view := gltf.bufferViews[accessor.bufferView.value];
        var size := ElementSize(accessor.elementType);
        var unitLength := size * BytesPerElement(t.value);
        var stride := if view.byteStride.GetOr(0) == 0 then unitLength else view.byteStride.value;
        Ok(Layout(t.value, size, view.byteOffset.GetOr(0) + accessor.byteOffset.GetOr(0), stride))
  }

  /** Every element of the accessor can be read. */
  predicate AllReadable(binLength: nat, layout: Layout, count: nat)
  {
    forall k :: 0 <= k < count ==> Readable(binLength, layout.t, layout.size, ElementOffset(layout.base, layout.stride, k))
  }

  /** Component i of the copy: component i % size of element i / size. */
  function Copied(bin: seq<Byte>, layout: Layout, i: nat, float32: seq<Byte> -> real): real
    requires layout.size >= 1
  {
    ComponentAt(bin, layout.t, ElementOffset(layout.base, layout.stride, i / layout.size) + (i % layout.size) * BytesPerElement(layout.t), float32)
  }

  /** `access(gltf, bin, accessorId)`. */
  function AccessSpec(asset: Asset, accessorId: nat): (r: Result<BufferData, LoadError>)
  {
    var layout := AccessorLayout(asset.gltf, accessorId);
    if layout.Err? then Err(layout.error)
    else
      var accessor := asset.gltf.accessors[accessorId];
      var l := layout.value;
      if !AllReadable(|asset.bin|, l, accessor.count) then Err(RangeError)
      else
        Ok(BufferData(accessor.count, l.size, accessor.componentType, accessor.normalized.GetOr(false),
                      seq(accessor.count * l.size, i requires 0 <= i => Copied(asset.bin, l, i, asset.float32))))
  }

  /** The component and element sizes are small constants, so the index arithmetic below
      is linear once the size is known. */
  lemma DivMod(k: nat, j: nat, size: nat)
    requires size in {1, 2, 3, 4, 9, 16} && j < size
    ensures (k * size + j) / size == k && (k * size + j) % size == j
  {
    if size == 1 {
    } else if size == 2 {
    } else if size == 3 {
    } else if size == 4 {
    } else if size == 9 {
    } else {
    }
  }

  lemma IndexBound(k: nat, j: nat, size: nat, count: nat)
    requires size in {1, 2, 3, 4, 9, 16} && k < count && j < size
    ensures k * size + j < count * size
  {
    if size == 1 {
    } else if size == 2 {
    } else if size == 3 {
    } else if size == 4 {
    } else if size == 9 {
    } else {
    }
  }

  lemma ComponentInside(j: nat, size: nat, bpe: nat)
    requires bpe in {1, 2, 4} && j < size
    ensures j * bpe + bpe <= size * bpe
  {
    if bpe == 1 {
    } else if bpe == 2 {
    } else {
    }
  }

  /** `access` fails with a range error exactly when some element's read is misaligned or
      runs past the end of the BIN chunk. */
  lemma AccessFailsExactly(asset: Asset, accessorId: nat)
    requires AccessorLayout(asset.gltf, accessorId).Ok?
    ensures var l := AccessorLayout(asset.gltf, accessorId).value;
      AccessSpec(asset, accessorId).Err? <==>
        exists k :: 0 <= k < asset.gltf.accessors[accessorId].count
          && !Readable(|asset.bin|, l.t, l.size, ElementOffset(l.base, l.stride, k))
  {
  }

  /** On success the buffer has the accessor's count, size and component type, and exactly
      count·size components. */
  lemma AccessShape(asset: Asset, accessorId: nat)
    requires AccessSpec(asset, accessorId).Ok?
    ensures var accessor := asset.gltf.accessors[accessorId];
      var b := AccessSpec(asset, accessorId).value;
      && b.count == accessor.count && b.size == ElementSize(accessor.elementType)
      && b.componentType == accessor.componentType && b.normalized == accessor.normalized.GetOr(false)
      && |b.data| == accessor.count * ElementSize(accessor.elementType)
  {
  }

  /** Component j of element k is read at base + k·stride + j·BYTES_PER_ELEMENT, inside the
      buffer. */
  lemma AccessComponent(asset: Asset, accessorId: nat, k: nat, j: nat)
    requires AccessSpec(asset, accessorId).Ok?
    requires k < asset.gltf.accessors[accessorId].count && j < ElementSize(asset.gltf.accessors[accessorId].elementType)
    ensures var l := AccessorLayout(asset.gltf, accessorId).value;
      var bpe := BytesPerElement(l.t);
      var offset := ElementOffset(l.base, l.stride, k) + j * bpe;
      && offset + bpe <= |asset.bin|
      && k * l.size + j < |AccessSpec(asset, accessorId).value.data|
      && AccessSpec(asset, accessorId).value.data[k * l.size + j] == Decode(l.t, asset.bin[offset..offset + bpe], asset.float32)
  {
    var l := AccessorLayout(asset.gltf, accessorId).value;
    ReadableAt(asset, accessorId, k);
    IndexBound(k, j, l.size, asset.gltf.accessors[accessorId].count);
    AccessData(asset, accessorId, k * l.size + j);
    CopiedAt(asset.bin, l, k, j, asset.float32);
  }

  /** Every element of a successful access was readable. */
  lemma ReadableAt(asset: Asset, accessorId: nat, k: nat)
    requires AccessSpec(asset, accessorId).Ok? && k < asset.gltf.accessors[accessorId].count
    ensures var l := AccessorLayout(asset.gltf, accessorId).value;
      Readable(|asset.bin|, l.t, l.size, ElementOffset(l.base, l.stride, k))
  {
  }

  /** Component i of a successful access is the copy's component i. */
  lemma AccessData(asset: Asset, accessorId: nat, i: nat)
    requires AccessSpec(asset, accessorId).Ok?
    requires i < asset.gltf.accessors[accessorId].count * AccessorLayout(asset.gltf, accessorId).value.size
    ensures i < |AccessSpec(asset, accessorId).value.data|
    ensures AccessSpec(asset, accessorId).value.data[i]
         == Copied(asset.bin, AccessorLayout(asset.gltf, accessorId).value, i, asset.float32)
  {
  }

  /** Component j of a readable element k is decoded from inside the buffer. */
  lemma CopiedAt(bin: seq<Byte>, l: Layout, k: nat, j: nat, float32: seq<Byte> -> real)
    requires l.size in {1, 2, 3, 4, 9, 16} && j < l.size
    requires Readable(|bin|, l.t, l.size, ElementOffset(l.base, l.stride, k))
    ensures var bpe := BytesPerElement(l.t);
      var offset := ElementOffset(l.base, l.stride, k) + j * bpe;
      && offset + bpe <= |bin|
      && Copied(bin, l, k * l.size + j, float32) == Decode(l.t, bin[offset..offset + bpe], float32)
  {
    ComponentInside(j, l.size, BytesPerElement(l.t));
    DivMod(k, j, l.size);
  }

  /** A zero stride or none means tightly packed elements. */
  lemma DefaultStrideIsPacked(gltf: Document, accessorId: nat)
    requires AccessorLayout(gltf, accessorId).Ok?
    ensures var accessor := gltf.accessors[accessorId];
      var view := gltf.bufferViews[accessor.bufferView.value];
      var l := AccessorLayout(gltf, accessorId).value;
      view.byteStride.GetOr(0) == 0 ==> l.stride == ElementSize(accessor.elementType) * BytesPerElement(l.t)
  {
  }

  lemma NextElement(base: nat, stride: nat, k: nat)
    ensures ElementOffset(base, stride, k + 1) == ElementOffset(base, stride, k) + stride
  {
  }

  lemma BelowCount(k: nat, size: nat, count: nat)
    requires size in {1, 2, 3, 4, 9, 16} && k * size < count * size
    ensures k < count
  {
    if size == 1 {
    } else if size == 2 {
    } else if size == 3 {
    } else if size == 4 {
    } else if size == 9 {
    } else {
    }
  }

  lemma CountReached(k: nat, size: nat, count: nat)
    requires size in {1, 2, 3, 4, 9, 16} && k <= count && count * size <= k * size
    ensures k == count
  {
    if size == 1 {
    } else if size == 2 {
    } else if size == 3 {
    } else if size == 4 {
    } else if size == 9 {
    } else {
    }
  }

  lemma NextIndex(k: nat, size: nat)
    ensures (k + 1) * size == k * size + size
  {
  }

  /** The inner loop of `access`: the components of element k, at data[i..i + size]. */
  method CopyElement(asset: Asset, l: Layout, data: array<real>, i: nat, ghost k: nat, byteOffset: nat)
    requires l.size in {1, 2, 3, 4, 9, 16} && i == k * l.size && i + l.size <= data.Length
    requires byteOffset == ElementOffset(l.base, l.stride, k)
    modifies data
    ensures forall m :: 0 <= m < data.Length && !(i <= m < i + l.size) ==> data[m] == old(data[m])
    ensures forall m :: i <= m < i + l.size ==> data[m] == Copied(asset.bin, l, m, asset.float32)
  {
    for j := 0 to l.size
      invariant forall m :: 0 <= m < data.Length && !(i <= m < i + l.size) ==> data[m] == old(data[m])
      invariant forall m :: i <= m < i + j ==> data[m] == Copied(asset.bin, l, m, asset.float32)
    {
      DivMod(k, j, l.size);
      data[i + j] := ComponentAt(asset.bin, l.t, byteOffset + j * BytesPerElement(l.t), asset.float32);
    }
  }

  /** The strided copy: element by element, checking each read as the typed-array
      constructor does, copying its components and advancing by the stride. */
  method Access(asset: Asset, accessorId: nat) returns (r: Result<BufferData, LoadError>)
    ensures r == AccessSpec(asset, accessorId)
  {
    var layout := AccessorLayout(asset.gltf, accessorId);
    if layout.Err? {
      return Err(layout.error);
    }
    var accessor := asset.gltf.accessors[accessorId];
    var l := layout.value;
    var bpe := BytesPerElement(l.t);
    var data := new real[accessor.count * l.size];
    var byteOffset := l.base;
    var i := 0;
    ghost var k := 0;
    while i < data.Length
      invariant 0 <= k <= accessor.count && i == k * l.size
      invariant byteOffset == ElementOffset(l.base, l.stride, k)
      invariant forall e :: 0 <= e < k ==> Readable(|asset.bin|, l.t, l.size, ElementOffset(l.base, l.stride, e))
      invariant forall m :: 0 <= m < i ==> data[m] == Copied(asset.bin, l, m, asset.float32)
    {
      if !Readable(|asset.bin|, l.t, l.size, byteOffset) {
        return Err(RangeError);
      }
      BelowCount(k, l.size, accessor.count);
      IndexBound(k, l.size - 1, l.size, accessor.count);
      CopyElement(asset, l, data, i, k, byteOffset);
      NextElement(l.base, l.stride, k);
      NextIndex(k, l.size);
      byteOffset := byteOffset + l.stride;
      i := i + l.size;
      k := k + 1;
    }
    CountReached(k, l.size, accessor.count);
    assert data[..] == seq(accessor.count * l.size, i requires 0 <= i => Copied(asset.bin, l, i, asset.float32));
    return Ok(BufferData(accessor.count, l.size, accessor.componentType, accessor.normalized.GetOr(false), data[..]));
  }

  // ---------------------------------------------------------------------------
  // parsePrimitives

  /** The texture index of a primitive's material as written: the base colour texture, else
      the emissive texture; the fallback dereferences `gltf.materials[primitive.material]`
      even when the primitive has no material, which throws. */
  function TextureIndexAsWritten(materials: seq<Material>, material: Option<nat>): Result<Option<nat>, LoadError>
  {
    if material.None? || material.value >= |materials| then Err(MissingMaterial)
    else if materials[material.value].baseColorTexture.Some? then Ok(materials[material.value].baseColorTexture)
    else Ok(materials[material.value].emissiveTexture)
  }

  /** The texture index as evidently intended: no texture for a primitive without a material. */
  function TextureIndex(materials: seq<Material>, material: Option<nat>): (r: Result<Option<nat>, LoadError>)
    ensures r.Err? <==> material.Some? && material.value >= |materials|
    ensures r.Ok? && r.value.Some? ==> material.Some? && r.value in {materials[material.value].baseColorTexture, materials[material.value].emissiveTexture}
  {
    if material.None? then Ok(None)
    else TextureIndexAsWritten(materials, material)
  }

  /** The base colour texture wins over the emissive one, which is the fallback. */
  lemma TextureIndexPrefersBaseColor(materials: seq<Material>, m: nat)
    requires m < |materials|
    ensures materials[m].baseColorTexture.Some? ==> TextureIndex(materials, Some(m)) == Ok(materials[m].baseColorTexture)
    ensures materials[m].baseColorTexture.None? ==> TextureIndex(materials, Some(m)) == Ok(materials[m].emissiveTexture)
  {
  }

  /** The two agree on every primitive that has a material. */
  lemma TextureIndexAgreesWithMaterial(materials: seq<Material>, m: nat)
    ensures TextureIndex(materials, Some(m)) == TextureIndexAsWritten(materials, Some(m))
  {
  }

  /** As written, a primitive without a material cannot be loaded, whatever the materials. */
  lemma NoMaterialThrows(materials: seq<Material>)
    ensures TextureIndexAsWritten(materials, None).Err?
    ensures TextureIndex(materials, None) == Ok(None)
  {
  }

  /** `textures[textureIndex]`: undefined past the end of the list. */
  function TextureFor(textures: seq<Name>, index: Option<nat>): (r: Option<TextureRef>)
    ensures r.None? <==> index.None?
    ensures r == Some(UndefinedTexture) <==> index.Some? && index.value >= |textures|
  {
    if index.None? then None
    else if index.value < |textures| then Some(TextureObject(textures[index.value]))
    else Some(UndefinedTexture)
  }

  /** An attribute's buffer when the primitive names one. */
  function AccessOptional(asset: Asset, accessorId: Option<nat>): Result<Option<BufferData>, LoadError>
  {
    if accessorId.None? then Ok(None)
    else
      var b := AccessSpec(asset, accessorId.value);
      if b.Err? then Err(b.error) else Ok(Some(b.value))
  }

  /** What a parsed primitive holds. */
  datatype PrimitiveData = PrimitiveData(
    positions: Option<BufferData>,
    texcoords: Option<BufferData>,
    normals: Option<BufferData>,
    indices: Option<BufferData>,
    texture: Option<TextureRef>)

  /** One primitive of `parsePrimitives`: positions, texture coordinates, normals and indices
      read in that order, then the texture. */
  function PrimitiveValue(asset: Asset, p: PrimitiveSpec): Result<PrimitiveData, LoadError>
  {
    var positions := AccessOptional(asset, p.position);
    var texcoords := AccessOptional(asset, p.texcoord);
    var normals := AccessOptional(asset, p.normal);
    var indices := AccessOptional(asset, p.indices);
    var index := TextureIndex(asset.gltf.materials, p.material);
    if positions.Err? then Err(positions.error)
    else if texcoords.Err? then Err(texcoords.error)
    else if normals.Err? then Err(normals.error)
    else if indices.Err? then Err(indices.error)
    else if index.Err? then Err(index.error)
    else Ok(PrimitiveData(positions.value, texcoords.value, normals.value, indices.value, TextureFor(asset.textures, index.value)))
  }

  /** A primitive holds what was parsed, has no vertex array yet and draws triangles. */
  predicate Holds(p: Primitive, d: PrimitiveData)
    reads p
  {
    && p.mode == TRIANGLES && p.vao == None
    && p.positions == d.positions && p.texcoords == d.texcoords && p.normals == d.normals
    && p.indices == d.indices && p.texture == d.texture
  }

  /** A primitive gets a buffer exactly for the attributes it names, and a texture exactly
      when its material names one. */
  lemma PrimitiveValueBuffers(asset: Asset, p: PrimitiveSpec)
    requires PrimitiveValue(asset, p).Ok?
    ensures var d := PrimitiveValue(asset, p).value;
      && (d.positions.Some? <==> p.position.Some?) && (d.texcoords.Some? <==> p.texcoord.Some?)
      && (d.normals.Some? <==> p.normal.Some?) && (d.indices.Some? <==> p.indices.Some?)
      && (d.texture.Some? <==> TextureIndex(asset.gltf.materials, p.material).value.Some?)
      && (p.position.Some? ==> d.positions == Some(AccessSpec(asset, p.position.value).value))
      && (p.indices.Some? ==> d.indices == Some(AccessSpec(asset, p.indices.value).value))
  {
  }

  method AccessIfNamed(asset: Asset, accessorId: Option<nat>) returns (r: Result<Option<BufferData>, LoadError>)
    ensures r == AccessOptional(asset, accessorId)
  {
    if accessorId.None? {
      return Ok(None);
    }
    var b := Access(asset, accessorId.value);
    if b.Err? {
      return Err(b.error);
    }
    return Ok(Some(b.value));
  }

  /** One primitive: a fresh `Primitive` with each named buffer set through its setter, then
      the texture. */
  method ParsePrimitive(asset: Asset, spec: PrimitiveSpec) returns (r: Result<Primitive, LoadError>)
    ensures r.Ok? <==> PrimitiveValue(asset, spec).Ok?
    ensures r.Ok? ==> fresh(r.value) && Holds(r.value, PrimitiveValue(asset, spec).value)
  {
    var p := new Primitive();
    var positions := AccessIfNamed(asset, spec.position);
    if positions.Err? {
      return Err(positions.error);
    }
    if positions.value.Some? {
      var _ := p.SetPositions(positions.value.value);
    }
    var texcoords := AccessIfNamed(asset, spec.texcoord);
    if texcoords.Err? {
      return Err(texcoords.error);
    }
    if texcoords.value.Some? {
      var _ := p.SetTexCoords(texcoords.value.value);
    }
    var normals := AccessIfNamed(asset, spec.normal);
    if normals.Err? {
      return Err(normals.error);
    }
    if normals.value.Some? {
      var _ := p.SetNormals(normals.value.value);
    }
    var indices := AccessIfNamed(asset, spec.indices);
    if indices.Err? {
      return Err(indices.error);
    }
    if indices.value.Some? {
      var _ := p.SetIndices(indices.value.value);
    }
    var index := TextureIndex(asset.gltf.materials, spec.material);
    if index.Err? {
      return Err(index.error);
    }
    var texture := TextureFor(asset.textures, index.value);
    if texture.Some? {
      var _ := p.SetTexture(texture.value);
    }
    return Ok(p);
  }

  /** Every primitive of a mesh parses. */
  predicate PrimitivesParse(asset: Asset, specs: seq<PrimitiveSpec>)
  {
    forall i :: 0 <= i < |specs| ==> PrimitiveValue(asset, specs[i]).Ok?
  }

  /** The primitives hold, one by one, what their specifications parse to. */
  predicate PrimitivesHold(asset: Asset, primitives: seq<Primitive>, specs: seq<PrimitiveSpec>)
    requires PrimitivesParse(asset, specs)
    reads primitives
  {
    |primitives| == |specs|
    && forall i :: 0 <= i < |specs| ==> Holds(primitives[i], PrimitiveValue(asset, specs[i]).value)
  }

  /** One more parsed primitive extends both the parsed prefix and the primitives holding it. */
  lemma PrimitivesStep(asset: Asset, primitives: seq<Primitive>, specs: seq<PrimitiveSpec>, i: nat, p: Primitive)
    requires i < |specs| && PrimitivesParse(asset, specs[..i]) && PrimitivesHold(asset, primitives, specs[..i])
    requires PrimitiveValue(asset, specs[i]).Ok? && Holds(p, PrimitiveValue(asset, specs[i]).value)
    ensures PrimitivesParse(asset, specs[..i + 1]) && PrimitivesHold(asset, primitives + [p], specs[..i + 1])
  {
    assert specs[..i + 1] == specs[..i] + [specs[i]];
  }

  /** `parsePrimitives`: the primitives of a mesh, in order; the first one that fails stops
      the parse. */
  method ParsePrimitives(asset: Asset, specs: seq<PrimitiveSpec>) returns (r: Result<seq<Primitive>, LoadError>)
    ensures r.Ok? <==> PrimitivesParse(asset, specs)
    ensures r.Ok? ==> PrimitivesHold(asset, r.value, specs) && forall p :: p in r.value ==> fresh(p)
  {
    var primitives: seq<Primitive> := [];
    for i := 0 to |specs|
      invariant PrimitivesParse(asset, specs[..i])
      invariant PrimitivesHold(asset, primitives, specs[..i])
      invariant forall p :: p in primitives ==> fresh(p)
    {
      var p := ParsePrimitive(asset, specs[i]);
      if p.Err? {
        return Err(p.error);
      }
      PrimitivesStep(asset, primitives, specs, i, p.value);
      primitives := primitives + [p.value];
    }
    assert specs[..|specs|] == specs;
    return Ok(primitives);
  }

  // ---------------------------------------------------------------------------
  // parseMeshes

  /** A node's transform relative to its parent: its matrix, else its scale, rotation and
      translation composed, each defaulting to no change (rotation [0, 0, 0, 0]). */
  function Local(node: Node): Mat4
  {
    if node.matrix.Some? then node.matrix.value
    else Compose(node.scale.GetOr([1.0, 1.0, 1.0]), node.rotation.GetOr([0.0, 0.0, 0.0, 0.0]),
                 node.translation.GetOr([0.0, 0.0, 0.0]))
  }

  /** A node that gives no transform at all is placed where its parent is. */
  lemma LocalDefaultIsIdentity(node: Node)
    requires node.matrix.None? && node.translation.None? && node.rotation.None? && node.scale.None?
    ensures Local(node) == Identity()
  {
    ComposeDefaultsIsIdentity();
  }

  /** The meshes a node's subtree contributes, in pre-order: the node's own mesh with its
      global transform parent·local, then its children's in the order listed. */
  function MeshSlots(node: Node, parent: Mat4): seq<(nat, Mat4)>
    decreases node, 1, 0
  {
    var global := Multiply(parent, Local(node));
    OwnSlot(node, global) + ChildrenSlots(node, |node.children|, global)
  }

  /** The node's own mesh, if it has one, with the node's global transform. */
  function OwnSlot(node: Node, global: Mat4): seq<(nat, Mat4)>
  {
    if node.mesh.Some? then [(node.mesh.value, global)] else []
  }

  /** The meshes of the first `n` children of `node`, whose transform is `global`. */
  function ChildrenSlots(node: Node, n: nat, global: Mat4): seq<(nat, Mat4)>
    requires n <= |node.children|
    decreases node, 0, n
  {
    if n == 0 then []
    else ChildrenSlots(node, n - 1, global) + MeshSlots(node.children[n - 1], global)
  }

  /** The number of nodes with a mesh, counted independently. */
  function MeshNodes(node: Node): nat
    decreases node, 1, 0
  {
    (if node.mesh.Some? then 1 else 0) + ChildMeshNodes(node, |node.children|)
  }

  function ChildMeshNodes(node: Node, n: nat): nat
    requires n <= |node.children|
    decreases node, 0, n
  {
    if n == 0 then 0 else ChildMeshNodes(node, n - 1) + MeshNodes(node.children[n - 1])
  }

  /** One mesh is appended per mesh-bearing node, whatever the transforms. */
  lemma {:induction false} MeshSlotsCount(node: Node, parent: Mat4)
    ensures |MeshSlots(node, parent)| == MeshNodes(node)
    decreases node, 1, 0
  {
    ChildrenSlotsCount(node, |node.children|, Multiply(parent, Local(node)));
  }

  lemma {:induction false} ChildrenSlotsCount(node: Node, n: nat, global: Mat4)
    requires n <= |node.children|
    ensures |ChildrenSlots(node, n, global)| == ChildMeshNodes(node, n)
    decreases node, 0, n
  {
    if n > 0 {
      ChildrenSlotsCount(node, n - 1, global);
      MeshSlotsCount(node.children[n - 1], global);
    }
  }

  /** A transform above a subtree applies to every mesh in it: placing the subtree under
      A·B is placing it under B and then applying A. The ids and order do not change. */
  lemma {:induction false} ParentFactorsOut(node: Node, a: Mat4, b: Mat4)
    ensures |MeshSlots(node, Multiply(a, b))| == |MeshSlots(node, b)|
    ensures forall i :: 0 <= i < |MeshSlots(node, b)| ==>
      MeshSlots(node, Multiply(a, b))[i] == (MeshSlots(node, b)[i].0, Multiply(a, MeshSlots(node, b)[i].1))
    decreases node, 1, 0
  {
    MultiplyAssociative(a, b, Local(node));
    ChildrenFactorOut(node, |node.children|, a, Multiply(b, Local(node)));
  }

  lemma {:induction false} ChildrenFactorOut(node: Node, n: nat, a: Mat4, g: Mat4)
    requires n <= |node.children|
    ensures |ChildrenSlots(node, n, Multiply(a, g))| == |ChildrenSlots(node, n, g)|
    ensures forall i :: 0 <= i < |ChildrenSlots(node, n, g)| ==>
      ChildrenSlots(node, n, Multiply(a, g))[i] == (ChildrenSlots(node, n, g)[i].0, Multiply(a, ChildrenSlots(node, n, g)[i].1))
    decreases node, 0, n
  {
    if n > 0 {
      ChildrenFactorOut(node, n - 1, a, g);
      ParentFactorsOut(node.children[n - 1], a, g);
    }
  }

  /** Every mesh a list of nodes contributes exists and all its primitives parse. */
  predicate MeshesParse(asset: Asset, slots: seq<(nat, Mat4)>)
  {
    forall i :: 0 <= i < |slots| ==>
      slots[i].0 < |asset.gltf.meshes| && PrimitivesParse(asset, asset.gltf.meshes[slots[i].0].primitives)
  }

  /** A mesh is the one a slot describes: the slot's transform and the parsed primitives of
      the slot's mesh. */
  predicate MeshFits(asset: Asset, mesh: Mesh, slot: (nat, Mat4))
    reads mesh.primitives
  {
    && mesh.matrix == slot.1
    && slot.0 < |asset.gltf.meshes|
    && PrimitivesParse(asset, asset.gltf.meshes[slot.0].primitives)
    && PrimitivesHold(asset, mesh.primitives, asset.gltf.meshes[slot.0].primitives)
  }

  /** The meshes from `from` on are those the slots describe, one each, in order. */
  predicate MeshesFit(asset: Asset, meshes: seq<Mesh>, from: nat, slots: seq<(nat, Mat4)>)
    reads set i, j | 0 <= i < |meshes| && 0 <= j < |meshes[i].primitives| :: meshes[i].primitives[j]
  {
    from + |slots| == |meshes|
    && forall i :: 0 <= i < |slots| ==> MeshFits(asset, meshes[from + i], slots[i])
  }

  lemma MeshesParseAppend(asset: Asset, a: seq<(nat, Mat4)>, b: seq<(nat, Mat4)>)
    ensures MeshesParse(asset, a + b) <==> MeshesParse(asset, a) && MeshesParse(asset, b)
  {
    if MeshesParse(asset, a) && MeshesParse(asset, b) {
      forall i | 0 <= i < |a + b|
        ensures (a + b)[i].0 < |asset.gltf.meshes| && PrimitivesParse(asset, asset.gltf.meshes[(a + b)[i].0].primitives)
      {
        if i >= |a| {
          assert (a + b)[i] == b[i - |a|];
        }
      }
    }
    if MeshesParse(asset, a + b) {
      forall i | 0 <= i < |b|
        ensures b[i].0 < |asset.gltf.meshes| && PrimitivesParse(asset, asset.gltf.meshes[b[i].0].primitives)
      {
        assert (a + b)[|a| + i] == b[i];
      }
      forall i | 0 <= i < |a|
        ensures a[i].0 < |asset.gltf.meshes| && PrimitivesParse(asset, asset.gltf.meshes[a[i].0].primitives)
      {
        assert (a + b)[i] == a[i];
      }
    }
  }

  /** The parsed meshes `done` describes, followed by those `slots` describes, are the
      meshes `done + slots` describes. */
  lemma MeshesFitAppend(asset: Asset, before: seq<Mesh>, after: seq<Mesh>, from: nat,
                        done: seq<(nat, Mat4)>, slots: seq<(nat, Mat4)>)
    requires before <= after
    requires MeshesFit(asset, before, from, done) && MeshesFit(asset, after, |before|, slots)
    ensures MeshesFit(asset, after, from, done + slots)
  {
    forall j | 0 <= j < |done + slots|
      ensures MeshFits(asset, after[from + j], (done + slots)[j])
    {
      if j < |done| {
        assert after[from + j] == before[from + j];
      } else {
        assert (done + slots)[j] == slots[j - |done|];
      }
    }
  }

  /** The mesh of the node itself, if it has one: `gltf.meshes[node.mesh]` with its
      primitives parsed, pushed with the node's global transform. */
  method ParseOwnMesh(asset: Asset, node: Node, global: Mat4, model: Model) returns (r: Outcome<LoadError>)
    modifies model
    ensures model.matrix == old(model.matrix)
    ensures old(model.meshes) <= model.meshes
    ensures r.Pass? <==> MeshesParse(asset, OwnSlot(node, global))
    ensures r.Pass? ==> MeshesFit(asset, model.meshes, |old(model.meshes)|, OwnSlot(node, global))
  {
    if node.mesh.Some? {
      if node.mesh.value >= |asset.gltf.meshes| {
        return Fail(MissingMesh);
      }
      var primitives := ParsePrimitives(asset, asset.gltf.meshes[node.mesh.value].primitives);
      if primitives.Err? {
        return Fail(primitives.error);
      }
      model.meshes := model.meshes + [Mesh(primitives.value, global)];
      assert MeshFits(asset, model.meshes[|old(model.meshes)|], OwnSlot(node, global)[0]);
    }
    return Pass;
  }

  /** `parseMeshes`: appends the subtree's meshes to the model in pre-order, leaving the
      meshes already there untouched; the first mesh that fails stops the walk. */
  method ParseMeshes(asset: Asset, node: Node, parent: Mat4, model: Model) returns (r: Outcome<LoadError>)
    modifies model
    decreases node, 1
    ensures model.matrix == old(model.matrix)
    ensures old(model.meshes) <= model.meshes
    ensures r.Pass? <==> MeshesParse(asset, MeshSlots(node, parent))
    ensures r.Pass? ==> MeshesFit(asset, model.meshes, |old(model.meshes)|, MeshSlots(node, parent))
  {
    var global := Multiply(parent, Local(node));
    ghost var own := OwnSlot(node, global);
    ghost var from := |model.meshes|;
    var outcome := ParseOwnMesh(asset, node, global, model);
    if outcome.Fail? {
      ChildrenSlotsPrefix(node, 0, |node.children|, global);
      MeshesParsePrefix(asset, own, MeshSlots(node, parent));
      return outcome;
    }
    r := ParseChildren(asset, node, global, model, own, from);
  }

  /** The loop of `parseMeshes` over the node's children, each parsed with the node's
      global transform as parent, after the meshes `own` already parsed from index `from`. */
  method ParseChildren(asset: Asset, node: Node, global: Mat4, model: Model,
                       ghost own: seq<(nat, Mat4)>, ghost from: nat) returns (r: Outcome<LoadError>)
    modifies model
    decreases node, 0
    requires MeshesParse(asset, own) && MeshesFit(asset, model.meshes, from, own)
    ensures model.matrix == old(model.matrix)
    ensures old(model.meshes) <= model.meshes
    ensures r.Pass? <==> MeshesParse(asset, own + ChildrenSlots(node, |node.children|, global))
    ensures r.Pass? ==> MeshesFit(asset, model.meshes, from, own + ChildrenSlots(node, |node.children|, global))
  {
    for i := 0 to |node.children|
      invariant model.matrix == old(model.matrix)
      invariant old(model.meshes) <= model.meshes
      invariant MeshesParse(asset, own + ChildrenSlots(node, i, global))
      invariant MeshesFit(asset, model.meshes, from, own + ChildrenSlots(node, i, global))
    {
      ghost var before := model.meshes;
      ghost var done := own + ChildrenSlots(node, i, global);
      var child := ParseMeshes(asset, node.children[i], global, model);
      ghost var slots := MeshSlots(node.children[i], global);
      ChildrenSlotsStep(own, node, i, global);
      MeshesParseAppend(asset, done, slots);
      if child.Fail? {
        ChildFailureStops(asset, own, node, i, global);
        return child;
      }
      MeshesFitAppend(asset, before, model.meshes, from, done, slots);
    }
    return Pass;
  }

  /** A child whose meshes fail to parse makes the whole subtree fail. */
  lemma ChildFailureStops(asset: Asset, own: seq<(nat, Mat4)>, node: Node, i: nat, global: Mat4)
    requires i < |node.children|
    requires !MeshesParse(asset, own + ChildrenSlots(node, i + 1, global))
    ensures !MeshesParse(asset, own + ChildrenSlots(node, |node.children|, global))
  {
    ChildrenSlotsPrefix(node, i + 1, |node.children|, global);
    MeshesParsePrefix(asset, own + ChildrenSlots(node, i + 1, global),
                      own + ChildrenSlots(node, |node.children|, global));
  }

  /** One more child appends that child's meshes. */
  lemma ChildrenSlotsStep(own: seq<(nat, Mat4)>, node: Node, i: nat, global: Mat4)
    requires i < |node.children|
    ensures own + ChildrenSlots(node, i + 1, global)
         == own + ChildrenSlots(node, i, global) + MeshSlots(node.children[i], global)
  {
    assert ChildrenSlots(node, i + 1, global)
        == ChildrenSlots(node, i, global) + MeshSlots(node.children[i], global);
  }

  /** The meshes of the first children come first. */
  lemma {:induction false} ChildrenSlotsPrefix(node: Node, n: nat, m: nat, global: Mat4)
    requires n <= m <= |node.children|
    ensures ChildrenSlots(node, n, global) <= ChildrenSlots(node, m, global)
    decreases m - n
  {
    if n < m {
      ChildrenSlotsPrefix(node, n, m - 1, global);
    }
  }

  lemma MeshesParsePrefix(asset: Asset, a: seq<(nat, Mat4)>, b: seq<(nat, Mat4)>)
    requires a <= b
    ensures MeshesParse(asset, b) ==> MeshesParse(asset, a)
  {
    if MeshesParse(asset, b) {
      forall i | 0 <= i < |a|
        ensures a[i].0 < |asset.gltf.meshes| && PrimitivesParse(asset, asset.gltf.meshes[a[i].0].primitives)
      {
        assert a[i] == b[i];
      }
    }
  }

  /** The meshes of the first `n` root nodes, each under the identity. */
  function SceneSlots(roots: seq<Node>, n: nat): seq<(nat, Mat4)>
    requires n <= |roots|
  {
    if n == 0 then [] else SceneSlots(roots, n - 1) + MeshSlots(roots[n - 1], Identity())
  }

  lemma {:induction false} SceneSlotsPrefix(roots: seq<Node>, n: nat, m: nat)
    requires n <= m <= |roots|
    ensures SceneSlots(roots, n) <= SceneSlots(roots, m)
    decreases m - n
  {
    if n < m {
      SceneSlotsPrefix(roots, n, m - 1);
      var tail := SceneSlotsStep(roots, m);
      PrefixOfLonger(SceneSlots(roots, n), SceneSlots(roots, m - 1), tail);
    }
  }

  lemma SceneSlotsStep(roots: seq<Node>, m: nat) returns (tail: seq<(nat, Mat4)>)
    requires 0 < m <= |roots|
    ensures SceneSlots(roots, m) == SceneSlots(roots, m - 1) + tail
  {
    tail := MeshSlots(roots[m - 1], Identity());
  }

  lemma PrefixOfLonger<T>(a: seq<T>, b: seq<T>, c: seq<T>)
    requires a <= b
    ensures a <= b + c
  {
  }

  /** The scene `load` walks: `scene`, else scene 0. */
  function ChosenScene(gltf: Document): Option<Scene>
  {
    var id := gltf.scene.GetOr(0);
    if id < |gltf.scenes| then Some(gltf.scenes[id]) else None
  }

  /** One root of `load`'s scene walk: its meshes are appended after those of the roots
      before it; when they fail to parse, so does the whole scene. */
  method LoadRoot(asset: Asset, roots: seq<Node>, i: nat, model: Model) returns (r: Outcome<LoadError>)
    requires i < |roots|
    requires MeshesParse(asset, SceneSlots(roots, i)) && MeshesFit(asset, model.meshes, 0, SceneSlots(roots, i))
    modifies model
    ensures model.matrix == old(model.matrix)
    ensures r.Pass? ==> MeshesParse(asset, SceneSlots(roots, i + 1))
    ensures r.Pass? ==> MeshesFit(asset, model.meshes, 0, SceneSlots(roots, i + 1))
    ensures r.Fail? ==> !MeshesParse(asset, SceneSlots(roots, |roots|))
  {
    ghost var before := model.meshes;
    ghost var done := SceneSlots(roots, i);
    r := ParseMeshes(asset, roots[i], Identity(), model);
    ghost var slots := MeshSlots(roots[i], Identity());
    ghost var tail := SceneSlotsStep(roots, i + 1);
    MeshesParseAppend(asset, done, slots);
    if r.Fail? {
      SceneSlotsPrefix(roots, i + 1, |roots|);
      MeshesParsePrefix(asset, done + slots, SceneSlots(roots, |roots|));
    } else {
      MeshesFitAppend(asset, before, model.meshes, 0, done, slots);
    }
  }

  /** `load`'s scene walk: each root node of the chosen scene under the identity, into a
      fresh model. It succeeds exactly when the scene exists and every mesh it reaches
      parses, and the model then holds those meshes in pre-order, root after root. */
  method Load(asset: Asset) returns (r: Result<Model, LoadError>)
    ensures r.Ok? <==> (ChosenScene(asset.gltf).Some?
      && MeshesParse(asset, SceneSlots(ChosenScene(asset.gltf).value.nodes, |ChosenScene(asset.gltf).value.nodes|)))
    ensures r.Ok? ==>
      && fresh(r.value) && r.value.matrix == Identity()
      && MeshesFit(asset, r.value.meshes, 0, SceneSlots(ChosenScene(asset.gltf).value.nodes, |ChosenScene(asset.gltf).value.nodes|))
  {
    var sceneId := asset.gltf.scene.GetOr(0);
    if sceneId >= |asset.gltf.scenes| {
      return Err(MissingScene);
    }
    var model := new Model();
    var roots := asset.gltf.scenes[sceneId].nodes;
    for i := 0 to |roots|
      invariant fresh(model) && model.matrix == Identity()
      invariant MeshesParse(asset, SceneSlots(roots, i))
      invariant MeshesFit(asset, model.meshes, 0, SceneSlots(roots, i))
    {
      var outcome := LoadRoot(asset, roots, i, model);
      if outcome.Fail? {
        return Err(outcome.error);
      }
    }
    return Ok(model);
  }
}
