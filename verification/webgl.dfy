/** The part of the WebGL 2 rendering context that the renderer drives, as a command log.
    Every call the renderer makes is appended to `log`; object creation hands out fresh
    names in order; whether a shader compiles, whether a program links and where a
    program's uniforms live are fixed by the driver the context is created with. */
module WebGL {
  import opened Wrappers
  import opened Algebra

  // The WebGL 2 enumerants the renderer uses.
  const TRIANGLES: int := 0x0004
  const ARRAY_BUFFER: int := 0x8892
  const ELEMENT_ARRAY_BUFFER: int := 0x8893
  const STATIC_DRAW: int := 0x88E4
  const TEXTURE_2D: int := 0x0DE1
  const TEXTURE0: int := 0x84C0
  const FRAGMENT_SHADER: int := 0x8B30
  const VERTEX_SHADER: int := 0x8B31

  /** A WebGL object: vertex array, buffer, shader, program or uniform location. */
  datatype Name = Name(id: nat)

  /** What a primitive binds as its texture: a texture object, or the `undefined` that an
      index past the end of the texture list yields. */
  datatype TextureRef = TextureObject(name: Name) | UndefinedTexture

  datatype UniformValue =
    | Matrix(m: Mat4)
    | Float(x: real)
    | Floats(xs: seq<real>)
    | Vector3(v3: Vec3)
    | Vector4(v4: Vec4)
    | Int(i: int)

  datatype Command =
    | CreateVertexArray(vao: Name)
    | BindVertexArray(vao: Name)
    | CreateBuffer(buffer: Name)
    | BindBuffer(target: int, buffer: Name)
    | BufferDataUpload(target: int, data: seq<real>, usage: int)
    | VertexAttribPointer(index: nat, size: int, componentType: int, normalized: bool, stride: int, offset: int)
    | EnableVertexAttribArray(index: nat)
    | ActiveTexture(unit: int)
    | BindTexture(target: int, texture: TextureRef)
    | DrawElements(mode: int, count: int, componentType: int, offset: int)
    | DrawArrays(mode: int, first: int, count: int)
    | CreateShader(kind: int, shader: Name)
    | ShaderSource(shader: Name, source: string)
    | CompileShader(shader: Name)
    | CreateProgram(program: Name)
    | AttachShader(program: Name, shader: Name)
    | LinkProgram(program: Name)
    | UseProgram(program: Name)
    | GetUniformLocation(program: Name, uniform: string)
    | Uniform(location: Name, value: UniformValue)

  /** The driver's answers: which sources compile, which pairs link, where the uniforms of
      a linked program are, and whether the context is lost (object creation returns null). */
  datatype Driver = Driver(
    compiles: (int, string) -> bool,
    links: (string, string) -> bool,
    uniforms: (string, string) -> map<string, Name>,
    lost: bool)

  class Context {
    const driver: Driver
    var log: seq<Command>
    var nextName: nat
    /** Each shader created so far, with its kind and the source given to it. */
    var shaders: map<Name, (int, string)>
    /** The shaders attached to each program, in attachment order. */
    var attached: map<Name, seq<Name>>
    /** The programs that linked, with their vertex and fragment sources. */
    var linked: map<Name, (string, string)>

    constructor(driver: Driver)
      ensures this.driver == driver
      ensures log == [] && nextName == 0 && shaders == map[] && attached == map[] && linked == map[]
    {
      this.driver := driver;
      log := [];
      nextName := 0;
      shaders := map[];
      attached := map[];
      linked := map[];
    }

    /** Appends a command that changes no tracked object. */
    method Issue(c: Command)
      modifies this
      ensures log == old(log) + [c]
      ensures nextName == old(nextName) && shaders == old(shaders)
      ensures attached == old(attached) && linked == old(linked)
    {
      log := log + [c];
    }

    method NewName() returns (n: Name)
      modifies this
      ensures n == Name(old(nextName)) && nextName == old(nextName) + 1
      ensures log == old(log) && shaders == old(shaders)
      ensures attached == old(attached) && linked == old(linked)
    {
      n := Name(nextName);
      nextName := nextName + 1;
    }

    method NewVertexArray() returns (vao: Name)
      modifies this
      ensures vao == Name(old(nextName)) && nextName == old(nextName) + 1
      ensures log == old(log) + [CreateVertexArray(vao)]
      ensures shaders == old(shaders) && attached == old(attached) && linked == old(linked)
    {
      vao := NewName();
      Issue(CreateVertexArray(vao));
    }

    method NewBuffer() returns (buffer: Name)
      modifies this
      ensures buffer == Name(old(nextName)) && nextName == old(nextName) + 1
      ensures log == old(log) + [CreateBuffer(buffer)]
      ensures shaders == old(shaders) && attached == old(attached) && linked == old(linked)
    {
      buffer := NewName();
      Issue(CreateBuffer(buffer));
    }

    /** `createShader`: null when the context is lost. */
    method NewShader(kind: int) returns (shader: Option<Name>)
      modifies this
      ensures driver.lost ==> shader == None && log == old(log) && nextName == old(nextName) && shaders == old(shaders)
      ensures !driver.lost ==>
        && shader == Some(Name(old(nextName))) && nextName == old(nextName) + 1
        && log == old(log) + [CreateShader(kind, shader.value)]
        && shaders == old(shaders)[shader.value := (kind, "")]
      ensures attached == old(attached) && linked == old(linked)
    {
      if driver.lost {
        shader := None;
      } else {
        var n := NewName();
        Issue(CreateShader(kind, n));
        shaders := shaders[n := (kind, "")];
        shader := Some(n);
      }
    }

    method SetShaderSource(shader: Name, source: string)
      requires shader in shaders
      modifies this
      ensures log == old(log) + [ShaderSource(shader, source)]
      ensures shaders == old(shaders)[shader := (old(shaders)[shader].0, source)]
      ensures nextName == old(nextName) && attached == old(attached) && linked == old(linked)
    {
      Issue(ShaderSource(shader, source));
      shaders := shaders[shader := (shaders[shader].0, source)];
    }

    /** `getShaderParameter(shader, COMPILE_STATUS)`. */
    function CompileStatus(shader: Name): bool
      reads this
    {
      shader in shaders && driver.compiles(shaders[shader].0, shaders[shader].1)
    }

    /** `createProgram`: null when the context is lost. */
    method NewProgram() returns (program: Option<Name>)
      modifies this
      ensures driver.lost ==> program == None && log == old(log) && nextName == old(nextName) && attached == old(attached)
      ensures !driver.lost ==>
        && program == Some(Name(old(nextName))) && nextName == old(nextName) + 1
        && log == old(log) + [CreateProgram(program.value)]
        && attached == old(attached)[program.value := []]
      ensures shaders == old(shaders) && linked == old(linked)
    {
      if driver.lost {
        program := None;
      } else {
        var n := NewName();
        Issue(CreateProgram(n));
        attached := attached[n := []];
        program := Some(n);
      }
    }

    method Attach(program: Name, shader: Name)
      requires program in attached
      modifies this
      ensures log == old(log) + [AttachShader(program, shader)]
      ensures attached == old(attached)[program := old(attached)[program] + [shader]]
      ensures nextName == old(nextName) && shaders == old(shaders) && linked == old(linked)
    {
      Issue(AttachShader(program, shader));
      attached := attached[program := attached[program] + [shader]];
    }

    /** The sources of a vertex shader and a fragment shader attached, in that order, to the
        program, if that is what was attached. */
    function AttachedSources(program: Name): Option<(string, string)>
      reads this
    {
      if program in attached && |attached[program]| == 2
        && attached[program][0] in shaders && attached[program][1] in shaders
      then Some((shaders[attached[program][0]].1, shaders[attached[program][1]].1))
      else None
    }

    /** `linkProgram`: the program links when its two shaders compile and the driver accepts
        the pair; its link status is that of this last attempt. */
    method Link(program: Name)
      modifies this
      ensures log == old(log) + [LinkProgram(program)]
      ensures var s := old(AttachedSources(program));
        linked == if s.Some? && old(CompileStatus(attached[program][0])) && old(CompileStatus(attached[program][1]))
                     && driver.links(s.value.0, s.value.1)
                  then old(linked)[program := s.value] else old(linked) - {program}
      ensures nextName == old(nextName) && shaders == old(shaders) && attached == old(attached)
    {
      Issue(LinkProgram(program));
      var s := AttachedSources(program);
      if s.Some? && CompileStatus(attached[program][0]) && CompileStatus(attached[program][1])
        && driver.links(s.value.0, s.value.1)
      {
        linked := linked[program := s.value];
      } else {
        linked := linked - {program};
      }
    }

    /** `getProgramParameter(program, LINK_STATUS)`. */
    function LinkStatus(program: Name): bool
      reads this
    {
      program in linked
    }

    /** Where a uniform of a linked program lives, or null. */
    function UniformLocation(program: Name, uniform: string): Option<Name>
      reads this
    {
      if program in linked && uniform in driver.uniforms(linked[program].0, linked[program].1)
      then Some(driver.uniforms(linked[program].0, linked[program].1)[uniform])
      else None
    }

    /** `getUniformLocation`: the query is logged, and the answer depends only on the program. */
    method QueryUniformLocation(program: Name, uniform: string) returns (location: Option<Name>)
      modifies this
      ensures location == UniformLocation(program, uniform)
      ensures log == old(log) + [GetUniformLocation(program, uniform)]
      ensures nextName == old(nextName) && shaders == old(shaders)
      ensures attached == old(attached) && linked == old(linked)
    {
      Issue(GetUniformLocation(program, uniform));
      location := UniformLocation(program, uniform);
    }
  }
}
