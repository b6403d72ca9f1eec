/** Shader programs (lib/shader.ts): compiling and linking a vertex and a fragment shader,
    caching uniform locations, setting uniforms, and drawing a list of models mesh by mesh;
    and the shadow visibility term of the shadow-receiving fragment shader. */
module Shading {
  import opened Wrappers
  import opened RealMath
  import opened Algebra
  import opened WebGL
  import opened Models

  // ---------------------------------------------------------------------------
  // What a log shows (`Visible`, in models.dfy): uniforms and draws after a lookup or a setup

  lemma Associative(a: seq<Command>, b: seq<Command>, c: seq<Command>)
    ensures a + b + c == a + (b + c)
  {
  }

  /** A uniform command, possibly after a location query, shows as itself. */
  lemma UniformShowsItself(before: seq<Command>, log: seq<Command>, lookup: bool, program: Name,
                           name: string, u: Command)
    requires u.Uniform?
    requires log == before + (if lookup then [Command.GetUniformLocation(program, name)] else []) + [u]
    ensures Visible(log) == Visible(before) + [u]
  {
    var query := if lookup then [Command.GetUniformLocation(program, name)] else [];
    VisibleAppend(before + query, [u]);
    VisibleAppend(before, query);
    VisibleOne(u);
    if lookup {
      VisibleOne(Command.GetUniformLocation(program, name));
    }
  }

  /** A setup that shows nothing followed by a draw shows only the draw's visible part. */
  lemma ShowsOnlyDraw(before: seq<Command>, setup: seq<Command>, draw: seq<Command>)
    requires Visible(setup) == []
    ensures Visible(before + setup + draw) == Visible(before) + Visible(draw)
  {
    VisibleAppend(before, setup);
    VisibleAppend(before + setup, draw);
  }

  // ---------------------------------------------------------------------------
  // What a draw of a model list shows

  /** The primitives reachable from a model list. */
  function Primitives(models: seq<Model>): set<Primitive>
    reads models
  {
    set i, j, k | 0 <= i < |models| && 0 <= j < |models[i].meshes| && 0 <= k < |models[i].meshes[j].primitives|
      :: models[i].meshes[j].primitives[k]
  }

  /** The primitives of a mesh list. */
  function MeshPrimitives(meshes: seq<Mesh>): set<Primitive>
  {
    set j, k | 0 <= j < |meshes| && 0 <= k < |meshes[j].primitives| :: meshes[j].primitives[k]
  }

  /** The draw call each of `primitives` makes, as their fields stand now. */
  function Snapshot(primitives: set<Primitive>): (calls: map<Primitive, seq<Command>>)
    reads primitives
    ensures calls.Keys == primitives
    ensures forall p :: p in primitives ==> calls[p] == DrawCall(p.mode, p.positions, p.indices)
  {
    map p | p in primitives :: DrawCall(p.mode, p.positions, p.indices)
  }

  /** `calls` still holds the draw call of each of `primitives`. */
  predicate AgreesOn(primitives: set<Primitive>, calls: map<Primitive, seq<Command>>)
    reads primitives
  {
    forall p :: p in primitives ==> p in calls && calls[p] == DrawCall(p.mode, p.positions, p.indices)
  }

  /** The draw calls of the first n primitives, in order. */
  function PrimitivesPlan(primitives: seq<Primitive>, n: nat, calls: map<Primitive, seq<Command>>): seq<Command>
    requires n <= |primitives| && forall p :: p in primitives ==> p in calls
  {
    if n == 0 then [] else PrimitivesPlan(primitives, n - 1, calls) + calls[primitives[n - 1]]
  }

  /** For each of the first n meshes: its matrix into the "mesh" uniform, then its
      primitives' draw calls. */
  function MeshesPlan(meshes: seq<Mesh>, n: nat, meshLocation: Name, calls: map<Primitive, seq<Command>>): seq<Command>
    requires n <= |meshes| && MeshPrimitives(meshes) <= calls.Keys
  {
    if n == 0 then []
    else
      assert forall p :: p in meshes[n - 1].primitives ==> p in MeshPrimitives(meshes);
      MeshesPlan(meshes, n - 1, meshLocation, calls) + [Uniform(meshLocation, Matrix(meshes[n - 1].matrix))]
        + PrimitivesPlan(meshes[n - 1].primitives, |meshes[n - 1].primitives|, calls)
  }

  /** What a draw reads of a model: its matrix and its meshes. */
  datatype ModelView = ModelView(matrix: Mat4, meshes: seq<Mesh>)

  /** The views of a model list, as its fields stand now; every mesh primitive of a view
      is reachable from the list. */
  function Views(models: seq<Model>): (views: seq<ModelView>)
    reads models
    ensures |views| == |models|
    ensures forall i :: 0 <= i < |models| ==> MeshPrimitives(views[i].meshes) <= Primitives(models)
  {
    seq(|models|, i requires 0 <= i < |models| reads models => ModelView(models[i].matrix, models[i].meshes))
  }

  /** Every primitive of the views has a recorded draw call. */
  predicate Covered(views: seq<ModelView>, calls: map<Primitive, seq<Command>>)
  {
    forall i :: 0 <= i < |views| ==> MeshPrimitives(views[i].meshes) <= calls.Keys
  }

  /** For each of the first n models: its matrix into the "model" uniform, then its meshes. */
  function ModelsPlan(views: seq<ModelView>, n: nat, modelLocation: Name, meshLocation: Name,
                      calls: map<Primitive, seq<Command>>): seq<Command>
    requires n <= |views| && Covered(views, calls)
  {
    if n == 0 then []
    else
      ModelsPlan(views, n - 1, modelLocation, meshLocation, calls) + [Uniform(modelLocation, Matrix(views[n - 1].matrix))]
        + MeshesPlan(views[n - 1].meshes, |views[n - 1].meshes|, meshLocation, calls)
  }

  /** Some of the first n models has a mesh. */
  predicate HasMeshes(views: seq<ModelView>, n: nat)
    requires n <= |views|
  {
    exists i :: 0 <= i < n && |views[i].meshes| > 0
  }

  /** Drawing mesh j after the first j extends the first j meshes' plan by mesh j's. */
  lemma MeshesStep(start: seq<Command>, before: seq<Command>, after: seq<Command>, meshes: seq<Mesh>, j: nat,
                   meshLocation: Name, calls: map<Primitive, seq<Command>>)
    requires j < |meshes| && MeshPrimitives(meshes) <= calls.Keys
    requires forall p :: p in meshes[j].primitives ==> p in calls
    requires before == start + MeshesPlan(meshes, j, meshLocation, calls)
    requires after == before + [Uniform(meshLocation, Matrix(meshes[j].matrix))]
      + PrimitivesPlan(meshes[j].primitives, |meshes[j].primitives|, calls)
    ensures after == start + MeshesPlan(meshes, j + 1, meshLocation, calls)
  {
  }

  /** Drawing model i after the first i extends the first i models' plan by model i's. */
  lemma ModelsStep(start: seq<Command>, before: seq<Command>, after: seq<Command>, views: seq<ModelView>, i: nat,
                   modelLocation: Name, meshLocation: Name, calls: map<Primitive, seq<Command>>)
    requires i < |views| && Covered(views, calls)
    requires before == start + ModelsPlan(views, i, modelLocation, meshLocation, calls)
    requires after == before + [Uniform(modelLocation, Matrix(views[i].matrix))]
      + MeshesPlan(views[i].meshes, |views[i].meshes|, meshLocation, calls)
    ensures after == start + ModelsPlan(views, i + 1, modelLocation, meshLocation, calls)
  {
  }

  lemma HasMeshesStep(views: seq<ModelView>, i: nat)
    requires i < |views|
    ensures HasMeshes(views, i + 1) <==> HasMeshes(views, i) || |views[i].meshes| > 0
  {
    if HasMeshes(views, i + 1) && |views[i].meshes| == 0 {
      var w :| 0 <= w < i + 1 && |views[w].meshes| > 0;
      assert w < i;
    }
  }

  lemma HasMeshesAt(views: seq<ModelView>, i: nat)
    requires i < |views| && |views[i].meshes| > 0
    ensures HasMeshes(views, |views|)
  {
  }

  /** Model i failing to draw means the draw fails. */
  lemma DrawFailsAt(views: seq<ModelView>, i: nat, modelLocation: Option<Name>, meshLocation: Option<Name>)
    requires i < |views|
    requires !(modelLocation.Some? && (|views[i].meshes| == 0 || meshLocation.Some?))
    ensures DrawFails(views, modelLocation, meshLocation)
  {
    if modelLocation.Some? {
      HasMeshesAt(views, i);
    }
  }

  /** A draw throws when there is a model but no "model" uniform, or a mesh but no "mesh"
      uniform. */
  predicate DrawFails(views: seq<ModelView>, modelLocation: Option<Name>, meshLocation: Option<Name>)
  {
    (|views| > 0 && modelLocation.None?) || (HasMeshes(views, |views|) && meshLocation.None?)
  }

  // ---------------------------------------------------------------------------
  // Shaders

  datatype ShaderError =
    | ContextLost
    | VertexCompileFailed
    | FragmentCompileFailed
    | LinkFailed
    | UnknownUniform(name: string)

  /** `compile`: creates both shaders, gives them their sources and compiles them, then
      checks the vertex shader before the fragment shader. */
  method Compile(gl: Context, vertexSource: string, fragmentSource: string) returns (r: Result<(Name, Name), ShaderError>)
    modifies gl
    ensures gl.driver.lost ==> r == Err(ContextLost) && gl.log == old(gl.log) && gl.shaders == old(gl.shaders)
    ensures !gl.driver.lost ==>
      var vs := Name(old(gl.nextName));
      var fs := Name(old(gl.nextName) + 1);
      && gl.log == old(gl.log) + [CreateShader(VERTEX_SHADER, vs), CreateShader(FRAGMENT_SHADER, fs),
                                  ShaderSource(vs, vertexSource), ShaderSource(fs, fragmentSource),
                                  CompileShader(vs), CompileShader(fs)]
      && gl.shaders == old(gl.shaders)[vs := (VERTEX_SHADER, vertexSource)][fs := (FRAGMENT_SHADER, fragmentSource)]
      && gl.nextName == old(gl.nextName) + 2
      && r == (if !gl.driver.compiles(VERTEX_SHADER, vertexSource) then Err(VertexCompileFailed)
               else if !gl.driver.compiles(FRAGMENT_SHADER, fragmentSource) then Err(FragmentCompileFailed)
               else Ok((vs, fs)))
    ensures gl.attached == old(gl.attached) && gl.linked == old(gl.linked)
  {
    var vs := gl.NewShader(VERTEX_SHADER);
    var fs := gl.NewShader(FRAGMENT_SHADER);
    if vs.None? || fs.None? {
      return Err(ContextLost);
    }
    ghost var created := gl.shaders;
    gl.SetShaderSource(vs.value, vertexSource);
    gl.SetShaderSource(fs.value, fragmentSource);
    gl.Issue(CompileShader(vs.value));
    gl.Issue(CompileShader(fs.value));
    SourcesSet(old(gl.shaders), created, gl.shaders, vs.value, fs.value, vertexSource, fragmentSource);
    if !gl.CompileStatus(vs.value) {
      r := Err(VertexCompileFailed);
    } else if !gl.CompileStatus(fs.value) {
      r := Err(FragmentCompileFailed);
    } else {
      r := Ok((vs.value, fs.value));
    }
  }

  /** Two fresh shaders created empty, then given their sources, end up holding those sources. */
  lemma SourcesSet(before: map<Name, (int, string)>, created: map<Name, (int, string)>, after: map<Name, (int, string)>,
                   vs: Name, fs: Name, vertexSource: string, fragmentSource: string)
    requires vs != fs
    requires created == before[vs := (VERTEX_SHADER, "")][fs := (FRAGMENT_SHADER, "")]
    requires after == created[vs := (created[vs].0, vertexSource)][fs := (created[fs].0, fragmentSource)]
    ensures after == before[vs := (VERTEX_SHADER, vertexSource)][fs := (FRAGMENT_SHADER, fragmentSource)]
    ensures after[vs] == (VERTEX_SHADER, vertexSource) && after[fs] == (FRAGMENT_SHADER, fragmentSource)
  {
  }

  /** `link`: a fresh program with both shaders attached, linked. */
  method Link(gl: Context, vs: Name, fs: Name) returns (r: Result<Name, ShaderError>)
    requires vs in gl.shaders && fs in gl.shaders && gl.CompileStatus(vs) && gl.CompileStatus(fs)
    modifies gl
    ensures gl.shaders == old(gl.shaders)
    ensures gl.driver.lost ==> r == Err(ContextLost) && gl.log == old(gl.log) && gl.linked == old(gl.linked)
    ensures !gl.driver.lost ==>
      var program := Name(old(gl.nextName));
      var sources := (gl.shaders[vs].1, gl.shaders[fs].1);
      && gl.log == old(gl.log) + [CreateProgram(program), AttachShader(program, vs), AttachShader(program, fs), LinkProgram(program)]
      && gl.nextName == old(gl.nextName) + 1
      && r == (if gl.driver.links(sources.0, sources.1) then Ok(program) else Err(LinkFailed))
      && gl.linked == if r.Ok? then old(gl.linked)[program := sources] else old(gl.linked) - {program}
  {
    var program := gl.NewProgram();
    if program.None? {
      return Err(ContextLost);
    }
    gl.Attach(program.value, vs);
    gl.Attach(program.value, fs);
    assert gl.attached[program.value] == [vs, fs];
    assert gl.AttachedSources(program.value) == Some((gl.shaders[vs].1, gl.shaders[fs].1));
    gl.Link(program.value);
    if !gl.LinkStatus(program.value) {
      return Err(LinkFailed);
    }
    return Ok(program.value);
  }

  class Shader {
    const gl: Context
    const program: Name
    var uniformLocations: map<string, Name>

    /** The cache agrees with the backend: every cached location is where the uniform is. */
    ghost predicate Valid()
      reads this, gl
    {
      forall name :: name in uniformLocations ==> gl.UniformLocation(program, name) == Some(uniformLocations[name])
    }

    constructor Of(gl: Context, program: Name)
      ensures this.gl == gl && this.program == program && uniformLocations == map[]
      ensures Valid()
    {
      this.gl := gl;
      this.program := program;
      uniformLocations := map[];
    }

    /** `new Shader(gl, provider)`: the shader exists exactly when the context is not lost,
        both sources compile and the pair links; otherwise the first failure, vertex shader
        first, is the error. */
    static method New(gl: Context, vertexSource: string, fragmentSource: string) returns (r: Result<Shader, ShaderError>)
      modifies gl
      ensures r.Err? <==> (gl.driver.lost || !gl.driver.compiles(VERTEX_SHADER, vertexSource)
        || !gl.driver.compiles(FRAGMENT_SHADER, fragmentSource) || !gl.driver.links(vertexSource, fragmentSource))
      ensures r.Err? ==>
        r.error == (if gl.driver.lost then ContextLost
                    else if !gl.driver.compiles(VERTEX_SHADER, vertexSource) then VertexCompileFailed
                    else if !gl.driver.compiles(FRAGMENT_SHADER, fragmentSource) then FragmentCompileFailed
                    else LinkFailed)
      ensures r.Ok? ==>
        && fresh(r.value) && r.value.gl == gl && r.value.uniformLocations == map[] && r.value.Valid()
        && r.value.program == Name(old(gl.nextName) + 2)
        && gl.linked == old(gl.linked)[r.value.program := (vertexSource, fragmentSource)]
    {
      var shaders := Compile(gl, vertexSource, fragmentSource);
      if shaders.Err? {
        return Err(shaders.error);
      }
      var program := Link(gl, shaders.value.0, shaders.value.1);
      if program.Err? {
        return Err(program.error);
      }
      var shader := new Shader.Of(gl, program.value);
      return Ok(shader);
    }

    /** `use`. */
    method Use()
      modifies gl
      ensures gl.log == old(gl.log) + [UseProgram(program)]
      ensures gl.nextName == old(gl.nextName) && gl.shaders == old(gl.shaders)
      ensures gl.attached == old(gl.attached) && gl.linked == old(gl.linked)
    {
      gl.Issue(UseProgram(program));
    }

    /** `getUniformLocation`: the backend is asked only on a cache miss, and a location it
        gives is cached; a uniform it does not know is an error and caches nothing. Either
        way the answer is the backend's. */
    method GetUniformLocation(name: string) returns (r: Result<Name, ShaderError>)
      requires Valid()
      modifies this, gl
      ensures Valid()
      ensures r.Ok? <==> gl.UniformLocation(program, name).Some?
      ensures r.Ok? ==> r.value == gl.UniformLocation(program, name).value
      ensures r.Err? ==> r.error == UnknownUniform(name)
      ensures name in old(uniformLocations) ==> gl.log == old(gl.log) && uniformLocations == old(uniformLocations)
      ensures name !in old(uniformLocations) ==>
        && gl.log == old(gl.log) + [Command.GetUniformLocation(program, name)]
        && uniformLocations == if r.Ok? then old(uniformLocations)[name := r.value] else old(uniformLocations)
      ensures gl.nextName == old(gl.nextName) && gl.shaders == old(gl.shaders)
      ensures gl.attached == old(gl.attached) && gl.linked == old(gl.linked)
    {
      if name !in uniformLocations {
        var location := gl.QueryUniformLocation(program, name);
        if location.None? {
          return Err(UnknownUniform(name));
        }
        uniformLocations := uniformLocations[name := location.value];
      }
      return Ok(uniformLocations[name]);
    }

    /** `setMatrix`, `setFloat`, `setFloats`, `setVector3`, `setVector4`, `setInt`: the value
        into the uniform's location, after the location lookup. */
    method SetUniform(name: string, value: UniformValue) returns (r: Outcome<ShaderError>)
      requires Valid()
      modifies this, gl
      ensures Valid()
      ensures r.Pass? <==> gl.UniformLocation(program, name).Some?
      ensures r.Fail? ==> r.error == UnknownUniform(name)
      ensures gl.log == old(gl.log)
        + (if name in old(uniformLocations) then [] else [Command.GetUniformLocation(program, name)])
        + (if r.Pass? then [Uniform(gl.UniformLocation(program, name).value, value)] else [])
      ensures gl.nextName == old(gl.nextName) && gl.shaders == old(gl.shaders)
      ensures gl.attached == old(gl.attached) && gl.linked == old(gl.linked)
    {
      var location := GetUniformLocation(name);
      if location.Err? {
        return Fail(location.error);
      }
      gl.Issue(Uniform(location.value, value));
      return Pass;
    }

    /** A uniform set shows as exactly its one uniform command. */
    method SetMatrix(name: string, value: Mat4) returns (r: Outcome<ShaderError>)
      requires Valid()
      modifies this, gl
      ensures Valid()
      ensures r.Pass? <==> gl.UniformLocation(program, name).Some?
      ensures r.Pass? ==> Visible(gl.log) == Visible(old(gl.log)) + [Uniform(gl.UniformLocation(program, name).value, Matrix(value))]
      ensures gl.linked == old(gl.linked)
    {
      ghost var before := gl.log;
      ghost var lookup := name !in uniformLocations;
      r := SetUniform(name, Matrix(value));
      if r.Pass? {
        UniformShowsItself(before, gl.log, lookup, program, name,
                           Uniform(gl.UniformLocation(program, name).value, Matrix(value)));
      }
    }

    /** One primitive's `draw`: all it shows is its draw call. */
    method DrawPrimitive(p: Primitive)
      requires Valid()
      modifies gl, p
      ensures Valid()
      ensures Visible(gl.log) == Visible(old(gl.log)) + DrawCall(p.mode, p.positions, p.indices)
      ensures p.mode == old(p.mode) && p.positions == old(p.positions) && p.indices == old(p.indices)
      ensures gl.linked == old(gl.linked)
    {
      ghost var first := gl.nextName;
      ghost var setup := if p.vao.None?
        then VaoCommands(p.positions, p.texcoords, p.normals, p.indices, first) else [];
      ghost var before := gl.log;
      p.Draw(gl);
      ghost var draw := BindAndDraw(p.vao.value, p.texture, p.mode, p.positions, p.indices);
      assert gl.log == before + setup + draw;
      DrawShowsDrawCall(p.vao.value, p.texture, p.mode, p.positions, p.indices);
      if setup != [] {
        VaoShowsNothing(p.positions, p.texcoords, p.normals, p.indices, first);
      }
      ShowsOnlyDraw(before, setup, draw);
    }

    /** `mesh.primitives.forEach(primitive => primitive.draw(gl))`, with `calls` the draw
        call of each primitive as the draw begins. */
    method DrawPrimitives(primitives: seq<Primitive>, ghost calls: map<Primitive, seq<Command>>)
      requires Valid() && AgreesOn((set p | p in primitives), calls)
      modifies gl, set p | p in primitives
      ensures Valid() && AgreesOn((set p | p in primitives), calls)
      ensures Visible(gl.log) == Visible(old(gl.log)) + PrimitivesPlan(primitives, |primitives|, calls)
      ensures gl.linked == old(gl.linked)
    {
      for k := 0 to |primitives|
        invariant Valid() && AgreesOn((set p | p in primitives), calls) && gl.linked == old(gl.linked)
        invariant Visible(gl.log) == Visible(old(gl.log)) + PrimitivesPlan(primitives, k, calls)
      {
        ghost var before := gl.log;
        DrawPrimitive(primitives[k]);
        assert primitives[k] in (set p | p in primitives);
        Associative(Visible(old(gl.log)), PrimitivesPlan(primitives, k, calls), calls[primitives[k]]);
      }
    }

    /** The meshes of one model, each with its matrix set into "mesh" first. */
    method DrawMeshes(meshes: seq<Mesh>, ghost calls: map<Primitive, seq<Command>>) returns (r: Outcome<ShaderError>)
      requires Valid() && AgreesOn(MeshPrimitives(meshes), calls)
      modifies this, gl, MeshPrimitives(meshes)
      ensures Valid() && AgreesOn(MeshPrimitives(meshes), calls) && gl.linked == old(gl.linked)
      ensures r.Pass? <==> (|meshes| == 0 || gl.UniformLocation(program, "mesh").Some?)
      ensures var location := gl.UniformLocation(program, "mesh").GetOr(Name(0));
        r.Pass? ==> Visible(gl.log) == Visible(old(gl.log)) + MeshesPlan(meshes, |meshes|, location, calls)
    {
      ghost var location := gl.UniformLocation(program, "mesh").GetOr(Name(0));
      for j := 0 to |meshes|
        invariant Valid() && AgreesOn(MeshPrimitives(meshes), calls) && gl.linked == old(gl.linked)
        invariant j > 0 ==> gl.UniformLocation(program, "mesh").Some?
        invariant Visible(gl.log) == Visible(old(gl.log)) + MeshesPlan(meshes, j, location, calls)
      {
        ghost var before := gl.log;
        r := DrawMesh(meshes, j, location, calls);
        if r.Fail? {
          return;
        }
        MeshesStep(Visible(old(gl.log)), Visible(before), Visible(gl.log), meshes, j, location, calls);
      }
      return Pass;
    }

    /** One step of `DrawMeshes`: mesh j's matrix, then its primitives. */
    method DrawMesh(meshes: seq<Mesh>, j: nat, ghost location: Name, ghost calls: map<Primitive, seq<Command>>)
      returns (r: Outcome<ShaderError>)
      requires j < |meshes| && Valid() && AgreesOn(MeshPrimitives(meshes), calls)
      requires location == gl.UniformLocation(program, "mesh").GetOr(Name(0))
      modifies this, gl, MeshPrimitives(meshes)
      ensures Valid() && AgreesOn(MeshPrimitives(meshes), calls) && gl.linked == old(gl.linked)
      ensures r.Pass? <==> gl.UniformLocation(program, "mesh").Some?
      ensures r.Pass? ==>
        && (forall p :: p in meshes[j].primitives ==> p in calls)
        && Visible(gl.log) == Visible(old(gl.log)) + [Uniform(location, Matrix(meshes[j].matrix))]
             + PrimitivesPlan(meshes[j].primitives, |meshes[j].primitives|, calls)
    {
      r := SetMatrix("mesh", meshes[j].matrix);
      if r.Fail? {
        return;
      }
      var primitives := meshes[j].primitives;
      assert forall p :: p in primitives ==> p in MeshPrimitives(meshes);
      DrawPrimitives(primitives, calls);
    }

    /** `draw(models)`: for each model its matrix into "model", then its meshes; it throws
        on the first uniform that cannot be located. */
    method Draw(models: seq<Model>) returns (r: Outcome<ShaderError>)
      requires Valid()
      modifies this, gl, Primitives(models)
      ensures Valid() && gl.linked == old(gl.linked)
      ensures r.Pass? <==> !DrawFails(old(Views(models)), gl.UniformLocation(program, "model"), gl.UniformLocation(program, "mesh"))
      ensures var modelLocation := gl.UniformLocation(program, "model").GetOr(Name(0));
        var meshLocation := gl.UniformLocation(program, "mesh").GetOr(Name(0));
        r.Pass? ==>
          Visible(gl.log) == Visible(old(gl.log)) + ModelsPlan(old(Views(models)), |models|, modelLocation, meshLocation, old(Snapshot(Primitives(models))))
    {
      ghost var prims := Primitives(models);
      ghost var calls := Snapshot(prims);
      ghost var views := Views(models);
      ghost var modelLocation := gl.UniformLocation(program, "model").GetOr(Name(0));
      ghost var meshLocation := gl.UniformLocation(program, "mesh").GetOr(Name(0));
      ghost var start := Visible(gl.log);
      for i := 0 to |models|
        invariant Valid() && AgreesOn(prims, calls) && gl.linked == old(gl.linked)
        invariant i > 0 ==> gl.UniformLocation(program, "model").Some?
        invariant HasMeshes(views, i) ==> gl.UniformLocation(program, "mesh").Some?
        invariant Visible(gl.log) == start + ModelsPlan(views, i, modelLocation, meshLocation, calls)
      {
        assert views[i] == ModelView(models[i].matrix, models[i].meshes);
        r := DrawModel(models[i].matrix, models[i].meshes, modelLocation, meshLocation, prims, calls, views, i, start);
        if r.Fail? {
          DrawFailsAt(views, i, gl.UniformLocation(program, "model"), gl.UniformLocation(program, "mesh"));
          return;
        }
        HasMeshesStep(views, i);
      }
      return Pass;
    }

    /** One step of `Draw`: a model's matrix, then its meshes. */
    method DrawModel(matrix: Mat4, meshes: seq<Mesh>, ghost modelLocation: Name, ghost meshLocation: Name,
                     ghost prims: set<Primitive>, ghost calls: map<Primitive, seq<Command>>,
                     ghost views: seq<ModelView>, ghost i: nat, ghost start: seq<Command>) returns (r: Outcome<ShaderError>)
      requires Valid() && AgreesOn(prims, calls) && MeshPrimitives(meshes) <= prims
      requires modelLocation == gl.UniformLocation(program, "model").GetOr(Name(0))
      requires meshLocation == gl.UniformLocation(program, "mesh").GetOr(Name(0))
      requires i < |views| && views[i] == ModelView(matrix, meshes) && Covered(views, calls)
      requires Visible(gl.log) == start + ModelsPlan(views, i, modelLocation, meshLocation, calls)
      modifies this, gl, prims
      ensures Valid() && AgreesOn(prims, calls) && gl.linked == old(gl.linked)
      ensures r.Pass? <==> (gl.UniformLocation(program, "model").Some?
        && (|meshes| == 0 || gl.UniformLocation(program, "mesh").Some?))
      ensures r.Pass? ==> Visible(gl.log) == start + ModelsPlan(views, i + 1, modelLocation, meshLocation, calls)
    {
      ghost var before := Visible(gl.log);
      r := SetMatrix("model", matrix);
      if r.Fail? {
        return;
      }
      r := DrawMeshes(meshes, calls);
      if r.Pass? {
        ModelsStep(start, before, Visible(gl.log), views, i, modelLocation, meshLocation, calls);
      }
    }
  }

  // ---------------------------------------------------------------------------
  // Shadow visibility

  /** The shadow-receiving fragment's visibility: the clip-space shadow coordinate mapped
      to [0, 1] texture space, the occluder's stored value sampled from the shadow map at
      its xy, and clamp(exp(occluder - c·z), 0, 1). */
  function Visibility(m: MathLib, c: real, shadowMap: (real, real) -> real, shadowCoord: Vec4): (r: real)
    requires shadowCoord[3] != 0.0
    ensures 0.0 <= r <= 1.0
  {
    var w := shadowCoord[3];
    var x := shadowCoord[0] / w * 0.5 + 0.5;
    var y := shadowCoord[1] / w * 0.5 + 0.5;
    var z := shadowCoord[2] / w * 0.5 + 0.5;
    var occluder := shadowMap(x, y);
    var receiver := c * z;
    Clamp(m.exp(occluder - receiver), 0.0, 1.0)
  }

  /** A fragment is fully lit exactly when the occluder's value is not below its own, and
      otherwise dimmed to exp(occluder − receiver), between 0 and 1. */
  lemma VisibilityLitExactlyUnoccluded(m: MathLib, c: real, shadowMap: (real, real) -> real, shadowCoord: Vec4)
    requires shadowCoord[3] != 0.0
    requires ExpPositive(m.exp) && ExpOfZero(m.exp) && ExpBelowOneOnNegatives(m.exp) && ExpAboveOneOnPositives(m.exp)
    ensures var w := shadowCoord[3];
      var occluder := shadowMap(shadowCoord[0] / w * 0.5 + 0.5, shadowCoord[1] / w * 0.5 + 0.5);
      var receiver := c * (shadowCoord[2] / w * 0.5 + 0.5);
      && (Visibility(m, c, shadowMap, shadowCoord) == 1.0 <==> occluder >= receiver)
      && (occluder < receiver ==> Visibility(m, c, shadowMap, shadowCoord) == m.exp(occluder - receiver) > 0.0)
  {
    var w := shadowCoord[3];
    var occluder := shadowMap(shadowCoord[0] / w * 0.5 + 0.5, shadowCoord[1] / w * 0.5 + 0.5);
    var receiver := c * (shadowCoord[2] / w * 0.5 + 0.5);
    var e := m.exp(occluder - receiver);
    assert e > 0.0;
    if occluder > receiver {
      assert e > 1.0;
    } else if occluder == receiver {
      assert occluder - receiver == 0.0;
    } else {
      assert e < 1.0;
    }
  }
}
