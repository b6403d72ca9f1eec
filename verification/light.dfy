/** The point light (lib/light.ts): an intensity, a colour and a position, drawn as a small
    cube whose model matrix follows the position. */
module Lights {
  import opened Algebra
  import opened Models

  /** The cube's size relative to its model: a tenth along each axis. */
  const CUBE_SCALE: Vec3 := [0.1, 0.1, 0.1]

  /** translate(position) · zoom(0.1, 0.1, 0.1). */
  function Placement(position: Vec3): Mat4
  {
    Multiply(Translate(position), Zoom(CUBE_SCALE))
  }

  /** The placement shrinks the cube to a tenth and centres it on the light: a model point
      p lands at position + p / 10, and stays a point. */
  lemma PlacementCentresCube(position: Vec3, x: real, y: real, z: real)
    ensures Apply(Placement(position), [x, y, z, 1.0])
         == [position[0] + 0.1 * x, position[1] + 0.1 * y, position[2] + 0.1 * z, 1.0]
  {
    ApplyMultiply(Translate(position), Zoom(CUBE_SCALE), [x, y, z, 1.0]);
    ZoomScalesPoints(CUBE_SCALE, [x, y, z, 1.0]);
    TranslateMovesPoints(position, [0.1 * x, 0.1 * y, 0.1 * z, 1.0]);
  }

  /** Colour times intensity: at full intensity the colour itself, at zero black, and the
      squared brightness scales with the square of the intensity. */
  lemma ColorScaling(color: Vec3, intensity: real)
    ensures intensity == 1.0 ==> Times(color, intensity) == color
    ensures intensity == 0.0 ==> Times(color, intensity) == [0.0, 0.0, 0.0]
    ensures SumOfSquares(Times(color, intensity)) == intensity * intensity * SumOfSquares(color)
  {
    SumOfSquaresScaled(color, intensity);
  }

  class Light {
    var intensity: real
    var color: Vec3
    var position: Vec3
    /** The cube model drawn at the light. */
    const model: Model

    /** The cube sits at the light. */
    ghost predicate Valid()
      reads this, model
    {
      model.matrix == Placement(position)
    }

    /** `new Light(intensity, color, position)`, with `cube` the model the cube loader gives. */
    constructor(intensity: real, color: Vec3, position: Vec3, cube: Model)
      modifies cube
      ensures this.intensity == intensity && this.color == color && this.position == position
      ensures model == cube && cube.meshes == old(cube.meshes)
      ensures Valid()
    {
      this.intensity := intensity;
      this.color := color;
      this.position := position;
      model := cube;
      new;
      cube.matrix := Placement(position);
    }

    /** `new Light()`: intensity 1, white, at the origin. */
    constructor Default(cube: Model)
      modifies cube
      ensures intensity == 1.0 && color == [1.0, 1.0, 1.0] && position == [0.0, 0.0, 0.0]
      ensures model == cube && cube.meshes == old(cube.meshes)
      ensures Valid()
    {
      intensity := 1.0;
      color := [1.0, 1.0, 1.0];
      position := [0.0, 0.0, 0.0];
      model := cube;
      new;
      cube.matrix := Placement([0.0, 0.0, 0.0]);
    }

    /** `setPosition`: the light and its cube move together; nothing else changes. */
    method SetPosition(position: Vec3) returns (self: Light)
      modifies this, model
      ensures self == this && this.position == position && Valid()
      ensures intensity == old(intensity) && color == old(color) && model.meshes == old(model.meshes)
    {
      this.position := position;
      model.matrix := Placement(position);
      return this;
    }

    /** `getColor`: the colour scaled componentwise by the intensity. */
    function GetColor(): (r: Vec3)
      reads this
      ensures intensity == 1.0 ==> r == color
      ensures intensity == 0.0 ==> r == [0.0, 0.0, 0.0]
    {
      ColorScaling(color, intensity);
      Times(color, intensity)
    }

    /** The colour's squared brightness scales with the square of the intensity. */
    lemma GetColorBrightness()
      ensures SumOfSquares(GetColor()) == intensity * intensity * SumOfSquares(color)
    {
      assert GetColor() == Times(color, intensity);
      SumOfSquaresScaled(color, intensity);
    }
  }
}
