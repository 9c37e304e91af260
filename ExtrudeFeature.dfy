/**
 * `ExtrudeFeature`: a named parameter store with defaults, a validation
 * predicate, and the sketch-to-solid pipeline. The wire, face and prism
 * steps are kernel operations passed in as functions; any of them may fail.
 */
module Extrude {
  import opened Geometry

  /** The kernel steps an extrusion goes through. */
  datatype ExtrudeKernel = ExtrudeKernel(
    makeWire: seq<SketchLine> -> Built<WireId>,
    makeFace: WireId -> Built<FaceId>,
    makePrism: (FaceId, Vec3) -> Built<ShapeId>)

  /** The placeholder command `CreateCommand` returns: a box command with three dimensions. */
  datatype BoxCommand = CreateBoxCommand(width: real, height: real, depth: real)

  const DistanceKey: string := "distance"
  const DirectionXKey: string := "direction_x"
  const DirectionYKey: string := "direction_y"
  const DirectionZKey: string := "direction_z"
  const TaperAngleKey: string := "taper_angle"
  const MidplaneKey: string := "midplane"

  /**
   * The line segments of a sketch, in sketch order; every other element
   * kind is skipped.
   */
  function LinesOf(elements: seq<SketchElement>): (lines: seq<SketchLine>)
    ensures |lines| <= |elements|
  {
    if elements == [] then []
    else
      var last := elements[|elements| - 1];
      LinesOf(elements[..|elements| - 1]) + (if last.LineElement? then [last.line] else [])
  }

  /** A line is fed to the wire exactly when the sketch holds it as a line element. */
  lemma {:induction false} LinesOfMembers(elements: seq<SketchElement>, l: SketchLine)
    ensures l in LinesOf(elements) <==> LineElement(l) in elements
  {
    if elements != [] {
      var init := elements[..|elements| - 1];
      LinesOfMembers(init, l);
      assert elements == init + [elements[|elements| - 1]];
    }
  }

  /** A sketch made only of lines is fed to the wire whole and in order. */
  lemma {:induction false} LinesOfAllLines(elements: seq<SketchElement>)
    requires forall i :: 0 <= i < |elements| ==> elements[i].LineElement?
    ensures |LinesOf(elements)| == |elements|
    ensures forall i :: 0 <= i < |elements| ==> LinesOf(elements)[i] == elements[i].line
  {
    if elements != [] {
      LinesOfAllLines(elements[..|elements| - 1]);
    }
  }

  /** The extrusion vector: always along +Z, of length `distance`. */
  function ExtrusionVector(distance: real): (v: Vec3)
    ensures v.dx == 0.0 && v.dy == 0.0 && v.dz == distance
  {
    Vec3(0.0, 0.0, distance)
  }

  /**
   * The kernel part of `ExtrudeSketch`: wire from the lines, face from the
   * wire, prism from the face along `ExtrusionVector(distance)`. A failure
   * of any step, reported or thrown, yields no shape.
   */
  function ExtrudeLines(lines: seq<SketchLine>, distance: real, kernel: ExtrudeKernel): (r: Option<ShapeId>)
    ensures r.Some? <==>
              && kernel.makeWire(lines).Done?
              && kernel.makeFace(kernel.makeWire(lines).value).Done?
              && kernel.makePrism(kernel.makeFace(kernel.makeWire(lines).value).value, ExtrusionVector(distance)).Done?
    ensures r.Some? ==>
              r.value == kernel.makePrism(kernel.makeFace(kernel.makeWire(lines).value).value, ExtrusionVector(distance)).value
  {
    match kernel.makeWire(lines)
    case NotDone => None
    case Raised => None
    case Done(wire) =>
      match kernel.makeFace(wire)
      case NotDone => None
      case Raised => None
      case Done(face) =>
        match kernel.makePrism(face, ExtrusionVector(distance))
        case Done(solid) => Some(solid)
        case NotDone => None
        case Raised => None
  }

  /** `length < 1e-10` stated without the square root: squared length below 1e-20. */
  predicate DegenerateDirection(d: Vec3)
  {
    d.dx * d.dx + d.dy * d.dy + d.dz * d.dz < 0.00000000000000000001
  }

  class ExtrudeFeature {
    const name: string
    /** The sketch to extrude: `None` is a null sketch pointer. */
    var sketch: Option<seq<SketchElement>>
    /** The feature's named numeric parameters (the `Feature` base's store). */
    var params: map<string, real>

    ghost predicate Valid()
      reads this
    {
      && DistanceKey in params
      && DirectionXKey in params && DirectionYKey in params && DirectionZKey in params
      && TaperAngleKey in params && MidplaneKey in params
    }

    /** Distance 10, direction (0,0,1), no taper, midplane off. */
    ghost predicate HasDefaults()
      reads this
      requires Valid()
    {
      && GetDistance() == 10.0
      && GetDirection() == Vec3(0.0, 0.0, 1.0)
      && GetTaperAngle() == 0.0
      && !GetMidplane()
    }

    /** The default constructor: name "Extrude" and the default parameters. */
    constructor ()
      ensures Valid() && HasDefaults()
      ensures name == "Extrude" && sketch == None
    {
      name := "Extrude";
      sketch := None;
      params := map[DistanceKey := 10.0, DirectionXKey := 0.0, DirectionYKey := 0.0,
                    DirectionZKey := 1.0, TaperAngleKey := 0.0, MidplaneKey := 0.0];
    }

    /** The named constructor: the given name and the same defaults. */
    constructor Named(name: string)
      ensures Valid() && HasDefaults()
      ensures this.name == name && sketch == None
    {
      this.name := name;
      sketch := None;
      params := map[DistanceKey := 10.0, DirectionXKey := 0.0, DirectionYKey := 0.0,
                    DirectionZKey := 1.0, TaperAngleKey := 0.0, MidplaneKey := 0.0];
    }

    method SetSketch(s: Option<seq<SketchElement>>)
      modifies this
      ensures sketch == s && params == old(params)
    {
      sketch := s;
    }

    function GetSketch(): Option<seq<SketchElement>>
      reads this
    {
      sketch
    }

    method SetDistance(distance: real)
      requires Valid()
      modifies this
      ensures Valid() && GetDistance() == distance
      ensures params == old(params)[DistanceKey := distance] && sketch == old(sketch)
    {
      params := params[DistanceKey := distance];
    }

    function GetDistance(): real
      reads this
      requires Valid()
    {
      params[DistanceKey]
    }

    method SetDirection(x: real, y: real, z: real)
      requires Valid()
      modifies this
      ensures Valid() && GetDirection() == Vec3(x, y, z)
      ensures params == old(params)[DirectionXKey := x][DirectionYKey := y][DirectionZKey := z]
      ensures sketch == old(sketch)
    {
      params := params[DirectionXKey := x];
      params := params[DirectionYKey := y];
      params := params[DirectionZKey := z];
    }

    /** The three direction components (the C++ out-parameters) as one vector. */
    function GetDirection(): Vec3
      reads this
      requires Valid()
    {
      Vec3(params[DirectionXKey], params[DirectionYKey], params[DirectionZKey])
    }

    method SetTaperAngle(angle: real)
      requires Valid()
      modifies this
      ensures Valid() && GetTaperAngle() == angle
      ensures params == old(params)[TaperAngleKey := angle] && sketch == old(sketch)
    {
      params := params[TaperAngleKey := angle];
    }

    function GetTaperAngle(): real
      reads this
      requires Valid()
    {
      params[TaperAngleKey]
    }

    /** The flag is stored as 1.0 or 0.0; reading it back gives the flag. */
    method SetMidplane(midplane: bool)
      requires Valid()
      modifies this
      ensures Valid() && GetMidplane() == midplane
      ensures params == old(params)[MidplaneKey := if midplane then 1.0 else 0.0] && sketch == old(sketch)
    {
      params := params[MidplaneKey := if midplane then 1.0 else 0.0];
    }

    function GetMidplane(): bool
      reads this
      requires Valid()
    {
      params[MidplaneKey] != 0.0
    }

    /** A sketch is usable when it is present and holds at least one element. */
    function IsSketchValid(): (ok: bool)
      reads this
      ensures ok <==> sketch != None && sketch.value != []
    {
      sketch.Some? && |sketch.value| > 0
    }

    /** Parameters are usable exactly when the sketch is, the distance is positive and the direction is not degenerate. */
    function ValidateParameters(): (ok: bool)
      reads this
      requires Valid()
      ensures ok ==> sketch.Some? && |sketch.value| > 0
      ensures !ok <==> !IsSketchValid() || GetDistance() <= 0.0 || DegenerateDirection(GetDirection())
    {
      if !IsSketchValid() then false
      else if GetDistance() <= 0.0 then false
      else if DegenerateDirection(GetDirection()) then false
      else true
    }

    /**
     * Feeds the line elements, in sketch order, to the wire builder and runs
     * the kernel steps. The direction parameters play no part: the vector is
     * always `ExtrusionVector(GetDistance())`.
     */
    method ExtrudeSketch(kernel: ExtrudeKernel) returns (r: Option<ShapeId>)
      requires Valid()
      ensures !IsSketchValid() ==> r == None
      ensures IsSketchValid() ==> r == ExtrudeLines(LinesOf(sketch.value), GetDistance(), kernel)
    {
      if !IsSketchValid() {
        return None;
      }
      var elements := sketch.value;
      var edges: seq<SketchLine> := [];
      var i := 0;
      while i < |elements|
        invariant 0 <= i <= |elements|
        invariant edges == LinesOf(elements[..i])
      {
        assert elements[..i + 1][..i] == elements[..i];
        if elements[i].LineElement? {
          edges := edges + [elements[i].line];
        }
        i := i + 1;
      }
      assert elements[..|elements|] == elements;
      r := ExtrudeLines(edges, GetDistance(), kernel);
    }

    /** Invalid parameters give null before any kernel step; otherwise the extrusion's result. */
    method CreateShape(kernel: ExtrudeKernel) returns (r: Option<ShapeId>)
      requires Valid()
      ensures !ValidateParameters() ==> r == None
      ensures ValidateParameters() ==> r == ExtrudeLines(LinesOf(sketch.value), GetDistance(), kernel)
    {
      if !ValidateParameters() {
        return None;
      }
      r := ExtrudeSketch(kernel);
    }

    /** The placeholder command: a box whose three sides are the extrusion distance. */
    function CreateCommand(): (c: BoxCommand)
      reads this
      requires Valid()
      ensures c.width == GetDistance() && c.height == GetDistance() && c.depth == GetDistance()
    {
      CreateBoxCommand(GetDistance(), GetDistance(), GetDistance())
    }
  }
}
