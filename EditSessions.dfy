/**
 * What each edit handler of the main window asks of the document, as a
 * function of the calls made before it: the calls it makes, in order. The
 * kernel operations (factories, booleans, fillets, extrusion, the transform
 * command) are function-valued parameters; the document's replies come from
 * the `Answers` oracle. `MainWindow` issues exactly these calls.
 */
module EditSessions {
  import opened Geometry
  import opened ShapeFactory
  import opened Document
  import opened Extrude

  /** The factory result as the handler holds it: a shape pointer, null unless a shape was made. */
  function Produced(r: Result): Option<ShapeId>
  {
    if r.Shape? then Some(r.id) else None
  }

  // ---------------------------------------------------------------------------
  // Primitive creation
  // ---------------------------------------------------------------------------

  /**
   * The transaction around one new shape: start, then, given a shape, add it;
   * an accepted shape is shown and committed, anything else is aborted.
   */
  function AddShapeSession(log: seq<Call>, name: string, title: string, shape: Option<ShapeId>,
                           answers: Answers): (d: seq<Call>)
    ensures OneTransaction(d) && d[0] == Start(name)
    ensures Committed(d) <==> shape.Some? && answers(log + [Start(name)], Add(shape.value, title))
    ensures Aborted(d) <==> !Committed(d)
    ensures forall c :: c in d && IsView(c) ==> Committed(d) && c.Show? && shape == Some(c.shape)
  {
    if shape.None? then
      Bracketed(name, [], Abort, []);
      [Start(name)] + [] + [Abort] + []
    else if answers(log + [Start(name)], Add(shape.value, title)) then
      Bracketed(name, [Add(shape.value, title), Show(shape.value)], Commit, []);
      [Start(name)] + [Add(shape.value, title), Show(shape.value)] + [Commit] + []
    else
      Bracketed(name, [Add(shape.value, title)], Abort, []);
      [Start(name)] + [Add(shape.value, title)] + [Abort] + []
  }

  /** An exception that leaves a handler, and the calls made before it left. */
  datatype Escaping = Escaping(calls: seq<Call>, escaped: Option<Error>)

  /**
   * The box handler as written: the factory's `invalid_argument` is not
   * caught, so it leaves the handler after the transaction was started.
   */
  function BoxSessionAsWritten(log: seq<Call>, width: real, height: real, depth: real,
                               makeBox: (real, real, real) -> Built<ShapeId>, answers: Answers): (s: Escaping)
    ensures s.escaped.Some? <==> !PositiveBox(width, height, depth) || !makeBox(width, height, depth).Done?
    ensures s.escaped.None? ==> s.calls == BoxSession(log, width, height, depth, makeBox, answers)
  {
    var r := CreateBox(width, height, depth, makeBox);
    if r.Thrown? then Escaping([Start("Create Box")], Some(r.error))
    else Escaping(AddShapeSession(log, "Create Box", "Box", Produced(r), answers), None)
  }

  /** Non-positive box dimensions leave the handler with an exception and an open transaction. */
  lemma BoxLeavesTransactionOpen(log: seq<Call>, width: real, height: real, depth: real,
                                 makeBox: (real, real, real) -> Built<ShapeId>, answers: Answers)
    requires !PositiveBox(width, height, depth)
    ensures var s := BoxSessionAsWritten(log, width, height, depth, makeBox, answers);
            && s.escaped == Some(InvalidArgument(NonPositiveDimension))
            && !OneTransaction(s.calls) && Run(Idle, s.calls) == Open
  {
    var s := BoxSessionAsWritten(log, width, height, depth, makeBox, answers);
    assert s.calls == [Start("Create Box")];
    assert s.calls[..0] == [];
  }

  /**
   * The box handler with the factory's exception caught and the transaction
   * aborted: it commits exactly when the dimensions are positive, the kernel
   * builds the box and the document accepts it.
   */
  function BoxSession(log: seq<Call>, width: real, height: real, depth: real,
                      makeBox: (real, real, real) -> Built<ShapeId>, answers: Answers): (d: seq<Call>)
    ensures OneTransaction(d) && d[0] == Start("Create Box")
    ensures Committed(d) <==>
              && PositiveBox(width, height, depth) && makeBox(width, height, depth).Done?
              && answers(log + [Start("Create Box")], Add(makeBox(width, height, depth).value, "Box"))
    ensures Aborted(d) <==> !Committed(d)
    ensures forall c :: c in d && IsView(c) ==> Committed(d) && c == Show(makeBox(width, height, depth).value)
  {
    AddShapeSession(log, "Create Box", "Box", Produced(CreateBox(width, height, depth, makeBox)), answers)
  }

  /** The cylinder handler: a rejected radius or height, or a kernel failure, aborts. */
  function CylinderSession(log: seq<Call>, radius: real, height: real,
                           makeCylinder: (Point3, real, real) -> Built<ShapeId>, answers: Answers): (d: seq<Call>)
    ensures OneTransaction(d) && d[0] == Start("Create Cylinder")
    ensures Committed(d) <==>
              && radius > 0.0 && height > 0.0 && makeCylinder(Origin, radius, height).Done?
              && answers(log + [Start("Create Cylinder")], Add(makeCylinder(Origin, radius, height).value, "Cylinder"))
    ensures Aborted(d) <==> !Committed(d)
    ensures forall c :: c in d && IsView(c) ==> Committed(d) && c == Show(makeCylinder(Origin, radius, height).value)
  {
    AddShapeSession(log, "Create Cylinder", "Cylinder",
                    Produced(CreateCylinderAtOrigin(radius, height, makeCylinder)), answers)
  }

  /** The sphere handler: a rejected radius, or a kernel failure, aborts. */
  function SphereSession(log: seq<Call>, radius: real,
                         makeSphere: (Point3, real) -> Built<ShapeId>, answers: Answers): (d: seq<Call>)
    ensures OneTransaction(d) && d[0] == Start("Create Sphere")
    ensures Committed(d) <==>
              && radius > 0.0 && makeSphere(Origin, radius).Done?
              && answers(log + [Start("Create Sphere")], Add(makeSphere(Origin, radius).value, "Sphere"))
    ensures Aborted(d) <==> !Committed(d)
    ensures forall c :: c in d && IsView(c) ==> Committed(d) && c == Show(makeSphere(Origin, radius).value)
  {
    AddShapeSession(log, "Create Sphere", "Sphere", Produced(CreateSphereAtOrigin(radius, makeSphere)), answers)
  }

  /**
   * The torus handler: the factory's exception and a rejected add (rethrown
   * as an exception) both reach the handler's catch, which aborts.
   */
  function TorusSession(log: seq<Call>, majorRadius: real, minorRadius: real,
                        makeTorus: (Point3, real, real) -> Built<ShapeId>, answers: Answers): (d: seq<Call>)
    ensures OneTransaction(d) && d[0] == Start("Create Torus")
    ensures Committed(d) <==>
              && ValidTorusRadii(majorRadius, minorRadius) && makeTorus(Origin, majorRadius, minorRadius).Done?
              && answers(log + [Start("Create Torus")], Add(makeTorus(Origin, majorRadius, minorRadius).value, "Torus"))
    ensures Aborted(d) <==> !Committed(d)
    ensures forall c :: c in d && IsView(c) ==> Committed(d) && c == Show(makeTorus(Origin, majorRadius, minorRadius).value)
  {
    AddShapeSession(log, "Create Torus", "Torus",
                    Produced(CreateTorus(Origin, majorRadius, minorRadius, makeTorus)), answers)
  }

  // ---------------------------------------------------------------------------
  // Extrusion: the single-use sketch hand-off
  // ---------------------------------------------------------------------------

  /**
   * What a default `ExtrudeFeature` holding a non-empty sketch and the given
   * distance creates: the default direction (0,0,1) is never degenerate, so
   * only the distance can be rejected.
   */
  function ExtrudeShape(elements: seq<SketchElement>, distance: real, kernel: ExtrudeKernel): (r: Option<ShapeId>)
    ensures distance <= 0.0 ==> r == None
  {
    if distance > 0.0 then ExtrudeLines(LinesOf(elements), distance, kernel) else None
  }

  /**
   * The extrusion transaction as written: the reply to `AddShape` is ignored,
   * so the transaction commits and the shape is shown whatever the document
   * answered.
   */
  function ExtrudeCommitAsWritten(log: seq<Call>, shape: ShapeId, answers: Answers): (d: seq<Call>)
    ensures Committed(d) && Show(shape) in d && Add(shape, "Extrusion") in d
  {
    Bracketed("Extrude Sketch", [Add(shape, "Extrusion")], Commit, [Show(shape)]);
    [Start("Extrude Sketch")] + [Add(shape, "Extrusion")] + [Commit] + [Show(shape)]
  }

  /** A shape the document refuses is still committed and shown. */
  lemma ExtrudeCommitsRejectedShape(log: seq<Call>, shape: ShapeId)
    ensures var refuseAll: Answers := (l: seq<Call>, c: Call) => false;
            var d := ExtrudeCommitAsWritten(log, shape, refuseAll);
            && !refuseAll(log + [Start("Extrude Sketch")], Add(shape, "Extrusion"))
            && Committed(d) && Show(shape) in d
  {
  }

  /** The extrusion transaction with the reply checked: commit and show only an accepted shape. */
  function ExtrudeCommit(log: seq<Call>, shape: ShapeId, answers: Answers): (d: seq<Call>)
    ensures OneTransaction(d) && d[0] == Start("Extrude Sketch")
    ensures Committed(d) <==> answers(log + [Start("Extrude Sketch")], Add(shape, "Extrusion"))
    ensures Show(shape) in d <==> Committed(d)
  {
    if answers(log + [Start("Extrude Sketch")], Add(shape, "Extrusion")) then
      Bracketed("Extrude Sketch", [Add(shape, "Extrusion")], Commit, [Show(shape)]);
      [Start("Extrude Sketch")] + [Add(shape, "Extrusion")] + [Commit] + [Show(shape)]
    else
      Bracketed("Extrude Sketch", [Add(shape, "Extrusion")], Abort, []);
      [Start("Extrude Sketch")] + [Add(shape, "Extrusion")] + [Abort] + []
  }

  /** The calls of an extrude request, and whether the stored sketch is used up. */
  datatype Handoff = Handoff(calls: seq<Call>, consumed: bool)

  /**
   * The extrude handler: a missing or empty sketch, or a cancelled distance
   * dialog, does nothing; a shape that is missing or invalid makes no calls;
   * otherwise the shape is committed and the sketch is used up exactly when
   * the document accepts it.
   */
  function ExtrudeSession(log: seq<Call>, sketch: Option<seq<SketchElement>>, input: Option<real>,
                          kernel: ExtrudeKernel, isValid: ShapeId -> bool, answers: Answers): (h: Handoff)
    ensures sketch.None? || sketch.value == [] || input.None? ==> h == Handoff([], false)
    ensures h.calls != [] <==>
              && sketch.Some? && sketch.value != [] && input.Some?
              && ExtrudeShape(sketch.value, input.value, kernel).Some?
              && isValid(ExtrudeShape(sketch.value, input.value, kernel).value)
    ensures h.calls != [] ==> OneTransaction(h.calls)
    ensures h.consumed <==> Committed(h.calls)
  {
    if sketch.None? || sketch.value == [] || input.None? then Handoff([], false)
    else
      var shape := ExtrudeShape(sketch.value, input.value, kernel);
      if shape.Some? && isValid(shape.value) then
        var d := ExtrudeCommit(log, shape.value, answers);
        Handoff(d, answers(log + [Start("Extrude Sketch")], Add(shape.value, "Extrusion")))
      else Handoff([], false)
  }

  // ---------------------------------------------------------------------------
  // Boolean operations
  // ---------------------------------------------------------------------------

  datatype BooleanOperationType = Union | Intersection | Difference

  /** The kernel's boolean operations; any of them may give null or raise. */
  datatype BooleanKernel = BooleanKernel(
    union: seq<ShapeId> -> Built<ShapeId>,
    intersection: (ShapeId, ShapeId) -> Built<ShapeId>,
    difference: (ShapeId, ShapeId) -> Built<ShapeId>)

  function OperationName(op: BooleanOperationType): string
  {
    match op
    case Union => "Boolean Union"
    case Intersection => "Boolean Intersection"
    case Difference => "Boolean Difference"
  }

  /**
   * The selection a boolean accepts: a union needs a target and at least two
   * shapes in all; intersection and difference need a target and a tool.
   */
  predicate BooleanInputAccepted(op: BooleanOperationType, targets: seq<ShapeId>, tools: seq<ShapeId>)
  {
    if op == Union then |targets| > 0 && (|targets| >= 2 || |tools| > 0)
    else |targets| > 0 && |tools| > 0
  }

  /** One step of a fold: combine a present result; a null result or a raised exception stays. */
  function Combine(acc: Built<ShapeId>, operand: ShapeId, combine: (ShapeId, ShapeId) -> Built<ShapeId>): Built<ShapeId>
  {
    if acc.Done? then combine(acc.value, operand) else acc
  }

  /** Left fold of `combine` over the operands, from `acc`. */
  function Fold(acc: Built<ShapeId>, operands: seq<ShapeId>, combine: (ShapeId, ShapeId) -> Built<ShapeId>): Built<ShapeId>
  {
    if operands == [] then acc
    else Combine(Fold(acc, operands[..|operands| - 1], combine), operands[|operands| - 1], combine)
  }

  lemma {:induction false} FoldAppend(acc: Built<ShapeId>, xs: seq<ShapeId>, ys: seq<ShapeId>,
                                      combine: (ShapeId, ShapeId) -> Built<ShapeId>)
    ensures Fold(acc, xs + ys, combine) == Fold(Fold(acc, xs, combine), ys, combine)
    decreases |ys|
  {
    if ys == [] {
      assert xs + ys == xs;
    } else {
      assert (xs + ys)[..|xs + ys| - 1] == xs + ys[..|ys| - 1];
      assert (xs + ys)[|xs + ys| - 1] == ys[|ys| - 1];
      FoldAppend(acc, xs, ys[..|ys| - 1], combine);
    }
  }

  lemma {:induction false} FoldStuck(acc: Built<ShapeId>, xs: seq<ShapeId>, combine: (ShapeId, ShapeId) -> Built<ShapeId>)
    requires !acc.Done?
    ensures Fold(acc, xs, combine) == acc
    decreases |xs|
  {
    if xs != [] {
      FoldStuck(acc, xs[..|xs| - 1], combine);
    }
  }

  /** Once an intermediate result is null (or raised), the remaining operands change nothing. */
  lemma NullStopsFold(acc: Built<ShapeId>, xs: seq<ShapeId>, ys: seq<ShapeId>,
                      combine: (ShapeId, ShapeId) -> Built<ShapeId>)
    requires !Fold(acc, xs, combine).Done?
    ensures Fold(acc, xs + ys, combine) == Fold(acc, xs, combine)
  {
    FoldAppend(acc, xs, ys, combine);
    FoldStuck(Fold(acc, xs, combine), ys, combine);
  }

  /**
   * The boolean's result: the union of all targets and tools; the
   * intersection folded over the other targets and then the tools; the
   * difference folded over the tools; each fold starts from the first target.
   */
  function BooleanResult(op: BooleanOperationType, targets: seq<ShapeId>, tools: seq<ShapeId>,
                         kernel: BooleanKernel): Built<ShapeId>
    requires BooleanInputAccepted(op, targets, tools)
  {
    match op
    case Union => kernel.union(targets + tools)
    case Intersection => Fold(Fold(Done(targets[0]), targets[1..], kernel.intersection), tools, kernel.intersection)
    case Difference => Fold(Done(targets[0]), tools, kernel.difference)
  }

  /** The intersection is one fold over the other targets followed by the tools. */
  lemma IntersectionIsOneFold(targets: seq<ShapeId>, tools: seq<ShapeId>, kernel: BooleanKernel)
    requires BooleanInputAccepted(Intersection, targets, tools)
    ensures BooleanResult(Intersection, targets, tools, kernel)
            == Fold(Done(targets[0]), targets[1..] + tools, kernel.intersection)
  {
    FoldAppend(Done(targets[0]), targets[1..], tools, kernel.intersection);
  }

  /** For each shape, in order: removed from the document, then from the viewer and the tree. */
  function Removals(shapes: seq<ShapeId>): (r: seq<Call>)
    ensures |r| == 2 * |shapes|
  {
    if shapes == [] then []
    else
      var last := shapes[|shapes| - 1];
      Removals(shapes[..|shapes| - 1]) + [Remove(last), Hide(last)]
  }

  /** The removals are removals and hides only, and remove exactly the given shapes. */
  lemma {:induction false} RemovalsMembers(shapes: seq<ShapeId>)
    ensures forall c :: c in Removals(shapes) ==> c.Remove? || c.Hide?
    ensures forall s: ShapeId :: Remove(s) in Removals(shapes) <==> s in shapes
  {
    if shapes != [] {
      var last := shapes[|shapes| - 1];
      RemovalsMembers(shapes[..|shapes| - 1]);
      assert shapes == shapes[..|shapes| - 1] + [last];
    }
  }

  /**
   * After the start: a present result is added; once the document accepts
   * it, it is shown, every target and tool is removed, and the transaction
   * commits; anything else aborts.
   */
  function BooleanFinish(log: seq<Call>, name: string, result: Built<ShapeId>, targets: seq<ShapeId>,
                         tools: seq<ShapeId>, answers: Answers): seq<Call>
  {
    if result.Done? && answers(log, Add(result.value, name + " Result")) then
      [Add(result.value, name + " Result"), Show(result.value)] + Removals(targets) + Removals(tools) + [Commit]
    else if result.Done? then [Add(result.value, name + " Result"), Abort]
    else [Abort]
  }

  /** The boolean handler: a rejected selection makes no calls; otherwise the start and `BooleanFinish`. */
  function BooleanSession(log: seq<Call>, op: BooleanOperationType, targets: seq<ShapeId>, tools: seq<ShapeId>,
                          kernel: BooleanKernel, answers: Answers): (d: seq<Call>)
    ensures d == [] <==> !BooleanInputAccepted(op, targets, tools)
  {
    if !BooleanInputAccepted(op, targets, tools) then []
    else
      var name := OperationName(op);
      [Start(name)] + BooleanFinish(log + [Start(name)], name, BooleanResult(op, targets, tools, kernel), targets, tools,
                                    answers)
  }

  /**
   * An accepted selection makes one transaction. It commits exactly when
   * the result is present and the document accepts it.
   */
  lemma BooleanTransaction(log: seq<Call>, op: BooleanOperationType, targets: seq<ShapeId>, tools: seq<ShapeId>,
                           kernel: BooleanKernel, answers: Answers)
    ensures var d := BooleanSession(log, op, targets, tools, kernel, answers);
            d != [] ==> OneTransaction(d) && d[0] == Start(OperationName(op))
    ensures var d := BooleanSession(log, op, targets, tools, kernel, answers);
            Committed(d) <==>
              && BooleanInputAccepted(op, targets, tools)
              && BooleanResult(op, targets, tools, kernel).Done?
              && answers(log + [Start(OperationName(op))],
                         Add(BooleanResult(op, targets, tools, kernel).value, OperationName(op) + " Result"))
  {
    if BooleanInputAccepted(op, targets, tools) {
      var name := OperationName(op);
      var result := BooleanResult(op, targets, tools, kernel);
      BooleanBracketed(log + [Start(name)], name, result, targets, tools, answers);
    }
  }

  /** The start and `BooleanFinish` form one transaction, committed exactly when it ends in a commit. */
  lemma BooleanBracketed(log: seq<Call>, name: string, result: Built<ShapeId>, targets: seq<ShapeId>,
                         tools: seq<ShapeId>, answers: Answers)
    ensures var d := [Start(name)] + BooleanFinish(log, name, result, targets, tools, answers);
            OneTransaction(d) && (Committed(d) <==> d[|d| - 1] == Commit)
  {
    var rest := BooleanFinish(log, name, result, targets, tools, answers);
    if result.Done? && answers(log, Add(result.value, name + " Result")) {
      var body := [Add(result.value, name + " Result"), Show(result.value)] + Removals(targets) + Removals(tools);
      RemovalsMembers(targets);
      RemovalsMembers(tools);
      BodyIsInside(body);
      assert rest[..|rest| - 1] == body;
    } else if result.Done? {
      assert rest[..|rest| - 1] == [Add(result.value, name + " Result")];
    } else {
      assert rest[..|rest| - 1] == [];
    }
    StartThen(name, rest);
  }

  lemma BodyIsInside(body: seq<Call>)
    requires |body| >= 2 && body[0].Add? && body[1].Show?
    requires forall c :: c in body[2..] ==> c.Remove? || c.Hide?
    ensures forall c :: c in body ==> IsEdit(c) || IsView(c)
  {
    forall c | c in body
      ensures IsEdit(c) || IsView(c)
    {
      var k :| 0 <= k < |body| && body[k] == c;
      if k >= 2 {
        assert c == body[2..][k - 2];
      }
    }
  }

  /**
   * A committed boolean removes every target and tool; any other outcome
   * removes nothing and changes nothing on display.
   */
  lemma BooleanRemovesInputs(log: seq<Call>, op: BooleanOperationType, targets: seq<ShapeId>, tools: seq<ShapeId>,
                             kernel: BooleanKernel, answers: Answers)
    ensures var d := BooleanSession(log, op, targets, tools, kernel, answers);
            Committed(d) ==> forall s :: s in targets || s in tools ==> Remove(s) in d
    ensures var d := BooleanSession(log, op, targets, tools, kernel, answers);
            !Committed(d) ==> forall c :: c in d ==> !c.Remove? && !IsView(c)
  {
    BooleanTransaction(log, op, targets, tools, kernel, answers);
    RemovalsMembers(targets);
    RemovalsMembers(tools);
  }

  // ---------------------------------------------------------------------------
  // Shared shape of a handler's calls after its start
  // ---------------------------------------------------------------------------

  /** Edits and view events, then one closing call. */
  predicate InsideThenEnd(r: seq<Call>)
  {
    |r| >= 1 && IsEnd(r[|r| - 1]) && forall c :: c in r[..|r| - 1] ==> IsEdit(c) || IsView(c)
  }

  /** Calls that follow a start and end in a closing call form one transaction with it. */
  lemma StartThen(name: string, rest: seq<Call>)
    requires InsideThenEnd(rest)
    ensures OneTransaction([Start(name)] + rest)
    ensures Committed([Start(name)] + rest) <==> rest[|rest| - 1] == Commit
  {
    var body := rest[..|rest| - 1];
    var end := rest[|rest| - 1];
    assert rest == body + [end];
    Bracketed(name, body, end, []);
    assert [Start(name)] + body + [end] + [] == [Start(name)] + rest;
  }

  // ---------------------------------------------------------------------------
  // Fillet and chamfer
  // ---------------------------------------------------------------------------

  datatype FilletChamferType = Fillet | Chamfer

  /** The selected edges of one shape; a null shape pointer is `None`. */
  datatype EdgeGroup = EdgeGroup(base: Option<ShapeId>, edges: seq<EdgeId>)

  /** The kernel's fillet (by radius) and chamfer (by distance); either may give null or raise. */
  datatype FilletKernel = FilletKernel(
    fillet: (ShapeId, seq<EdgeId>, real) -> Built<ShapeId>,
    chamfer: (ShapeId, seq<EdgeId>, real) -> Built<ShapeId>)

  function FilletName(kind: FilletChamferType): string
  {
    if kind == Fillet then "Fillet" else "Chamfer"
  }

  /** A group with a shape and at least one edge is processed; others are skipped. */
  predicate Attempted(g: EdgeGroup)
  {
    g.base.Some? && g.edges != []
  }

  /** The operation on one group: fillet by `radius`, chamfer by `distance1`. */
  function Operate(kind: FilletChamferType, kernel: FilletKernel, radius: real, distance1: real, g: EdgeGroup): Built<ShapeId>
    requires Attempted(g)
  {
    if kind == Fillet then kernel.fillet(g.base.value, g.edges, radius)
    else kernel.chamfer(g.base.value, g.edges, distance1)
  }

  /** Some processed group from index `i` on raises. */
  predicate RaisesFrom(kind: FilletChamferType, kernel: FilletKernel, radius: real, distance1: real,
                       groups: seq<EdgeGroup>, i: nat)
  {
    exists j :: i <= j < |groups| && Attempted(groups[j]) && Operate(kind, kernel, radius, distance1, groups[j]).Raised?
  }

  lemma RaisesFromStep(kind: FilletChamferType, kernel: FilletKernel, radius: real, distance1: real,
                       groups: seq<EdgeGroup>, i: nat)
    requires i < |groups|
    ensures RaisesFrom(kind, kernel, radius, distance1, groups, i) <==>
              || (Attempted(groups[i]) && Operate(kind, kernel, radius, distance1, groups[i]).Raised?)
              || RaisesFrom(kind, kernel, radius, distance1, groups, i + 1)
  {
    if RaisesFrom(kind, kernel, radius, distance1, groups, i) {
      var j :| i <= j < |groups| && Attempted(groups[j]) && Operate(kind, kernel, radius, distance1, groups[j]).Raised?;
      if j > i {
        assert RaisesFrom(kind, kernel, radius, distance1, groups, i + 1);
      }
    }
  }

  predicate HasRemove(d: seq<Call>)
  {
    exists j :: 0 <= j < |d| && d[j].Remove?
  }

  /** Every removal of a base shape directly follows the add of its result, which the document accepted. */
  predicate RemovesFollowAcceptedAdds(log: seq<Call>, d: seq<Call>, answers: Answers)
  {
    forall j :: 0 <= j < |d| && d[j].Remove? ==> 0 < j && d[j - 1].Add? && answers(log + d[..j - 1], d[j - 1])
  }

  /**
   * The groups from index `i` on, and the closing call. Each accepted result
   * replaces its base shape; a raise aborts at once; at the end the
   * transaction commits when some result was accepted.
   */
  function FilletFrom(log: seq<Call>, kind: FilletChamferType, kernel: FilletKernel, radius: real, distance1: real,
                      groups: seq<EdgeGroup>, i: nat, anySuccess: bool, answers: Answers): (r: seq<Call>)
    requires i <= |groups|
    decreases |groups| - i
    ensures |r| >= 1
  {
    if i == |groups| then
      if anySuccess then [Commit] else [Abort]
    else
      var g := groups[i];
      if !Attempted(g) then
        FilletFrom(log, kind, kernel, radius, distance1, groups, i + 1, anySuccess, answers)
      else
        match Operate(kind, kernel, radius, distance1, g)
        case Raised => [Abort]
        case NotDone => FilletFrom(log, kind, kernel, radius, distance1, groups, i + 1, anySuccess, answers)
        case Done(result) =>
          var add := Add(result, FilletName(kind) + " Result on Shape");
          if answers(log, add) then
            var step := [add, Remove(g.base.value), Hide(g.base.value), Show(result)];
            step + FilletFrom(log + step, kind, kernel, radius, distance1, groups, i + 1, true, answers)
          else
            [add] + FilletFrom(log + [add], kind, kernel, radius, distance1, groups, i + 1, anySuccess, answers)
  }

  /**
   * The induction behind `FilletFromCommits`, with "some result was
   * accepted" read off the calls as "some base shape was removed": one
   * closing call, a commit exactly when nothing raised and a base shape was
   * removed, and every removal follows an accepted result.
   */
  lemma {:induction false} FilletFromFacts(log: seq<Call>, kind: FilletChamferType, kernel: FilletKernel, radius: real,
                                           distance1: real, groups: seq<EdgeGroup>, i: nat, anySuccess: bool,
                                           answers: Answers)
    requires i <= |groups|
    decreases |groups| - i, 1
    ensures var r := FilletFrom(log, kind, kernel, radius, distance1, groups, i, anySuccess, answers);
            && InsideThenEnd(r)
            && (r[|r| - 1] == Commit <==>
                  !RaisesFrom(kind, kernel, radius, distance1, groups, i) && (anySuccess || HasRemove(r)))
            && RemovesFollowAcceptedAdds(log, r, answers)
  {
    var r := FilletFrom(log, kind, kernel, radius, distance1, groups, i, anySuccess, answers);
    if i == |groups| {
      assert !r[0].Remove?;
    } else {
      var g := groups[i];
      RaisesFromStep(kind, kernel, radius, distance1, groups, i);
      if !Attempted(g) {
        FilletFromFacts(log, kind, kernel, radius, distance1, groups, i + 1, anySuccess, answers);
      } else {
        match Operate(kind, kernel, radius, distance1, g)
        case Raised =>
        case NotDone =>
          FilletFromFacts(log, kind, kernel, radius, distance1, groups, i + 1, anySuccess, answers);
        case Done(result) =>
          if answers(log, Add(result, FilletName(kind) + " Result on Shape")) {
            FilletAcceptedFacts(log, kind, kernel, radius, distance1, groups, i, anySuccess, answers);
          } else {
            FilletRejectedFacts(log, kind, kernel, radius, distance1, groups, i, anySuccess, answers);
          }
      }
    }
  }

  /** `FilletFromFacts` for a group whose result the document accepted. */
  lemma {:induction false} FilletAcceptedFacts(log: seq<Call>, kind: FilletChamferType, kernel: FilletKernel, radius: real,
                                           distance1: real, groups: seq<EdgeGroup>, i: nat, anySuccess: bool,
                                           answers: Answers)
    requires i < |groups| && Attempted(groups[i])
    requires Operate(kind, kernel, radius, distance1, groups[i]).Done?
    requires answers(log, Add(Operate(kind, kernel, radius, distance1, groups[i]).value,
                          FilletName(kind) + " Result on Shape"))
    requires !RaisesFrom(kind, kernel, radius, distance1, groups, i) <==>
               !RaisesFrom(kind, kernel, radius, distance1, groups, i + 1)
    decreases |groups| - i, 0
    ensures var r := FilletFrom(log, kind, kernel, radius, distance1, groups, i, anySuccess, answers);
            && InsideThenEnd(r)
            && (r[|r| - 1] == Commit <==>
                  !RaisesFrom(kind, kernel, radius, distance1, groups, i) && (anySuccess || HasRemove(r)))
            && RemovesFollowAcceptedAdds(log, r, answers)
    ensures var r := FilletFrom(log, kind, kernel, radius, distance1, groups, i, anySuccess, answers);
            var result := Operate(kind, kernel, radius, distance1, groups[i]).value;
            && |r| > 4
            && r[..4] == [Add(result, FilletName(kind) + " Result on Shape"), Remove(groups[i].base.value),
                          Hide(groups[i].base.value), Show(result)]
            && (!RaisesFrom(kind, kernel, radius, distance1, groups, i) ==> r[|r| - 1] == Commit)
  {
    var g := groups[i];
    var result := Operate(kind, kernel, radius, distance1, g).value;
    var add := Add(result, FilletName(kind) + " Result on Shape");
    var step := [add, Remove(g.base.value), Hide(g.base.value), Show(result)];
    var rest := FilletFrom(log + step, kind, kernel, radius, distance1, groups, i + 1, true, answers);
    var r := FilletFrom(log, kind, kernel, radius, distance1, groups, i, anySuccess, answers);
    assert r == step + rest;
    assert r[..4] == step;
    assert && InsideThenEnd(r)
           && (r[|r| - 1] == Commit <==>
                 !RaisesFrom(kind, kernel, radius, distance1, groups, i) && (anySuccess || HasRemove(r)))
           && RemovesFollowAcceptedAdds(log, r, answers) by {
      FilletFromFacts(log + step, kind, kernel, radius, distance1, groups, i + 1, true, answers);
      FilletStep(log, step, rest, answers);
      assert step[1].Remove? && HasRemove(step);
    }
    assert HasRemove(r) by {
      assert r[1].Remove?;
    }
  }

  /** `FilletFromFacts` for a group whose result the document rejected. */
  lemma {:induction false} FilletRejectedFacts(log: seq<Call>, kind: FilletChamferType, kernel: FilletKernel, radius: real,
                                           distance1: real, groups: seq<EdgeGroup>, i: nat, anySuccess: bool,
                                           answers: Answers)
    requires i < |groups| && Attempted(groups[i])
    requires Operate(kind, kernel, radius, distance1, groups[i]).Done?
    requires !answers(log, Add(Operate(kind, kernel, radius, distance1, groups[i]).value,
                          FilletName(kind) + " Result on Shape"))
    requires !RaisesFrom(kind, kernel, radius, distance1, groups, i) <==>
               !RaisesFrom(kind, kernel, radius, distance1, groups, i + 1)
    decreases |groups| - i, 0
    ensures var r := FilletFrom(log, kind, kernel, radius, distance1, groups, i, anySuccess, answers);
            && InsideThenEnd(r)
            && (r[|r| - 1] == Commit <==>
                  !RaisesFrom(kind, kernel, radius, distance1, groups, i) && (anySuccess || HasRemove(r)))
            && RemovesFollowAcceptedAdds(log, r, answers)
  {
    var g := groups[i];
    var result := Operate(kind, kernel, radius, distance1, g).value;
    var add := Add(result, FilletName(kind) + " Result on Shape");
    var rest := FilletFrom(log + [add], kind, kernel, radius, distance1, groups, i + 1, anySuccess, answers);
    assert FilletFrom(log, kind, kernel, radius, distance1, groups, i, anySuccess, answers) == [add] + rest;
    FilletFromFacts(log + [add], kind, kernel, radius, distance1, groups, i + 1, anySuccess, answers);
    FilletStep(log, [add], rest, answers);
  }

  /** Prefixing the calls for one group to the rest keeps the rest's facts. */
  lemma FilletStep(log: seq<Call>, step: seq<Call>, rest: seq<Call>, answers: Answers)
    requires |step| > 0 && step[0].Add? && forall c :: c in step ==> IsEdit(c) || IsView(c)
    requires forall j :: 0 <= j < |step| && step[j].Remove? ==> j == 1 && answers(log, step[0])
    requires InsideThenEnd(rest) && RemovesFollowAcceptedAdds(log + step, rest, answers)
    ensures InsideThenEnd(step + rest)
    ensures (step + rest)[|step + rest| - 1] == rest[|rest| - 1]
    ensures HasRemove(step + rest) <==> HasRemove(step) || HasRemove(rest)
    ensures RemovesFollowAcceptedAdds(log, step + rest, answers)
  {
    var d := step + rest;
    assert d[..|d| - 1] == step + rest[..|rest| - 1];
    forall j | 0 <= j < |d| && d[j].Remove?
      ensures 0 < j && d[j - 1].Add? && answers(log + d[..j - 1], d[j - 1])
    {
      if j < |step| {
        assert d[..0] == [];
        assert log + d[..0] == log;
      } else {
        var k := j - |step|;
        assert d[j] == rest[k];
        assert d[..j - 1] == step + rest[..k - 1];
        assert log + d[..j - 1] == (log + step) + rest[..k - 1];
      }
    }
    if HasRemove(step) {
      var k :| 0 <= k < |step| && step[k].Remove?;
      assert d[k] == step[k];
    }
    if HasRemove(rest) {
      var k :| 0 <= k < |rest| && rest[k].Remove?;
      assert d[|step| + k] == rest[k];
    }
    if HasRemove(d) {
      var j :| 0 <= j < |d| && d[j].Remove?;
      if j >= |step| {
        assert rest[j - |step|].Remove?;
      } else {
        assert step[j].Remove?;
      }
    }
  }

  /** Prefixing the start keeps the rest's facts. */
  lemma FilletWrap(log: seq<Call>, name: string, rest: seq<Call>, answers: Answers)
    requires RemovesFollowAcceptedAdds(log + [Start(name)], rest, answers)
    ensures HasRemove([Start(name)] + rest) <==> HasRemove(rest)
    ensures RemovesFollowAcceptedAdds(log, [Start(name)] + rest, answers)
  {
    var d := [Start(name)] + rest;
    forall j | 0 <= j < |d| && d[j].Remove?
      ensures 0 < j && d[j - 1].Add? && answers(log + d[..j - 1], d[j - 1])
    {
      assert d[j] == rest[j - 1];
      assert d[j - 1] == rest[j - 2];
      assert d[..j - 1] == [Start(name)] + rest[..j - 2];
      assert log + d[..j - 1] == (log + [Start(name)]) + rest[..j - 2];
    }
    if HasRemove(rest) {
      var k :| 0 <= k < |rest| && rest[k].Remove?;
      assert d[k + 1] == rest[k];
    }
    if HasRemove(d) {
      var j :| 0 <= j < |d| && d[j].Remove?;
      assert rest[j - 1].Remove?;
    }
  }

  /** Some add in `d` was accepted by the document. */
  predicate HasAcceptedAdd(log: seq<Call>, d: seq<Call>, answers: Answers)
  {
    exists j :: 0 <= j < |d| && d[j].Add? && answers(log + d[..j], d[j])
  }

  /**
   * `removal` and `hiding` take out the base shape of some processed group
   * whose operation gave `result`. When two groups give the same result,
   * this does not say which group's base it is. `FilletAcceptedFacts`
   * states the exact step for the group that made the add.
   */
  predicate BaseOf(removal: Call, hiding: Call, result: ShapeId, kind: FilletChamferType, kernel: FilletKernel,
                   radius: real, distance1: real, groups: seq<EdgeGroup>)
  {
    exists k :: 0 <= k < |groups| && Attempted(groups[k])
                && Operate(kind, kernel, radius, distance1, groups[k]) == Done(result)
                && removal == Remove(groups[k].base.value) && hiding == Hide(groups[k].base.value)
  }

  /**
   * Every add the document accepted is directly followed by the removal of
   * the base shape it was computed from, the base leaving the viewer, and
   * the result being shown.
   */
  predicate AcceptedAddsReplaceBase(log: seq<Call>, d: seq<Call>, answers: Answers, kind: FilletChamferType,
                                    kernel: FilletKernel, radius: real, distance1: real, groups: seq<EdgeGroup>)
  {
    forall j :: 0 <= j < |d| && d[j].Add? && answers(log + d[..j], d[j]) ==>
      && j + 3 < |d|
      && BaseOf(d[j + 1], d[j + 2], d[j].shape, kind, kernel, radius, distance1, groups)
      && d[j + 3] == Show(d[j].shape)
  }

  /** The property holds for `step + rest` when it holds for each part. */
  lemma AcceptedAddsAppend(log: seq<Call>, step: seq<Call>, rest: seq<Call>, answers: Answers, kind: FilletChamferType,
                           kernel: FilletKernel, radius: real, distance1: real, groups: seq<EdgeGroup>)
    requires AcceptedAddsReplaceBase(log, step, answers, kind, kernel, radius, distance1, groups)
    requires AcceptedAddsReplaceBase(log + step, rest, answers, kind, kernel, radius, distance1, groups)
    ensures AcceptedAddsReplaceBase(log, step + rest, answers, kind, kernel, radius, distance1, groups)
  {
    var d := step + rest;
    forall j | 0 <= j < |d| && d[j].Add? && answers(log + d[..j], d[j])
      ensures && j + 3 < |d|
              && BaseOf(d[j + 1], d[j + 2], d[j].shape, kind, kernel, radius, distance1, groups)
              && d[j + 3] == Show(d[j].shape)
    {
      if j < |step| {
        assert d[..j] == step[..j] && d[j] == step[j];
        assert j + 3 < |step|;
        assert d[j + 1] == step[j + 1] && d[j + 2] == step[j + 2] && d[j + 3] == step[j + 3];
      } else {
        var k := j - |step|;
        assert d[..j] == step + rest[..k];
        assert log + d[..j] == (log + step) + rest[..k];
        assert d[j] == rest[k];
        assert d[j + 1] == rest[k + 1] && d[j + 2] == rest[k + 2] && d[j + 3] == rest[k + 3];
      }
    }
  }

  /**
   * In the calls for the groups from `i` on, every accepted result is
   * followed by the removal of its own group's base shape and its display.
   */
  lemma {:induction false} FilletFromReplaces(log: seq<Call>, kind: FilletChamferType, kernel: FilletKernel,
                                              radius: real, distance1: real, groups: seq<EdgeGroup>, i: nat,
                                              anySuccess: bool, answers: Answers)
    requires i <= |groups|
    decreases |groups| - i
    ensures AcceptedAddsReplaceBase(log, FilletFrom(log, kind, kernel, radius, distance1, groups, i, anySuccess, answers),
                                    answers, kind, kernel, radius, distance1, groups)
  {
    var r := FilletFrom(log, kind, kernel, radius, distance1, groups, i, anySuccess, answers);
    if i == |groups| {
      assert r == [Commit] || r == [Abort];
    } else {
      var g := groups[i];
      if !Attempted(g) {
        FilletFromReplaces(log, kind, kernel, radius, distance1, groups, i + 1, anySuccess, answers);
      } else {
        match Operate(kind, kernel, radius, distance1, g)
        case Raised =>
          assert r == [Abort];
        case NotDone =>
          FilletFromReplaces(log, kind, kernel, radius, distance1, groups, i + 1, anySuccess, answers);
        case Done(result) =>
          var add := Add(result, FilletName(kind) + " Result on Shape");
          if answers(log, add) {
            var step := [add, Remove(g.base.value), Hide(g.base.value), Show(result)];
            assert r == step + FilletFrom(log + step, kind, kernel, radius, distance1, groups, i + 1, true, answers);
            FilletFromReplaces(log + step, kind, kernel, radius, distance1, groups, i + 1, true, answers);
            assert BaseOf(step[1], step[2], result, kind, kernel, radius, distance1, groups) by {
              assert Attempted(groups[i]) && Operate(kind, kernel, radius, distance1, groups[i]) == Done(result);
            }
            assert step[..0] == [] && log + step[..0] == log;
            AcceptedAddsAppend(log, step, FilletFrom(log + step, kind, kernel, radius, distance1, groups, i + 1, true, answers),
                               answers, kind, kernel, radius, distance1, groups);
          } else {
            assert r == [add] + FilletFrom(log + [add], kind, kernel, radius, distance1, groups, i + 1, anySuccess, answers);
            FilletFromReplaces(log + [add], kind, kernel, radius, distance1, groups, i + 1, anySuccess, answers);
            assert [add][..0] == [] && log + [add][..0] == log;
            AcceptedAddsAppend(log, [add], FilletFrom(log + [add], kind, kernel, radius, distance1, groups, i + 1, anySuccess, answers),
                               answers, kind, kernel, radius, distance1, groups);
          }
      }
    }
  }

  /** When removals and accepted adds pair up, a removal occurs exactly when some add was accepted. */
  lemma AcceptedAddIffRemove(log: seq<Call>, d: seq<Call>, answers: Answers, kind: FilletChamferType,
                             kernel: FilletKernel, radius: real, distance1: real, groups: seq<EdgeGroup>)
    requires RemovesFollowAcceptedAdds(log, d, answers)
    requires AcceptedAddsReplaceBase(log, d, answers, kind, kernel, radius, distance1, groups)
    ensures HasRemove(d) <==> HasAcceptedAdd(log, d, answers)
  {
    if HasRemove(d) {
      var j :| 0 <= j < |d| && d[j].Remove?;
      assert d[j - 1].Add? && answers(log + d[..j - 1], d[j - 1]);
    }
    if HasAcceptedAdd(log, d, answers) {
      var j :| 0 <= j < |d| && d[j].Add? && answers(log + d[..j], d[j]);
      assert BaseOf(d[j + 1], d[j + 2], d[j].shape, kind, kernel, radius, distance1, groups);
      assert d[j + 1].Remove?;
    }
  }

  /**
   * The group loop and its closing call: one closing call, a commit exactly
   * when nothing raised and some result was accepted (here or before `i`);
   * every accepted result replaces its own group's base shape, and every
   * removal follows an accepted result.
   */
  lemma FilletFromCommits(log: seq<Call>, kind: FilletChamferType, kernel: FilletKernel, radius: real,
                          distance1: real, groups: seq<EdgeGroup>, i: nat, anySuccess: bool, answers: Answers)
    requires i <= |groups|
    ensures var r := FilletFrom(log, kind, kernel, radius, distance1, groups, i, anySuccess, answers);
            && InsideThenEnd(r)
            && (r[|r| - 1] == Commit <==>
                  !RaisesFrom(kind, kernel, radius, distance1, groups, i) && (anySuccess || HasAcceptedAdd(log, r, answers)))
            && RemovesFollowAcceptedAdds(log, r, answers)
            && AcceptedAddsReplaceBase(log, r, answers, kind, kernel, radius, distance1, groups)
  {
    var r := FilletFrom(log, kind, kernel, radius, distance1, groups, i, anySuccess, answers);
    FilletFromFacts(log, kind, kernel, radius, distance1, groups, i, anySuccess, answers);
    FilletFromReplaces(log, kind, kernel, radius, distance1, groups, i, anySuccess, answers);
    AcceptedAddIffRemove(log, r, answers, kind, kernel, radius, distance1, groups);
  }

  /** The facts `FilletSession` states, for the start followed by the group loop. */
  lemma FilletSessionFacts(log: seq<Call>, kind: FilletChamferType, groups: seq<EdgeGroup>, kernel: FilletKernel,
                           radius: real, distance1: real, answers: Answers)
    ensures var name := FilletName(kind);
            var d := [Start(name)] + FilletFrom(log + [Start(name)], kind, kernel, radius, distance1, groups, 0, false, answers);
            && OneTransaction(d) && (Committed(d) <==> d[|d| - 1] == Commit)
            && (Committed(d) <==> !RaisesFrom(kind, kernel, radius, distance1, groups, 0) && HasAcceptedAdd(log, d, answers))
            && RemovesFollowAcceptedAdds(log, d, answers)
            && AcceptedAddsReplaceBase(log, d, answers, kind, kernel, radius, distance1, groups)
  {
    var name := FilletName(kind);
    var rest := FilletFrom(log + [Start(name)], kind, kernel, radius, distance1, groups, 0, false, answers);
    var d := [Start(name)] + rest;
    FilletFromFacts(log + [Start(name)], kind, kernel, radius, distance1, groups, 0, false, answers);
    FilletFromReplaces(log + [Start(name)], kind, kernel, radius, distance1, groups, 0, false, answers);
    StartThen(name, rest);
    assert d[|d| - 1] == rest[|rest| - 1];
    FilletWrap(log, name, rest, answers);
    AcceptedAddsAppend(log, [Start(name)], rest, answers, kind, kernel, radius, distance1, groups);
    AcceptedAddIffRemove(log, d, answers, kind, kernel, radius, distance1, groups);
  }

  /**
   * The fillet/chamfer handler: no requested edges, or no edges selected in
   * the viewer, makes no calls. Otherwise one transaction, committed exactly
   * when no operation raised and some result was accepted; every accepted
   * result is followed by the removal of its own base shape and its display,
   * and every removal follows an accepted result.
   */
  function FilletSession(log: seq<Call>, kind: FilletChamferType, edges: seq<ShapeId>, groups: seq<EdgeGroup>,
                         kernel: FilletKernel, radius: real, distance1: real, answers: Answers): (d: seq<Call>)
    ensures d == [] <==> edges == [] || groups == []
    ensures d != [] ==> OneTransaction(d) && d[0] == Start(FilletName(kind))
    ensures d != [] ==> (Committed(d) <==> d[|d| - 1] == Commit)
    ensures Committed(d) <==>
              d != [] && !RaisesFrom(kind, kernel, radius, distance1, groups, 0) && HasAcceptedAdd(log, d, answers)
    ensures RemovesFollowAcceptedAdds(log, d, answers)
    ensures AcceptedAddsReplaceBase(log, d, answers, kind, kernel, radius, distance1, groups)
  {
    if edges == [] || groups == [] then []
    else
      var name := FilletName(kind);
      FilletSessionFacts(log, kind, groups, kernel, radius, distance1, answers);
      [Start(name)] + FilletFrom(log + [Start(name)], kind, kernel, radius, distance1, groups, 0, false, answers)
  }

  // ---------------------------------------------------------------------------
  // Transform
  // ---------------------------------------------------------------------------

  function Shorter(a: nat, b: nat): nat
  {
    if a < b then a else b
  }

  /**
   * What replacing the pairs from index `i` up to the shorter list asks
   * for: for each pair, in order, the replacement, then the original hidden
   * and the replacement shown.
   */
  function PairCalls(originals: seq<ShapeId>, transformed: seq<ShapeId>, i: nat): (p: seq<Call>)
    requires i <= Shorter(|originals|, |transformed|)
    decreases Shorter(|originals|, |transformed|) - i
    ensures |p| == 3 * (Shorter(|originals|, |transformed|) - i)
    ensures forall c :: c in p ==> IsEdit(c) || IsView(c)
  {
    if i == Shorter(|originals|, |transformed|) then []
    else [Replace(originals[i], transformed[i]), Hide(originals[i]), Show(transformed[i])]
         + PairCalls(originals, transformed, i + 1)
  }

  /** The pair calls end with a view update, never with a replacement. */
  lemma {:induction false} PairCallsEndWithShow(originals: seq<ShapeId>, transformed: seq<ShapeId>, i: nat)
    requires i < Shorter(|originals|, |transformed|)
    ensures var p := PairCalls(originals, transformed, i); p[|p| - 1].Show?
    decreases Shorter(|originals|, |transformed|) - i
  {
    if i + 1 < Shorter(|originals|, |transformed|) {
      PairCallsEndWithShow(originals, transformed, i + 1);
    }
  }

  /** Every pair from index `i` on is replaced by the pair calls. */
  lemma {:induction false} PairCallsReplaceEach(originals: seq<ShapeId>, transformed: seq<ShapeId>, i: nat, k: nat)
    requires i <= k < Shorter(|originals|, |transformed|)
    ensures Replace(originals[k], transformed[k]) in PairCalls(originals, transformed, i)
    decreases k - i
  {
    if i < k {
      PairCallsReplaceEach(originals, transformed, i + 1, k);
    }
  }

  /** Every replacement except one just before the closing call was accepted. */
  predicate ReplacesAccepted(log: seq<Call>, r: seq<Call>, answers: Answers)
  {
    forall j :: 0 <= j < |r| - 2 && r[j].Replace? ==> answers(log + r[..j], r[j])
  }

  /** An abort closes only right after a rejected replacement. */
  predicate AbortsOnRejection(log: seq<Call>, r: seq<Call>, answers: Answers)
    requires |r| >= 1
  {
    r[|r| - 1] == Abort ==> |r| >= 2 && r[|r| - 2].Replace? && !answers(log + r[..|r| - 2], r[|r| - 2])
  }

  /**
   * The pairs from index `i` up to the shorter list, and the closing call:
   * each accepted replacement updates the viewer and the tree; the first
   * rejected one aborts; after the last pair the transaction commits.
   */
  function ReplaceFrom(log: seq<Call>, originals: seq<ShapeId>, transformed: seq<ShapeId>, i: nat,
                       answers: Answers): (r: seq<Call>)
    requires i <= Shorter(|originals|, |transformed|)
    decreases Shorter(|originals|, |transformed|) - i
    ensures |r| >= 1
  {
    if i == Shorter(|originals|, |transformed|) then [Commit]
    else
      var c := Replace(originals[i], transformed[i]);
      if answers(log, c) then
        var step := [c, Hide(originals[i]), Show(transformed[i])];
        step + ReplaceFrom(log + step, originals, transformed, i + 1, answers)
      else
        [c, Abort]
  }

  /**
   * The calls before the closing one are a prefix of the pair calls, all of
   * them exactly when it commits; an abort follows a rejected replacement,
   * and every earlier replacement was accepted.
   */
  lemma {:induction false} ReplaceFromFacts(log: seq<Call>, originals: seq<ShapeId>, transformed: seq<ShapeId>, i: nat,
                                            answers: Answers)
    requires i <= Shorter(|originals|, |transformed|)
    decreases Shorter(|originals|, |transformed|) - i
    ensures var r := ReplaceFrom(log, originals, transformed, i, answers);
            && IsEnd(r[|r| - 1])
            && r[..|r| - 1] <= PairCalls(originals, transformed, i)
            && (r[|r| - 1] == Commit <==> r[..|r| - 1] == PairCalls(originals, transformed, i))
            && ReplacesAccepted(log, r, answers) && AbortsOnRejection(log, r, answers)
  {
    var r := ReplaceFrom(log, originals, transformed, i, answers);
    if i == Shorter(|originals|, |transformed|) {
      assert r[..0] == [];
    } else {
      var c := Replace(originals[i], transformed[i]);
      if answers(log, c) {
        var step := [c, Hide(originals[i]), Show(transformed[i])];
        ReplaceFromFacts(log + step, originals, transformed, i + 1, answers);
        ReplaceShift(log, step, ReplaceFrom(log + step, originals, transformed, i + 1, answers),
                     PairCalls(originals, transformed, i + 1), answers);
      } else {
        assert r[..0] == [] && log + r[..0] == log;
        assert r[..1] == [c];
      }
    }
  }

  /** Prefixing the calls for one accepted pair keeps the rest's facts. */
  lemma ReplaceShift(log: seq<Call>, step: seq<Call>, rest: seq<Call>, pairs: seq<Call>, answers: Answers)
    requires |step| == 3 && step[0].Replace? && answers(log, step[0]) && !step[1].Replace? && !step[2].Replace?
    requires |rest| >= 1 && IsEnd(rest[|rest| - 1])
    requires rest[..|rest| - 1] <= pairs
    requires rest[|rest| - 1] == Commit <==> rest[..|rest| - 1] == pairs
    requires ReplacesAccepted(log + step, rest, answers) && AbortsOnRejection(log + step, rest, answers)
    ensures var r := step + rest; |r| >= 1 && IsEnd(r[|r| - 1])
    ensures var r := step + rest; r[..|r| - 1] <= step + pairs
    ensures var r := step + rest; r[|r| - 1] == Commit <==> r[..|r| - 1] == step + pairs
    ensures ReplacesAccepted(log, step + rest, answers) && AbortsOnRejection(log, step + rest, answers)
  {
    var r := step + rest;
    assert r[..|r| - 1] == step + rest[..|rest| - 1];
    if r[..|r| - 1] == step + pairs {
      assert rest[..|rest| - 1] == (step + pairs)[3..];
    }
    forall j | 0 <= j < |r| - 2 && r[j].Replace?
      ensures answers(log + r[..j], r[j])
    {
      if j == 0 {
        assert r[..0] == [] && log + r[..0] == log;
      } else {
        assert j >= 3 && r[j] == rest[j - 3];
        assert log + r[..j] == (log + step) + rest[..j - 3];
      }
    }
    if r[|r| - 1] == Abort {
      assert r[|r| - 2] == rest[|rest| - 2];
      assert log + r[..|r| - 2] == (log + step) + rest[..|rest| - 2];
    }
  }

  /**
   * The transform handler after the preview is reset: a transform command
   * that fails makes no calls; one that raises reaches the handler's catch,
   * which aborts with no transaction open; otherwise one transaction that
   * commits exactly when every replacement it asked for was accepted, and
   * that then replaced every pair up to the shorter list, in order.
   */
  function TransformSession(log: seq<Call>, executed: Built<seq<ShapeId>>, originals: seq<ShapeId>,
                            answers: Answers): (d: seq<Call>)
    ensures executed.NotDone? <==> d == []
    ensures executed.Raised? ==> d == [Abort]
  {
    match executed
    case NotDone => []
    case Raised => [Abort]
    case Done(transformed) =>
      [Start("Transform Objects")] + ReplaceFrom(log + [Start("Transform Objects")], originals, transformed, 0, answers)
  }

  /**
   * A raising command closes a transaction that was never opened; a
   * successful one makes one transaction, committed exactly when its last
   * call is a commit.
   */
  lemma TransformTransaction(log: seq<Call>, executed: Built<seq<ShapeId>>, originals: seq<ShapeId>, answers: Answers)
    ensures var d := TransformSession(log, executed, originals, answers);
            executed.Raised? ==> Run(Idle, d) == Broken
    ensures var d := TransformSession(log, executed, originals, answers);
            executed.Done? ==> && OneTransaction(d) && d[0] == Start("Transform Objects")
                               && (Committed(d) <==> d[|d| - 1] == Commit)
  {
    match executed
    case NotDone =>
    case Raised =>
      assert [Abort][..0] == [];
    case Done(transformed) =>
      var rest := ReplaceFrom(log + [Start("Transform Objects")], originals, transformed, 0, answers);
      ReplaceFromFacts(log + [Start("Transform Objects")], originals, transformed, 0, answers);
      TransformBracket(originals, transformed, rest);
  }

  /**
   * A successful command's transaction commits exactly when every
   * replacement it asked for was accepted, and then it replaced every pair
   * up to the shorter list, in order.
   */
  lemma TransformAcceptance(log: seq<Call>, transformed: seq<ShapeId>, originals: seq<ShapeId>, answers: Answers)
    ensures var d := TransformSession(log, Done(transformed), originals, answers);
            Committed(d) <==> forall j :: 0 < j < |d| && d[j].Replace? ==> answers(log + d[..j], d[j])
    ensures var d := TransformSession(log, Done(transformed), originals, answers);
            Committed(d) ==> d == [Start("Transform Objects")] + PairCalls(originals, transformed, 0) + [Commit]
  {
    var rest := ReplaceFrom(log + [Start("Transform Objects")], originals, transformed, 0, answers);
    ReplaceFromFacts(log + [Start("Transform Objects")], originals, transformed, 0, answers);
    TransformWrap(log, originals, transformed, rest, answers);
  }

  /** The transform transaction's facts, from those of the calls after its start. */
  lemma TransformWrap(log: seq<Call>, originals: seq<ShapeId>, transformed: seq<ShapeId>, rest: seq<Call>,
                      answers: Answers)
    requires |rest| >= 1 && IsEnd(rest[|rest| - 1])
    requires rest[..|rest| - 1] <= PairCalls(originals, transformed, 0)
    requires rest[|rest| - 1] == Commit <==> rest[..|rest| - 1] == PairCalls(originals, transformed, 0)
    requires ReplacesAccepted(log + [Start("Transform Objects")], rest, answers)
    requires AbortsOnRejection(log + [Start("Transform Objects")], rest, answers)
    ensures var d := [Start("Transform Objects")] + rest;
            && OneTransaction(d)
            && (Committed(d) <==> d[|d| - 1] == Commit)
            && (Committed(d) ==> d == [Start("Transform Objects")] + PairCalls(originals, transformed, 0) + [Commit])
    ensures var d := [Start("Transform Objects")] + rest;
            (Committed(d) <==> forall j :: 0 < j < |d| && d[j].Replace? ==> answers(log + d[..j], d[j]))
  {
    TransformBracket(originals, transformed, rest);
    TransformAccepts(log, originals, transformed, rest, answers);
  }

  lemma TransformBracket(originals: seq<ShapeId>, transformed: seq<ShapeId>, rest: seq<Call>)
    requires |rest| >= 1 && IsEnd(rest[|rest| - 1])
    requires rest[..|rest| - 1] <= PairCalls(originals, transformed, 0)
    requires rest[|rest| - 1] == Commit <==> rest[..|rest| - 1] == PairCalls(originals, transformed, 0)
    ensures var d := [Start("Transform Objects")] + rest;
            && OneTransaction(d)
            && (Committed(d) <==> d[|d| - 1] == Commit)
            && (Committed(d) ==> d == [Start("Transform Objects")] + PairCalls(originals, transformed, 0) + [Commit])
  {
    var pairs := PairCalls(originals, transformed, 0);
    forall c | c in rest[..|rest| - 1]
      ensures IsEdit(c) || IsView(c)
    {
      assert c in pairs;
    }
    StartThen("Transform Objects", rest);
    assert rest == rest[..|rest| - 1] + [rest[|rest| - 1]];
  }

  lemma TransformAccepts(log: seq<Call>, originals: seq<ShapeId>, transformed: seq<ShapeId>, rest: seq<Call>,
                         answers: Answers)
    requires |rest| >= 1 && IsEnd(rest[|rest| - 1])
    requires rest[|rest| - 1] == Commit ==> rest[..|rest| - 1] == PairCalls(originals, transformed, 0)
    requires ReplacesAccepted(log + [Start("Transform Objects")], rest, answers)
    requires AbortsOnRejection(log + [Start("Transform Objects")], rest, answers)
    ensures var d := [Start("Transform Objects")] + rest;
            (rest[|rest| - 1] == Commit <==> forall j :: 0 < j < |d| && d[j].Replace? ==> answers(log + d[..j], d[j]))
  {
    var d := [Start("Transform Objects")] + rest;
    if rest[|rest| - 1] == Commit {
      forall j | 0 < j < |d| && d[j].Replace?
        ensures answers(log + d[..j], d[j])
      {
        assert d[j] == rest[j - 1];
        assert log + d[..j] == (log + [Start("Transform Objects")]) + rest[..j - 1];
        if j - 1 == |rest| - 2 {
          PairCallsEndWithShow(originals, transformed, 0);
        }
      }
    } else {
      var j := |d| - 2;
      assert d[j] == rest[|rest| - 2];
      assert log + d[..j] == (log + [Start("Transform Objects")]) + rest[..|rest| - 2];
    }
  }

  /** A committed transform replaced every pair up to the shorter list. */
  lemma TransformReplacesEveryPair(log: seq<Call>, transformed: seq<ShapeId>, originals: seq<ShapeId>,
                                   answers: Answers, k: nat)
    requires Committed(TransformSession(log, Done(transformed), originals, answers))
    requires k < Shorter(|originals|, |transformed|)
    ensures Replace(originals[k], transformed[k]) in TransformSession(log, Done(transformed), originals, answers)
  {
    TransformAcceptance(log, transformed, originals, answers);
    PairCallsReplaceEach(originals, transformed, 0, k);
  }


  /** The preview reset: each present preview shape is removed from the viewer, in order. */
  function PreviewHides(preview: seq<Option<ShapeId>>): seq<Call>
  {
    if preview == [] then []
    else
      var last := preview[|preview| - 1];
      PreviewHides(preview[..|preview| - 1]) + (if last.Some? then [Hide(last.value)] else [])
  }

  /** The reset only hides, and it hides exactly the present preview shapes. */
  lemma {:induction false} PreviewHidesExactly(preview: seq<Option<ShapeId>>)
    ensures forall c :: c in PreviewHides(preview) ==> c.Hide?
    ensures forall s: ShapeId :: Hide(s) in PreviewHides(preview) <==> Some(s) in preview
    decreases |preview|
  {
    if preview != [] {
      var init := preview[..|preview| - 1];
      PreviewHidesExactly(init);
      assert preview == init + [preview[|preview| - 1]];
    }
  }
}
