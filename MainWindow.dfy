/**
 * The main window's edit handlers. The window keeps the calls it has made
 * on the document (with viewer and tree updates as view events), the last
 * completed sketch and the extrude action's enabled flag, the transform
 * preview, the document-modified flag and the tabs. Every handler appends
 * exactly the calls its `EditSessions` function describes.
 */
module Window {
  import opened Geometry
  import opened ShapeFactory
  import opened Document
  import opened Extrude
  import opened Sketching
  import opened EditSessions

  /** A tab holds a 3D viewer or some other widget. */
  datatype Tab = ViewerTab | OtherWidget

  /** The values a primitive's dialog returns when accepted. */
  datatype BoxInput = BoxInput(width: real, height: real, depth: real)
  datatype CylinderInput = CylinderInput(radius: real, height: real)
  datatype TorusInput = TorusInput(majorRadius: real, minorRadius: real)

  class MainWindow {
    /** Whether the window has a current viewer. */
    const viewerPresent: bool
    /** The current viewer's sketch session. */
    const sketchMode: SketchMode
    /** The document's replies. */
    const answers: Answers

    /** Every call made on the document so far, with the view events between them. */
    var calls: seq<Call>
    var documentModified: bool
    /** The sketch kept for extrusion: `None` is a null sketch pointer. */
    var lastCompletedSketch: Option<seq<SketchElement>>
    var extrudeEnabled: bool
    var previewActive: bool
    /** The preview shapes on display; `None` is a null shape pointer. */
    var previewShapes: seq<Option<ShapeId>>
    var tabs: seq<Tab>

    /** At least one tab is open; no preview is kept while none is active; the sketch session is consistent. */
    ghost predicate Valid()
      reads this, sketchMode, sketchMode.rectangleTool, sketchMode.lineTool
    {
      && |tabs| >= 1
      && (!previewActive ==> previewShapes == [])
      && sketchMode.Valid()
    }

    constructor (viewerPresent: bool, answers: Answers)
      ensures Valid()
      ensures this.viewerPresent == viewerPresent && this.answers == answers
      ensures calls == [] && !documentModified && lastCompletedSketch == None && !extrudeEnabled
      ensures !previewActive && tabs == [ViewerTab]
      ensures !sketchMode.isActive
    {
      this.viewerPresent := viewerPresent;
      this.answers := answers;
      sketchMode := new SketchMode(viewerPresent);
      calls := [];
      documentModified := false;
      lastCompletedSketch := None;
      extrudeEnabled := false;
      previewActive := false;
      previewShapes := [];
      tabs := [ViewerTab];
    }

    /** A call on the document; the reply is the document's answer given every earlier call. */
    method Send(c: Call) returns (ok: bool)
      modifies this`calls
      ensures calls == old(calls) + [c] && ok == answers(old(calls), c)
    {
      ok := answers(calls, c);
      calls := calls + [c];
    }

    /** A viewer and document-tree update. */
    method Record(c: Call)
      requires IsView(c)
      modifies this`calls
      ensures calls == old(calls) + [c]
    {
      calls := calls + [c];
    }

    /** The part the primitive handlers share, from the start of the transaction on. */
    method AddShapeTransaction(name: string, title: string, shape: Option<ShapeId>)
      modifies this`calls, this`documentModified
      ensures calls == old(calls) + AddShapeSession(old(calls), name, title, shape, answers)
      ensures documentModified == (old(documentModified) || Committed(AddShapeSession(old(calls), name, title, shape, answers)))
      ensures Run(Idle, old(calls)) == Idle ==> Run(Idle, calls) == Idle
    {
      ghost var log := calls;
      ghost var d := AddShapeSession(log, name, title, shape, answers);
      var _ := Send(Start(name));
      if shape.Some? {
        var added := Send(Add(shape.value, title));
        if added {
          Record(Show(shape.value));
          var _ := Send(Commit);
          documentModified := true;
        } else {
          var _ := Send(Abort);
        }
      } else {
        var _ := Send(Abort);
      }
      assert calls == log + d;
      assert d[|d| - 1] == calls[|calls| - 1];
      if Run(Idle, log) == Idle {
        TransactionKeepsIdle(log, d);
      }
    }

    /** A cancelled dialog does nothing; otherwise the box transaction, with the factory's exception caught. */
    method OnCreateBox(dialog: Option<BoxInput>, makeBox: (real, real, real) -> Built<ShapeId>)
      modifies this`calls, this`documentModified
      ensures dialog.None? ==> calls == old(calls) && documentModified == old(documentModified)
      ensures dialog.Some? ==>
                var d := BoxSession(old(calls), dialog.value.width, dialog.value.height, dialog.value.depth, makeBox, answers);
                calls == old(calls) + d && documentModified == (old(documentModified) || Committed(d))
      ensures Run(Idle, old(calls)) == Idle ==> Run(Idle, calls) == Idle
    {
      if dialog.None? {
        return;
      }
      var shape := CreateBox(dialog.value.width, dialog.value.height, dialog.value.depth, makeBox);
      AddShapeTransaction("Create Box", "Box", Produced(shape));
    }

    /** A cancelled dialog does nothing; otherwise the cylinder transaction at the origin. */
    method OnCreateCylinder(dialog: Option<CylinderInput>, makeCylinder: (Point3, real, real) -> Built<ShapeId>)
      modifies this`calls, this`documentModified
      ensures dialog.None? ==> calls == old(calls) && documentModified == old(documentModified)
      ensures dialog.Some? ==>
                var d := CylinderSession(old(calls), dialog.value.radius, dialog.value.height, makeCylinder, answers);
                calls == old(calls) + d && documentModified == (old(documentModified) || Committed(d))
      ensures Run(Idle, old(calls)) == Idle ==> Run(Idle, calls) == Idle
    {
      if dialog.None? {
        return;
      }
      var shape := CreateCylinderAtOrigin(dialog.value.radius, dialog.value.height, makeCylinder);
      AddShapeTransaction("Create Cylinder", "Cylinder", Produced(shape));
    }

    /** A cancelled dialog does nothing; otherwise the sphere transaction at the origin. */
    method OnCreateSphere(dialog: Option<real>, makeSphere: (Point3, real) -> Built<ShapeId>)
      modifies this`calls, this`documentModified
      ensures dialog.None? ==> calls == old(calls) && documentModified == old(documentModified)
      ensures dialog.Some? ==>
                var d := SphereSession(old(calls), dialog.value, makeSphere, answers);
                calls == old(calls) + d && documentModified == (old(documentModified) || Committed(d))
      ensures Run(Idle, old(calls)) == Idle ==> Run(Idle, calls) == Idle
    {
      if dialog.None? {
        return;
      }
      var shape := CreateSphereAtOrigin(dialog.value, makeSphere);
      AddShapeTransaction("Create Sphere", "Sphere", Produced(shape));
    }

    /**
     * A cancelled dialog does nothing; otherwise the torus transaction: the
     * factory's exception and a rejected add both end in the catch, which aborts.
     */
    method OnCreateTorus(dialog: Option<TorusInput>, makeTorus: (Point3, real, real) -> Built<ShapeId>)
      modifies this`calls, this`documentModified
      ensures dialog.None? ==> calls == old(calls) && documentModified == old(documentModified)
      ensures dialog.Some? ==>
                var d := TorusSession(old(calls), dialog.value.majorRadius, dialog.value.minorRadius, makeTorus, answers);
                calls == old(calls) + d && documentModified == (old(documentModified) || Committed(d))
      ensures Run(Idle, old(calls)) == Idle ==> Run(Idle, calls) == Idle
    {
      if dialog.None? {
        return;
      }
      var shape := CreateTorus(Origin, dialog.value.majorRadius, dialog.value.minorRadius, makeTorus);
      AddShapeTransaction("Create Torus", "Torus", Produced(shape));
    }

    /**
     * Extrudes the kept sketch by the distance the dialog returns, through a
     * fresh default `ExtrudeFeature`. The sketch is used up, and the action
     * disabled, exactly when the document accepts the solid.
     */
    method OnCreateExtrude(input: Option<real>, kernel: ExtrudeKernel, isValid: ShapeId -> bool)
      modifies this`calls, this`lastCompletedSketch, this`extrudeEnabled
      ensures var h := ExtrudeSession(old(calls), old(lastCompletedSketch), input, kernel, isValid, answers);
              && calls == old(calls) + h.calls
              && (h.consumed ==> lastCompletedSketch == None && !extrudeEnabled)
              && (!h.consumed ==> lastCompletedSketch == old(lastCompletedSketch) && extrudeEnabled == old(extrudeEnabled))
      ensures Run(Idle, old(calls)) == Idle ==> Run(Idle, calls) == Idle
    {
      if lastCompletedSketch.None? || lastCompletedSketch.value == [] {
        return;
      }
      if input.None? {
        return;
      }
      var shape := ExtrudeWithFeature(lastCompletedSketch.value, input.value, kernel);
      if shape.Some? && isValid(shape.value) {
        ghost var log := calls;
        var added := CommitExtrusion(shape.value);
        if added {
          extrudeEnabled := false;
          lastCompletedSketch := None;
        }
        if Run(Idle, log) == Idle {
          TransactionKeepsIdle(log, ExtrudeCommit(log, shape.value, answers));
        }
      }
    }

    /** The extrusion's transaction; the result tells whether the document accepted the shape. */
    method CommitExtrusion(shape: ShapeId) returns (added: bool)
      modifies this`calls
      ensures calls == old(calls) + ExtrudeCommit(old(calls), shape, answers)
      ensures added == answers(old(calls) + [Start("Extrude Sketch")], Add(shape, "Extrusion"))
    {
      var _ := Send(Start("Extrude Sketch"));
      added := Send(Add(shape, "Extrusion"));
      if added {
        var _ := Send(Commit);
        Record(Show(shape));
      } else {
        var _ := Send(Abort);
      }
    }

    /** What a fresh default `ExtrudeFeature`, given the sketch and the distance, creates. */
    method ExtrudeWithFeature(sketch: seq<SketchElement>, distance: real, kernel: ExtrudeKernel)
      returns (shape: Option<ShapeId>)
      requires sketch != []
      ensures shape == ExtrudeShape(sketch, distance, kernel)
    {
      var feature := new ExtrudeFeature();
      feature.SetSketch(Some(sketch));
      feature.SetDistance(distance);
      assert feature.GetDirection() == Vec3(0.0, 0.0, 1.0);
      shape := feature.CreateShape(kernel);
    }

    /**
     * The boolean handler: checks the selection, folds the operation over the
     * operands (stopping at a null result), then adds the result and removes
     * every target and tool, or aborts.
     */
    method OnBooleanOperationRequested(op: BooleanOperationType, targets: seq<ShapeId>, tools: seq<ShapeId>,
                                       kernel: BooleanKernel)
      modifies this`calls, this`documentModified
      ensures var d := BooleanSession(old(calls), op, targets, tools, kernel, answers);
              calls == old(calls) + d && documentModified == (old(documentModified) || Committed(d))
      ensures Run(Idle, old(calls)) == Idle ==> Run(Idle, calls) == Idle
    {
      if !BooleanInputAccepted(op, targets, tools) {
        return;
      }
      ghost var log := calls;
      var name := OperationName(op);
      var _ := Send(Start(name));
      var result := ComputeBoolean(op, targets, tools, kernel);
      FinishBoolean(name, result, targets, tools);
      ghost var d := [Start(name)] + BooleanFinish(log + [Start(name)], name, result, targets, tools, answers);
      assert d == BooleanSession(log, op, targets, tools, kernel, answers);
      assert calls == log + d;
      assert OneTransaction(d) && (Committed(d) <==> calls[|calls| - 1] == Commit) by {
        BooleanBracketed(log + [Start(name)], name, result, targets, tools, answers);
        assert d[|d| - 1] == calls[|calls| - 1];
      }
      if Run(Idle, log) == Idle {
        TransactionKeepsIdle(log, d);
      }
    }

    /** After the start, the calls `BooleanFinish` describes. */
    method FinishBoolean(name: string, result: Built<ShapeId>, targets: seq<ShapeId>, tools: seq<ShapeId>)
      modifies this`calls, this`documentModified
      ensures calls == old(calls) + BooleanFinish(old(calls), name, result, targets, tools, answers)
      ensures documentModified == (old(documentModified) || calls[|calls| - 1] == Commit)
    {
      if result.Done? {
        ghost var start := calls;
        var added := Send(Add(result.value, name + " Result"));
        if added {
          Record(Show(result.value));
          RemoveInputsAndCommit(targets, tools);
          documentModified := true;
          assert calls == start + ([Add(result.value, name + " Result"), Show(result.value)]
                                   + Removals(targets) + Removals(tools) + [Commit]);
        } else {
          var _ := Send(Abort);
        }
      } else {
        var _ := Send(Abort);
      }
    }

    /** The accepted result's tail: every target, then every tool, removed; then the commit. */
    method RemoveInputsAndCommit(targets: seq<ShapeId>, tools: seq<ShapeId>)
      modifies this`calls
      ensures calls == old(calls) + (Removals(targets) + Removals(tools) + [Commit])
    {
      RemoveAll(targets);
      RemoveAll(tools);
      var _ := Send(Commit);
    }

    /** The result the boolean handler computes, operand by operand. */
    method ComputeBoolean(op: BooleanOperationType, targets: seq<ShapeId>, tools: seq<ShapeId>, kernel: BooleanKernel)
      returns (result: Built<ShapeId>)
      requires BooleanInputAccepted(op, targets, tools)
      ensures result == BooleanResult(op, targets, tools, kernel)
    {
      if op == Union {
        return kernel.union(targets + tools);
      }
      var combine := if op == Intersection then kernel.intersection else kernel.difference;
      result := Done(targets[0]);
      if op == Intersection {
        result := FoldLoop(result, targets[1..], combine);
      }
      result := FoldLoop(result, tools, combine);
    }

    /** Combines each operand in turn into a present result; a null or raised result is kept. */
    method FoldLoop(acc: Built<ShapeId>, operands: seq<ShapeId>, combine: (ShapeId, ShapeId) -> Built<ShapeId>)
      returns (result: Built<ShapeId>)
      ensures result == Fold(acc, operands, combine)
    {
      result := acc;
      var i := 0;
      while i < |operands|
        invariant 0 <= i <= |operands|
        invariant result == Fold(acc, operands[..i], combine)
      {
        assert operands[..i + 1][..i] == operands[..i];
        if result.Done? {
          result := combine(result.value, operands[i]);
        }
        i := i + 1;
      }
      assert operands[..|operands|] == operands;
    }

    /** For each shape: removed from the document, then from the viewer and the tree. */
    method RemoveAll(shapes: seq<ShapeId>)
      modifies this`calls
      ensures calls == old(calls) + Removals(shapes)
    {
      var i := 0;
      while i < |shapes|
        invariant 0 <= i <= |shapes|
        invariant calls == old(calls) + Removals(shapes[..i])
      {
        assert shapes[..i + 1][..i] == shapes[..i];
        var _ := Send(Remove(shapes[i]));
        Record(Hide(shapes[i]));
        i := i + 1;
      }
      assert shapes[..|shapes|] == shapes;
    }

    /**
     * The fillet/chamfer handler: for each selected shape with edges, in
     * order, the kernel operation; an accepted result replaces its base
     * shape; an exception aborts; at the end, commit if any result was
     * accepted. `distance2` plays no part.
     */
    method OnFilletChamferOperationRequested(kind: FilletChamferType, edges: seq<ShapeId>, groups: seq<EdgeGroup>,
                                             kernel: FilletKernel, radius: real, distance1: real, distance2: real)
      modifies this`calls, this`documentModified
      ensures var d := FilletSession(old(calls), kind, edges, groups, kernel, radius, distance1, answers);
              calls == old(calls) + d && documentModified == (old(documentModified) || Committed(d))
      ensures Run(Idle, old(calls)) == Idle ==> Run(Idle, calls) == Idle
    {
      if edges == [] || groups == [] {
        return;
      }
      ghost var log := calls;
      var name := FilletName(kind);
      var _ := Send(Start(name));
      FilletGroups(kind, groups, kernel, radius, distance1);
      ghost var d := FilletSession(log, kind, edges, groups, kernel, radius, distance1, answers);
      assert calls == log + d;
      assert d[|d| - 1] == calls[|calls| - 1];
      if Run(Idle, log) == Idle {
        TransactionKeepsIdle(log, d);
      }
    }

    /**
     * The groups in order, then the closing call: an accepted result
     * replaces its base shape, an exception aborts at once, and the
     * transaction commits when some result was accepted.
     */
    method FilletGroups(kind: FilletChamferType, groups: seq<EdgeGroup>, kernel: FilletKernel, radius: real,
                        distance1: real)
      modifies this`calls, this`documentModified
      ensures calls == old(calls) + FilletFrom(old(calls), kind, kernel, radius, distance1, groups, 0, false, answers)
      ensures documentModified == (old(documentModified) || calls[|calls| - 1] == Commit)
    {
      var anySuccess := false;
      var i := 0;
      while i < |groups|
        invariant 0 <= i <= |groups|
        invariant old(calls) + FilletFrom(old(calls), kind, kernel, radius, distance1, groups, 0, false, answers)
                  == calls + FilletFrom(calls, kind, kernel, radius, distance1, groups, i, anySuccess, answers)
        invariant documentModified == old(documentModified)
      {
        var raised;
        raised, anySuccess := FilletGroup(kind, groups, i, kernel, radius, distance1, anySuccess);
        if raised {
          return;
        }
        i := i + 1;
      }
      if anySuccess {
        var _ := Send(Commit);
        documentModified := true;
      } else {
        var _ := Send(Abort);
      }
    }

    /**
     * Group `i`: skipped when it has no shape or no edges; a raise aborts;
     * an accepted result replaces the base shape in the document and the viewer.
     */
    method FilletGroup(kind: FilletChamferType, groups: seq<EdgeGroup>, i: nat, kernel: FilletKernel, radius: real,
                       distance1: real, anySuccess: bool)
      returns (raised: bool, success: bool)
      requires i < |groups|
      modifies this`calls
      ensures raised ==>
                calls == old(calls) + FilletFrom(old(calls), kind, kernel, radius, distance1, groups, i, anySuccess, answers)
      ensures raised ==> calls[|calls| - 1] == Abort
      ensures !raised ==>
                old(calls) + FilletFrom(old(calls), kind, kernel, radius, distance1, groups, i, anySuccess, answers)
                == calls + FilletFrom(calls, kind, kernel, radius, distance1, groups, i + 1, success, answers)
    {
      raised, success := false, anySuccess;
      var g := groups[i];
      if g.base.Some? && g.edges != [] {
        var result := if kind == Fillet then kernel.fillet(g.base.value, g.edges, radius)
                      else kernel.chamfer(g.base.value, g.edges, distance1);
        if result.Raised? {
          var _ := Send(Abort);
          return true, success;
        }
        if result.Done? {
          ghost var before := calls;
          var added := Send(Add(result.value, FilletName(kind) + " Result on Shape"));
          if added {
            var _ := Send(Remove(g.base.value));
            Record(Hide(g.base.value));
            Record(Show(result.value));
            success := true;
            assert calls == before + [Add(result.value, FilletName(kind) + " Result on Shape"), Remove(g.base.value),
                                      Hide(g.base.value), Show(result.value)];
          }
        }
      }
    }

    /**
     * The preview reset: nothing without an active preview; otherwise every
     * present preview shape leaves the viewer and the preview is dropped.
     */
    method OnTransformResetRequested()
      requires Valid()
      modifies this`calls, this`previewActive, this`previewShapes
      ensures Valid()
      ensures !old(previewActive) ==> calls == old(calls) && !previewActive && previewShapes == old(previewShapes)
      ensures old(previewActive) ==> calls == old(calls) + PreviewHides(old(previewShapes))
      ensures old(previewActive) ==> !previewActive && previewShapes == []
    {
      if !previewActive {
        return;
      }
      var i := 0;
      while i < |previewShapes|
        invariant 0 <= i <= |previewShapes|
        invariant previewShapes == old(previewShapes)
        invariant calls == old(calls) + PreviewHides(previewShapes[..i])
      {
        assert previewShapes[..i + 1][..i] == previewShapes[..i];
        if previewShapes[i].Some? {
          Record(Hide(previewShapes[i].value));
        }
        i := i + 1;
      }
      assert previewShapes[..|previewShapes|] == previewShapes;
      previewShapes := [];
      previewActive := false;
    }

    /**
     * The transform handler: a null command does nothing. Otherwise an
     * active preview is reset first, then the command's outcome decides:
     * `TransformSession` over the shapes selected in the dialog.
     */
    method OnTransformOperationRequested(command: Option<Built<seq<ShapeId>>>, originals: seq<ShapeId>)
      requires Valid()
      modifies this`calls, this`previewActive, this`previewShapes, this`documentModified
      ensures Valid()
      ensures command.None? ==>
                && calls == old(calls) && previewActive == old(previewActive) && previewShapes == old(previewShapes)
                && documentModified == old(documentModified)
      ensures command.Some? ==>
                var hides := if old(previewActive) then PreviewHides(old(previewShapes)) else [];
                var d := TransformSession(old(calls) + hides, command.value, originals, answers);
                && calls == old(calls) + hides + d
                && !previewActive && previewShapes == []
                && documentModified == (old(documentModified) || Committed(d))
    {
      if command.None? {
        return;
      }
      OnTransformResetRequested();
      assert calls == old(calls) + (if old(previewActive) then PreviewHides(old(previewShapes)) else []);
      ApplyTransform(command.value, originals);
    }

    /** What follows the reset: the command's outcome decides, as `TransformSession` states. */
    method ApplyTransform(executed: Built<seq<ShapeId>>, originals: seq<ShapeId>)
      modifies this`calls, this`documentModified
      ensures var d := TransformSession(old(calls), executed, originals, answers);
              calls == old(calls) + d && documentModified == (old(documentModified) || Committed(d))
    {
      ghost var log := calls;
      ghost var d := TransformSession(calls, executed, originals, answers);
      TransformTransaction(calls, executed, originals, answers);
      match executed
      case NotDone =>
      case Raised =>
        var _ := Send(Abort);
      case Done(transformed) =>
        var _ := Send(Start("Transform Objects"));
        ReplacePairs(originals, transformed);
        assert calls == log + d;
        assert d[|d| - 1] == calls[|calls| - 1];
    }

    /**
     * Replaces each pair up to the shorter list, updating the viewer and the
     * tree; the first rejected replacement aborts and ends the handler;
     * after the last pair, commits.
     */
    method ReplacePairs(originals: seq<ShapeId>, transformed: seq<ShapeId>)
      modifies this`calls, this`documentModified
      ensures calls == old(calls) + ReplaceFrom(old(calls), originals, transformed, 0, answers)
      ensures documentModified == (old(documentModified) || calls[|calls| - 1] == Commit)
    {
      var i := 0;
      while i < |originals| && i < |transformed|
        invariant 0 <= i <= Shorter(|originals|, |transformed|)
        invariant old(calls) + ReplaceFrom(old(calls), originals, transformed, 0, answers)
                  == calls + ReplaceFrom(calls, originals, transformed, i, answers)
        invariant documentModified == old(documentModified)
      {
        var replaced := ReplacePair(originals, transformed, i);
        if !replaced {
          return;
        }
        i := i + 1;
      }
      var _ := Send(Commit);
      documentModified := true;
    }

    /** Pair `i`: an accepted replacement updates the viewer; a rejected one aborts. */
    method ReplacePair(originals: seq<ShapeId>, transformed: seq<ShapeId>, i: nat) returns (replaced: bool)
      requires i < Shorter(|originals|, |transformed|)
      modifies this`calls
      ensures !replaced ==> calls == old(calls) + ReplaceFrom(old(calls), originals, transformed, i, answers)
      ensures !replaced ==> calls[|calls| - 1] == Abort
      ensures replaced ==>
                old(calls) + ReplaceFrom(old(calls), originals, transformed, i, answers)
                == calls + ReplaceFrom(calls, originals, transformed, i + 1, answers)
    {
      ghost var before := calls;
      var c := Replace(originals[i], transformed[i]);
      replaced := Send(c);
      if replaced {
        Record(Hide(originals[i]));
        Record(Show(transformed[i]));
        ghost var step := [c, Hide(originals[i]), Show(transformed[i])];
        assert calls == before + step;
        assert ReplaceFrom(before, originals, transformed, i, answers)
               == step + ReplaceFrom(before + step, originals, transformed, i + 1, answers);
      } else {
        var _ := Send(Abort);
        assert ReplaceFrom(before, originals, transformed, i, answers) == [c, Abort];
      }
    }

    /**
     * Leaving sketch mode: without a viewer, or outside sketch mode, nothing.
     * Otherwise the session's sketch is kept for extrusion, the session ends,
     * and a non-empty sketch enables the extrude action (an empty one leaves
     * it as it was).
     */
    method OnExitSketchMode()
      requires Valid()
      modifies this`lastCompletedSketch, this`extrudeEnabled, sketchMode, sketchMode.rectangleTool, sketchMode.lineTool
      ensures Valid()
      ensures !viewerPresent || !old(sketchMode.isActive) ==>
                && lastCompletedSketch == old(lastCompletedSketch) && extrudeEnabled == old(extrudeEnabled)
                && unchanged(sketchMode, sketchMode.rectangleTool, sketchMode.lineTool)
      ensures viewerPresent && old(sketchMode.isActive) ==>
                && lastCompletedSketch == old(sketchMode.currentSketch) && !sketchMode.isActive
                && extrudeEnabled == (old(extrudeEnabled) || old(sketchMode.currentSketch).value != [])
                && sketchMode.activeTool == SketchMode.ToolAfterStop(old(sketchMode.activeTool), old(sketchMode.lineTool.isDrawing))
    {
      if !viewerPresent || !sketchMode.IsInSketchMode() {
        return;
      }
      lastCompletedSketch := sketchMode.GetCurrentSketch();
      sketchMode.ExitSketchMode();
      if lastCompletedSketch.Some? && lastCompletedSketch.value != [] {
        extrudeEnabled := true;
      }
    }

    /**
     * Closing a tab: the last tab is never closed; otherwise the tab at
     * `index` goes only if it exists and holds a viewer.
     */
    method CloseDocumentTab(index: int)
      requires Valid()
      modifies this`tabs
      ensures Valid()
      ensures if |old(tabs)| > 1 && 0 <= index < |old(tabs)| && old(tabs)[index] == ViewerTab
              then tabs == old(tabs)[..index] + old(tabs)[index + 1..]
              else tabs == old(tabs)
    {
      if |tabs| <= 1 {
        return;
      }
      if 0 <= index < |tabs| && tabs[index] == ViewerTab {
        tabs := tabs[..index] + tabs[index + 1..];
      }
    }
  }
}
