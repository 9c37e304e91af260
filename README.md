# A verified model of the CAD application's editing core

This project models the part of the Qt/OpenCASCADE CAD application that
turns user actions into document edits:

- **Primitive creation.** `ShapeFactory` builds boxes, cylinders, spheres
  and tori. It guards each kernel call with parameter checks. Some guards
  return a null shape and others throw.
- **The undoable torus command.** `CreateTorusCommand` supports execute,
  undo and redo, and stores the shape it created.
- **Extrusion.** `ExtrudeFeature` is a named parameter store with
  defaults. It validates its parameters, then turns the line segments of a
  sketch into a wire, a face and a prism along +Z.
- **Sketch mode.** Sketch mode, the rectangle tool and the line tool are
  objects whose fields change with every mouse and key event. Finished
  rectangles and lines are appended to the current sketch.
- **The `MainWindow` handlers.** Each handler opens a transaction on the
  document manager (`OCAFManager`), makes its edits, updates the viewer and
  the document tree, and then commits or aborts. The handlers cover
  creating a primitive, extruding the last sketch, boolean union,
  intersection and difference, fillet and chamfer, applying a transform,
  resetting a transform preview, leaving sketch mode and closing a tab.

The geometry kernel is never modelled. Each kernel call is a function
parameter that either delivers a result (`Done`), reports failure with a
null shape (`NotDone`), or throws (`Raised`). Inside the factories and the
extrusion, `Raised` is a kernel `Standard_Failure` that their own handlers
catch. In the boolean, fillet and transform handlers, it is an exception that
the handler's `std::exception` catch receives.

The document manager is modelled as the sequence of calls made on it. The
viewer and document-tree updates are recorded in the same sequence as
`Show` and `Hide` events. The manager's replies to `AddShape`,
`RemoveShape` and `ReplaceShape` come from an oracle (`Answers`). The
oracle may depend on every earlier call.

A small state machine over the calls (`Document.Run`) decides whether a
handler's calls form one well-bracketed transaction:

- a start opens a transaction;
- a commit or an abort closes it;
- edits must happen while it is open;
- view events may appear anywhere.

Every handler is proved against a specification function in
`EditSessions`, which gives the exact calls it makes. The properties of
that function are proved as lemmas. They include:

- the calls form exactly one transaction;
- the transaction commits exactly when the source's success condition
  holds;
- shapes are displayed only on commit;
- the inputs of a boolean operation are removed exactly when it commits;
- a fillet or chamfer removes exactly the base shape of each result the
  document accepted, right after accepting it;
- a committed transform replaced every pair.

Lengths and parameters are `real`: the model uses exact arithmetic.

Files:

| file | module | contents |
|---|---|---|
| `Geometry.dfy` | `Geometry` | points, vectors, kernel outcomes, sketch elements |
| `ShapeFactory.dfy` | `ShapeFactory` | primitive factory guards |
| `TorusCommand.dfy` | `TorusCommand` | `CreateTorusCommand` class |
| `ExtrudeFeature.dfy` | `Extrude` | `ExtrudeFeature` class and the extrusion pipeline |
| `SketchMode.dfy` | `Sketching` | rectangle tool, line tool, `SketchMode` classes |
| `Document.dfy` | `Document` | document calls and the transaction state machine |
| `EditSessions.dfy` | `EditSessions` | the calls each handler makes, and their properties |
| `MainWindow.dfy` | `Window` | `MainWindow` class with the handlers as methods |

## Model

| member | source | states |
|---|---|---|
| ShapeFactory.CreateBoxFromCorners | cad_core/src/ShapeFactory.cpp:12-24 | never throws; a shape exactly when the kernel builder succeeds, and it is the builder's shape; null otherwise |
| ShapeFactory.CreateBox | cad_core/src/ShapeFactory.cpp:26-40 | never null; a non-positive dimension throws invalid_argument; with positive dimensions a kernel failure throws runtime_error; a shape exactly when all dimensions are positive and the builder succeeds |
| ShapeFactory.CreateCylinder | cad_core/src/ShapeFactory.cpp:42-60 | never throws; a non-positive radius or height gives null; a shape exactly when both are positive and the builder succeeds |
| ShapeFactory.CreateCylinderAtOrigin | cad_core/src/ShapeFactory.cpp:62-64 | the two-argument overload builds at the origin with the same guard |
| ShapeFactory.CreateSphere | cad_core/src/ShapeFactory.cpp:66-83 | never throws; a non-positive radius gives null; a shape exactly when the radius is positive and the builder succeeds |
| ShapeFactory.CreateSphereAtOrigin | cad_core/src/ShapeFactory.cpp:85-87 | the one-argument overload builds at the origin with the same guard |
| ShapeFactory.CreateTorus | cad_core/src/ShapeFactory.cpp:89-108 | never null, every throw is a runtime_error; non-positive radii throw; a major radius not above the minor radius throws; a shape exactly when the radii are valid and the builder succeeds |
| ShapeFactory.BoxGuardIgnoresKernel | cad_core/src/ShapeFactory.cpp:29-31 | for rejected dimensions the result does not depend on the kernel, so the kernel is never consulted |
| ShapeFactory.TorusGuardIgnoresKernel | cad_core/src/ShapeFactory.cpp:91-96 | for rejected radii the result does not depend on the kernel |
| ShapeFactory.NullGuardsIgnoreKernel | cad_core/src/ShapeFactory.cpp:45-71 | for rejected cylinder or sphere parameters the result does not depend on the kernel |
| TorusCommand.CreateTorusCommand.constructor | cad_core/src/CreateTorusCommand.cpp:5-7 | stores the parameters; not executed, no shape |
| TorusCommand.CreateTorusCommand.Execute | cad_core/src/CreateTorusCommand.cpp:9-17 | already executed: returns true and changes nothing; otherwise builds through the factory, keeps the shape and reports success exactly when a shape was built, propagating the factory's exception |
| TorusCommand.CreateTorusCommand.Undo | cad_core/src/CreateTorusCommand.cpp:19-27 | returns whether it was executed; afterwards not executed and no shape |
| TorusCommand.CreateTorusCommand.Redo | cad_core/src/CreateTorusCommand.cpp:29-35 | already executed: true and unchanged; otherwise behaves as Execute |
| TorusCommand.CreateTorusCommand.GetName | cad_core/src/CreateTorusCommand.cpp:37-39 | the name is "Create Torus" |
| TorusCommand.CreateTorusCommand.GetCreatedShape | cad_core/src/CreateTorusCommand.cpp:41-43 | a shape is held exactly when the command is executed |
| TorusCommand.UndoThenRedo | cad_core/src/CreateTorusCommand.cpp:19-35 | undo then redo of an executed command with a buildable torus succeeds and restores an executed command holding the kernel's torus |
| TorusCommand.ExecuteTwice | cad_core/src/CreateTorusCommand.cpp:9-17 | a second execute after a successful one returns the same; after a throw it throws again and stays unexecuted |
| Extrude.LinesOf | cad_feature/src/ExtrudeFeature.cpp:119-131 | at most as many edges as sketch elements |
| Extrude.LinesOfMembers | cad_feature/src/ExtrudeFeature.cpp:119-131 | a line goes to the wire exactly when the sketch holds it as a line element |
| Extrude.LinesOfAllLines | cad_feature/src/ExtrudeFeature.cpp:119-131 | a sketch made only of lines goes to the wire whole and in order |
| Extrude.ExtrusionVector | cad_feature/src/ExtrudeFeature.cpp:146-147 | the prism vector is (0, 0, distance) |
| Extrude.ExtrudeLines | cad_feature/src/ExtrudeFeature.cpp:134-162 | a solid exactly when wire, face and prism all succeed, and it is the prism's shape; any reported or thrown failure gives null |
| Extrude.ExtrudeFeature.constructor | cad_feature/src/ExtrudeFeature.cpp:13-20 | name "Extrude", no sketch, distance 10, direction (0,0,1), taper 0, midplane off |
| Extrude.ExtrudeFeature.Named | cad_feature/src/ExtrudeFeature.cpp:22-29 | the given name with the same defaults |
| Extrude.ExtrudeFeature.SetSketch | cad_feature/src/ExtrudeFeature.cpp:31-37 | the sketch read back is the one set; parameters unchanged |
| Extrude.ExtrudeFeature.SetDistance | cad_feature/src/ExtrudeFeature.cpp:39-45 | the distance read back is the one set; only that parameter changes |
| Extrude.ExtrudeFeature.SetDirection | cad_feature/src/ExtrudeFeature.cpp:47-57 | the direction read back is the one set; only its three components change |
| Extrude.ExtrudeFeature.SetTaperAngle | cad_feature/src/ExtrudeFeature.cpp:59-65 | the taper read back is the one set; only that parameter changes |
| Extrude.ExtrudeFeature.SetMidplane | cad_feature/src/ExtrudeFeature.cpp:67-73 | stored as 1 or 0; the flag read back is the one set |
| Extrude.ExtrudeFeature.IsSketchValid | cad_feature/src/ExtrudeFeature.cpp:108-110 | valid exactly when a sketch is present and not empty |
| Extrude.ExtrudeFeature.ValidateParameters | cad_feature/src/ExtrudeFeature.cpp:83-101 | invalid exactly when the sketch is invalid, the distance is not positive, or the direction's length is below 1e-10 |
| Extrude.ExtrudeFeature.ExtrudeSketch | cad_feature/src/ExtrudeFeature.cpp:112-165 | an invalid sketch gives null; otherwise the pipeline's result on the sketch's lines in order, along +Z by the distance |
| Extrude.ExtrudeFeature.CreateShape | cad_feature/src/ExtrudeFeature.cpp:75-81 | invalid parameters give null before any kernel step; otherwise the extrusion's result |
| Extrude.ExtrudeFeature.CreateCommand | cad_feature/src/ExtrudeFeature.cpp:103-106 | a box command whose three sides are the extrusion distance |
| Sketching.CreateRectangleLines | cad_ui/src/SketchMode.cpp:154-180 | four lines forming a closed loop, counter-clockwise from the minimum corner |
| Sketching.RectangleIgnoresCornerOrder | cad_ui/src/SketchMode.cpp:154-180 | swapping the two corners gives the same rectangle |
| Sketching.RectangleSpansCorners | cad_ui/src/SketchMode.cpp:154-180 | both dragged corners are vertices of the rectangle |
| Sketching.SketchRectangleTool.constructor | cad_ui/src/SketchMode.cpp:29-31 | not drawing, no lines |
| Sketching.SketchRectangleTool.StartDrawing | cad_ui/src/SketchMode.cpp:33-40 | drawing from the point, with no lines yet |
| Sketching.SketchRectangleTool.UpdateDrawing | cad_ui/src/SketchMode.cpp:42-70 | ignored when not drawing; otherwise the current corner moves to the point; corners within 0.1 on both axes give no preview and keep the previous lines, else the preview is the rectangle from the start to the point |
| Sketching.SketchRectangleTool.FinishDrawing | cad_ui/src/SketchMode.cpp:72-91 | ignored when not drawing; otherwise drawing stops, the lines are cleared and the rectangle from the start to the release point is emitted |
| Sketching.SketchRectangleTool.CancelDrawing | cad_ui/src/SketchMode.cpp:93-104 | cancels exactly an ongoing drawing; afterwards not drawing and no lines |
| Sketching.SketchRectangleTool.IsDrawing | cad_ui/include/cad_ui/SketchMode.h:47 | a tool that is not drawing has no lines |
| Sketching.SketchRectangleTool.GetCurrentRectangle | cad_ui/src/SketchMode.cpp:114-116 | a non-empty rectangle only while drawing |
| Sketching.SketchLineTool.constructor | cad_ui/src/SketchMode.cpp:184-187 | not drawing |
| Sketching.SketchLineTool.StartDrawing | cad_ui/src/SketchMode.cpp:189-192 | drawing from the point |
| Sketching.SketchLineTool.UpdateDrawing | cad_ui/src/SketchMode.cpp:194-203 | a preview from the start point while drawing, none otherwise |
| Sketching.SketchLineTool.FinishDrawing | cad_ui/src/SketchMode.cpp:205-220 | ignored when not drawing; otherwise drawing stops and the line is emitted when its ends are more than 1e-6 apart, a cancellation otherwise |
| Sketching.SketchLineTool.CancelDrawing | cad_ui/src/SketchMode.cpp:222-226 | cancels exactly an ongoing drawing |
| Sketching.SketchMode.constructor | cad_ui/src/SketchMode.cpp:258-273 | inactive, no tool, no sketch, two fresh tools |
| Sketching.SketchMode.IsInSketchMode | cad_ui/include/cad_ui/SketchMode.h:123 | active exactly when a sketch is held |
| Sketching.SketchMode.GetCurrentSketch | cad_ui/include/cad_ui/SketchMode.h:126 | a sketch exactly while active |
| Sketching.SketchMode.GetSketchFace | cad_ui/include/cad_ui/SketchMode.h:128 | a face exactly while active |
| Sketching.SketchMode.StopCurrentTool | cad_ui/src/SketchMode.cpp:396-404 | both tools stop drawing; the tool selection is cleared only when the line tool was drawing; the session itself is untouched |
| Sketching.SketchMode.ExitSketchMode | cad_ui/src/SketchMode.cpp:346-370 | inactive with no sketch and no face; an active mode stops its tool first |
| Sketching.SketchMode.EnterSketchMode | cad_ui/src/SketchMode.cpp:275-344 | succeeds exactly with a face and a viewer, leaving an active mode with an empty sketch on that face; failure leaves it inactive |
| Sketching.SketchMode.StartRectangleTool | cad_ui/src/SketchMode.cpp:372-382 | while active, the rectangle tool is selected with nothing drawing; inactive, nothing changes |
| Sketching.SketchMode.StartLineTool | cad_ui/src/SketchMode.cpp:384-394 | while active, the line tool is selected with nothing drawing; inactive, nothing changes |
| Sketching.SketchMode.OnRectangleCreated | cad_ui/src/SketchMode.cpp:453-470 | the rectangle's lines are appended to the sketch in order; no sketch, no change |
| Sketching.SketchMode.OnLineCreated | cad_ui/src/SketchMode.cpp:472-484 | the line is appended to the sketch; no sketch, no change |
| Sketching.SketchMode.HandleMousePress | cad_ui/src/SketchMode.cpp:406-415 | a left press while active starts the selected tool at the point; the rectangle tool's current point is the press point and its preview is empty; the other tool is untouched; otherwise both tools are untouched |
| Sketching.SketchMode.HandleMouseMove | cad_ui/src/SketchMode.cpp:417-426 | with the rectangle tool drawing in an active mode, the current corner moves to the point and the preview lines are recomputed as the tool's update prescribes (kept when the corners are too close); otherwise the rectangle tool is untouched; the drawing flag never changes |
| Sketching.SketchMode.HandleMouseRelease | cad_ui/src/SketchMode.cpp:428-437 | a left release in an active mode finishes the selected tool: a drawing rectangle appends its four lines, a drawing line appends itself when long enough; a selected tool that was not drawing, no tool, another button or an inactive mode leave the sketch unchanged; the sketch only grows |
| Sketching.SketchMode.HandleKeyPress | cad_ui/src/SketchMode.cpp:439-451 | Escape cancels an ongoing rectangle, clearing its preview and keeping the sketch, the face, the selected tool and the line tool; otherwise Escape leaves sketch mode, dropping the sketch and the face and selecting the tool that stopping the current one leaves; other keys and an inactive mode change nothing |
| EditSessions.AddShapeSession | cad_ui/src/MainWindow.cpp:1094-1116 | one transaction; committed exactly when a shape was built and the document accepted it; aborted otherwise; only the new shape is displayed, and only on commit |
| EditSessions.BoxSessionAsWritten | cad_ui/src/MainWindow.cpp:1061-1064 | the factory's exception escapes exactly for rejected dimensions or a kernel failure |
| EditSessions.BoxLeavesTransactionOpen | cad_ui/src/MainWindow.cpp:1061-1064 | for a non-positive dimension the handler's transaction is left open |
| EditSessions.BoxSession | cad_ui/src/MainWindow.cpp:1053-1085 | one "Create Box" transaction, committed exactly when the dimensions are positive, the kernel builds and the document accepts |
| EditSessions.CylinderSession | cad_ui/src/MainWindow.cpp:1087-1118 | one "Create Cylinder" transaction, committed exactly for a built, accepted cylinder |
| EditSessions.SphereSession | cad_ui/src/MainWindow.cpp:1120-1150 | one "Create Sphere" transaction, committed exactly for a built, accepted sphere |
| EditSessions.TorusSession | cad_ui/src/MainWindow.cpp:1152-1182 | one "Create Torus" transaction; factory exceptions and a refused add both abort |
| EditSessions.ExtrudeShape | cad_ui/src/MainWindow.cpp:1201-1206 | a non-positive distance yields no shape |
| EditSessions.ExtrudeCommitAsWritten | cad_ui/src/MainWindow.cpp:1209-1215 | always commits, adds and displays the shape |
| EditSessions.ExtrudeCommitsRejectedShape | cad_ui/src/MainWindow.cpp:1210-1212 | a document that refuses every add still gets a commit and a displayed shape |
| EditSessions.ExtrudeCommit | cad_ui/src/MainWindow.cpp:1209-1219 | one "Extrude Sketch" transaction, committed exactly when the document accepts the shape; displayed exactly on commit |
| EditSessions.ExtrudeSession | cad_ui/src/MainWindow.cpp:1185-1224 | nothing without a non-empty sketch and a distance; a transaction exactly when a valid solid was built; the sketch is consumed exactly on commit |
| EditSessions.NullStopsFold | cad_ui/src/MainWindow.cpp:1799-1819 | once the running result is null or thrown, later operands change nothing |
| EditSessions.IntersectionIsOneFold | cad_ui/src/MainWindow.cpp:1799-1811 | intersection folds over the other targets and then the tools, as one fold |
| EditSessions.RemovalsMembers | cad_ui/src/MainWindow.cpp:1833-1854 | the removal loop only removes and hides, and removes exactly the given shapes |
| EditSessions.BooleanSession | cad_ui/src/MainWindow.cpp:1760-1774 | no calls exactly when the selection is rejected |
| EditSessions.BooleanBracketed | cad_ui/src/MainWindow.cpp:1822-1872 | add, show, removals and commit, or an abort, form one transaction committed exactly when it ends in a commit |
| EditSessions.BooleanTransaction | cad_ui/src/MainWindow.cpp:1790-1872 | an accepted selection gives one transaction, committed exactly when the result is built and the document accepts it |
| EditSessions.BooleanRemovesInputs | cad_ui/src/MainWindow.cpp:1822-1868 | a target or tool is removed exactly when the operation commits |
| EditSessions.FilletFromCommits | cad_ui/src/MainWindow.cpp:1902-1958 | the remaining groups end in one commit or abort; commit exactly when no group throws and some result was accepted (before or among them); every accepted result is followed by the removal and hiding of its own group's base shape and its display; every removal follows an accepted result |
| EditSessions.FilletFromReplaces | cad_ui/src/MainWindow.cpp:1917-1937 | every add the document accepts is the kernel result of a processed group and is followed at once by Remove and Hide of that group's base shape and Show of the result |
| EditSessions.FilletAcceptedFacts | cad_ui/src/MainWindow.cpp:1924-1937 | for a group whose result the document accepts: the calls start with the add, Remove and Hide of the group's base shape and Show of the result, and the transaction then commits unless a later group throws |
| EditSessions.FilletRejectedFacts | cad_ui/src/MainWindow.cpp:1924-1940 | the same facts for a group whose result the document refuses |
| EditSessions.FilletSession | cad_ui/src/MainWindow.cpp:1881-1958 | nothing when no edges or no selected groups; otherwise one "Fillet" or "Chamfer" transaction, committed exactly when no group throws and the document accepted some result; every accepted result replaces its own group's base shape, and every removal follows an accepted result |
| EditSessions.PairCallsReplaceEach | cad_ui/src/MainWindow.cpp:2018-2026 | every pair up to the shorter list is replaced |
| EditSessions.ReplaceFromFacts | cad_ui/src/MainWindow.cpp:2018-2035 | the pair loop ends in one commit or abort; it commits exactly after every pair was replaced, and aborts at the first refusal |
| EditSessions.TransformSession | cad_ui/src/MainWindow.cpp:2009-2049 | a command that reports failure makes no calls; a throw makes only an abort |
| EditSessions.TransformTransaction | cad_ui/src/MainWindow.cpp:2009-2049 | a successful command gives one "Transform Objects" transaction; a throw aborts with none open |
| EditSessions.TransformAcceptance | cad_ui/src/MainWindow.cpp:2015-2035 | commits exactly when every replacement was accepted |
| EditSessions.TransformReplacesEveryPair | cad_ui/src/MainWindow.cpp:2018-2035 | a committed transform replaced every pair |
| EditSessions.PreviewHidesExactly | cad_ui/src/MainWindow.cpp:2099-2103 | the reset hides exactly the non-null preview shapes |
| Window.MainWindow.AddShapeTransaction | cad_ui/src/MainWindow.cpp:1094-1116 | the calls are the add-shape session's; the document is marked modified exactly on commit; a document with no open transaction is left with none |
| Window.MainWindow.OnCreateBox | cad_ui/src/MainWindow.cpp:1053-1085 | cancelled dialog: nothing; otherwise the box session's calls, modified exactly on commit; no transaction left open |
| Window.MainWindow.OnCreateCylinder | cad_ui/src/MainWindow.cpp:1087-1118 | cancelled dialog: nothing; otherwise the cylinder session's calls, modified exactly on commit |
| Window.MainWindow.OnCreateSphere | cad_ui/src/MainWindow.cpp:1120-1150 | cancelled dialog: nothing; otherwise the sphere session's calls, modified exactly on commit |
| Window.MainWindow.OnCreateTorus | cad_ui/src/MainWindow.cpp:1152-1182 | cancelled dialog: nothing; otherwise the torus session's calls, modified exactly on commit |
| Window.MainWindow.OnCreateExtrude | cad_ui/src/MainWindow.cpp:1185-1224 | the extrude session's calls; the sketch is consumed and the extrude action disabled exactly on commit |
| Window.MainWindow.CommitExtrusion | cad_ui/src/MainWindow.cpp:1209-1215 | the extrude commit's calls, and whether the document accepted the shape |
| Window.MainWindow.ExtrudeWithFeature | cad_ui/src/MainWindow.cpp:1201-1206 | a default feature given the sketch and the distance produces the extrusion shape |
| Window.MainWindow.OnBooleanOperationRequested | cad_ui/src/MainWindow.cpp:1756-1879 | the boolean session's calls; modified exactly on commit; no transaction left open |
| Window.MainWindow.FinishBoolean | cad_ui/src/MainWindow.cpp:1822-1868 | adds, displays, removes the inputs and commits, or aborts, as the boolean finish prescribes |
| Window.MainWindow.RemoveInputsAndCommit | cad_ui/src/MainWindow.cpp:1831-1857 | removes and hides the targets, then the tools, then commits |
| Window.MainWindow.ComputeBoolean | cad_ui/src/MainWindow.cpp:1792-1820 | the result is the boolean result of the operation |
| Window.MainWindow.FoldLoop | cad_ui/src/MainWindow.cpp:1802-1811 | the loop computes the fold, skipping operands once the result is null |
| Window.MainWindow.RemoveAll | cad_ui/src/MainWindow.cpp:1833-1837 | each shape is removed from the document and hidden, in order |
| Window.MainWindow.OnFilletChamferOperationRequested | cad_ui/src/MainWindow.cpp:1881-1968 | the fillet session's calls; modified exactly on commit; no transaction left open |
| Window.MainWindow.FilletGroups | cad_ui/src/MainWindow.cpp:1902-1958 | the group loop makes the calls of the fillet specification from the first group |
| Window.MainWindow.FilletGroup | cad_ui/src/MainWindow.cpp:1906-1944 | one group's calls; a throw ends the session with an abort |
| Window.MainWindow.OnTransformResetRequested | cad_ui/src/MainWindow.cpp:2093-2111 | no preview: nothing; otherwise the non-null preview shapes are hidden, the preview cleared and deactivated; the window invariant is kept |
| Window.MainWindow.OnTransformOperationRequested | cad_ui/src/MainWindow.cpp:1997-2056 | no command: nothing; otherwise an active preview is reset first, then the transform session's calls; the window invariant is kept |
| Window.MainWindow.ApplyTransform | cad_ui/src/MainWindow.cpp:2009-2049 | the transform session's calls; modified exactly on commit |
| Window.MainWindow.ReplacePairs | cad_ui/src/MainWindow.cpp:2018-2035 | the pair loop makes the replace calls of the specification and commits, or aborts at the first refusal |
| Window.MainWindow.ReplacePair | cad_ui/src/MainWindow.cpp:2019-2031 | one pair: replace, hide the original and show the result, or abort |
| Window.MainWindow.OnExitSketchMode | cad_ui/src/MainWindow.cpp:2171-2184 | no viewer or not sketching: nothing; otherwise the sketch is kept as the last completed sketch, sketch mode exits, selecting the tool that stopping the current one leaves, and extrude is enabled for a non-empty sketch |
| Window.MainWindow.CloseDocumentTab | cad_ui/src/MainWindow.cpp:1485-1497 | the last tab is never closed; a viewer tab at a valid index is removed; anything else changes nothing |

## Left out

- Dialogs, message boxes, status-bar messages and `qDebug` output are not modelled. A dialog's result is a parameter, with `None` for a cancelled dialog.
- `UpdateActions`, `RefreshUIFromOCAF`, `m_viewer->update()`, `ClearEdgeSelection` and the `deleteLater` clean-up of the operation dialogs are not modelled. They do not touch the document.
- The internals of `OCAFManager`, `BooleanOperations`, `FilletChamferOperations` and `TransformCommand` are not part of this model. Their results are oracle or function parameters. `GetSelectedEdgesByShape` and `getSelectedObjects` become input sequences.
- `AddShape`, `RemoveShape` and `ReplaceShape` are modelled as returning a flag, never as throwing. The catch blocks of the boolean, fillet and transform handlers are modelled only for exceptions from the kernel or the command.
- Window.MainWindow.OnBooleanOperationRequested, Window.MainWindow.OnFilletChamferOperationRequested and Window.MainWindow.OnTransformOperationRequested:
  - These handlers catch only `std::exception`. A kernel `Standard_Failure` is not one.
  - The model assumes that `BooleanOperations`, `FilletChamferOperations` and `TransformCommand::Execute` turn kernel failures into a null result or a `std::exception`. Their sources are not part of this model.
  - Without that assumption, a `Standard_Failure` escaping a wrapper would leave the transaction open, as in the box handler. The aborts and the "no transaction left open" ensures hold only under the assumption.
- The reply of `RemoveShape` is ignored, as in the source.
- `distance2` of the fillet/chamfer handler is accepted but unused, as in the source.
- Screen-to-plane projection, the camera save and restore, and the view setup in `EnterSketchMode` are not modelled. The tools receive plane points directly.
- `EnterSketchMode`'s catch block (SketchMode.cpp:340-343) is not modelled.
- The sketch's own storage is not modelled. A sketch is the sequence of its elements.
- `Extrude.ExtrudeFeature.ExtrudeSketch` ignores the direction, taper and midplane parameters, as the source does. The model keeps them only as stored values.
- Floating-point rounding is not modelled. Lengths are exact `real`s. `ValidateParameters` compares the squared length with 1e-20 instead of the length with 1e-10.
- Shared-pointer aliasing is not modelled. Shapes are identified by number.
- Window.MainWindow.OnTransformOperationRequested: the catch block aborts even when the throw came from `command->Execute()`, before any transaction was started. The model keeps this. `EditSessions.TransformTransaction` states that the resulting calls break the transaction discipline.
- Window.MainWindow.OnCreateExtrude: the handler never calls `SetDocumentModified`, as in the source. The model leaves the modified flag alone.
- Window.MainWindow.OnCreateBox and Window.MainWindow.OnCreateExtrude model the corrected behaviour listed under Findings. The as-written behaviour is stated by the members named there.

## Findings

| source | as written | input that shows it | evidently intended | confidence | as-written member | corrected member |
|---|---|---|---|---|---|---|
| cad_ui/src/MainWindow.cpp:1061-1064 | the transaction is started before `CreateBox(w,h,d)`, which throws `invalid_argument` for a non-positive dimension; the handler has no catch, so the exception escapes with the transaction still open | a box dialog returning width 0 | catch the exception and abort the transaction, as the torus handler does | not executed | EditSessions.BoxLeavesTransactionOpen | EditSessions.BoxSession |
| cad_ui/src/MainWindow.cpp:1209-1219 | the reply of `AddShape` is ignored: the transaction commits, the shape is displayed, the extrude action is disabled and the sketch is discarded even when the document refused the shape | a document whose `AddShape` returns false | commit, display and consume the sketch only when the add was accepted, and abort otherwise, as every other handler does | not executed | EditSessions.ExtrudeCommitsRejectedShape | EditSessions.ExtrudeCommit |
