/**
 * `CreateTorusCommand`: an Execute/Undo/Redo state machine over the two
 * mutable fields `createdShape` and `executed`. The centre and the radii are
 * fixed at construction; so is the kernel builder the factory consults.
 */
module TorusCommand {
  import opened Geometry
  import opened ShapeFactory

  /** How a command call ends: it returns a flag, or an exception escapes. */
  datatype Outcome = Returned(ok: bool) | Threw(error: Error)

  class CreateTorusCommand {
    const center: Point3
    const majorRadius: real
    const minorRadius: real
    /** The kernel torus builder the factory calls. */
    const makeTorus: (Point3, real, real) -> Built<ShapeId>

    var createdShape: Option<ShapeId>
    var executed: bool

    /** An executed command holds its shape, and an unexecuted one holds none. */
    ghost predicate Valid()
      reads this
    {
      executed <==> createdShape.Some?
    }

    /** What the factory gives for the stored parameters. */
    function Build(): (r: Result)
      ensures !r.Null?
      ensures r.Shape? <==> ValidTorusRadii(majorRadius, minorRadius) && makeTorus(center, majorRadius, minorRadius).Done?
    {
      CreateTorus(center, majorRadius, minorRadius, makeTorus)
    }

    constructor (center: Point3, majorRadius: real, minorRadius: real,
                 makeTorus: (Point3, real, real) -> Built<ShapeId>)
      ensures Valid()
      ensures this.center == center && this.majorRadius == majorRadius && this.minorRadius == minorRadius
      ensures this.makeTorus == makeTorus
      ensures !executed && createdShape == None
    {
      this.center := center;
      this.majorRadius := majorRadius;
      this.minorRadius := minorRadius;
      this.makeTorus := makeTorus;
      createdShape := None;
      executed := false;
    }

    /**
     * Already executed: returns true and changes nothing. Otherwise the
     * factory is asked; a shape makes the command executed, and a thrown
     * error escapes with both fields untouched.
     */
    method Execute() returns (o: Outcome)
      requires Valid()
      modifies this
      ensures Valid()
      ensures old(executed) ==> o == Returned(true) && executed && createdShape == old(createdShape)
      ensures !old(executed) ==>
                if Build().Shape? then o == Returned(true) && executed && createdShape == Some(Build().id)
                else o == Threw(Build().error) && !executed && createdShape == old(createdShape)
      ensures o.Returned? ==> o.ok == executed
    {
      if executed {
        return Returned(true);
      }
      var r := CreateTorus(center, majorRadius, minorRadius, makeTorus);
      if r.Thrown? {
        // the factory's exception leaves the command before any field is assigned
        return Threw(r.error);
      }
      createdShape := if r.Shape? then Some(r.id) else None;
      executed := createdShape != None;
      o := Returned(executed);
    }

    /** Not executed: returns false. Otherwise drops the shape and becomes unexecuted. */
    method Undo() returns (ok: bool)
      requires Valid()
      modifies this
      ensures Valid()
      ensures ok == old(executed)
      ensures !executed && createdShape == None
    {
      if !executed {
        return false;
      }
      createdShape := None;
      executed := false;
      ok := true;
    }

    /** Executed: a no-op returning true. Otherwise exactly `Execute` on the stored parameters. */
    method Redo() returns (o: Outcome)
      requires Valid()
      modifies this
      ensures Valid()
      ensures old(executed) ==> o == Returned(true) && executed && createdShape == old(createdShape)
      ensures !old(executed) ==>
                if Build().Shape? then o == Returned(true) && executed && createdShape == Some(Build().id)
                else o == Threw(Build().error) && !executed && createdShape == old(createdShape)
    {
      if executed {
        return Returned(true);
      }
      o := Execute();
    }

    /** The command's label, the same in every state. */
    function GetName(): (name: string)
      ensures name == "Create Torus"
    {
      "Create Torus"
    }

    /** The stored shape; present exactly when the command is executed. */
    function GetCreatedShape(): (s: Option<ShapeId>)
      requires Valid()
      reads this
      ensures s.Some? <==> executed
    {
      createdShape
    }
  }

  /**
   * With valid radii and a kernel that builds them, undoing an executed
   * command and redoing it leaves it executed with a shape again.
   */
  method UndoThenRedo(c: CreateTorusCommand) returns (undone: bool, redone: Outcome)
    requires c.Valid() && c.executed
    requires ValidTorusRadii(c.majorRadius, c.minorRadius)
    requires c.makeTorus(c.center, c.majorRadius, c.minorRadius).Done?
    modifies c
    ensures undone && redone == Returned(true)
    ensures c.Valid() && c.executed
    ensures c.createdShape == Some(c.makeTorus(c.center, c.majorRadius, c.minorRadius).value)
  {
    undone := c.Undo();
    redone := c.Redo();
  }

  /** Executing twice in a row ends in the same state, with the same outcome, as executing once. */
  method ExecuteTwice(c: CreateTorusCommand) returns (first: Outcome, second: Outcome)
    requires c.Valid()
    modifies c
    ensures c.Valid()
    ensures first.Returned? && first.ok ==> second == first
    ensures first.Threw? ==> second == first && !c.executed
  {
    first := c.Execute();
    second := c.Execute();
  }
}
