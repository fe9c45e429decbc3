/**
 * The predefined `GoTo` action instance: it takes exactly the numeric
 * arguments `x`, `y` and `z`, follows the shared lifecycle, and settles when
 * the pathfinder reports the goal reached or gives up.
 */
module GoToInstances {
  import opened Wrappers
  import opened Values
  import opened ActionInstances

  const ActionName := "GoTo"

  /** The three declared parameters, in declaration order. */
  const Coordinates: seq<Parameter> := [Parameter("x", "number"), Parameter("y", "number"), Parameter("z", "number")]

  /** The goal the instance walks to. */
  datatype Goal = Goal(x: real, y: real, z: real)

  /** The pathfinder statuses that make the instance fail, and the reason each gives. */
  function GiveUpReason(status: string): Option<string>
  {
    if status == "noPath" then Some("cannot find a path to the goal")
    else if status == "timeout" then Some("take too long to find a path to the goal")
    else None
  }

  /** The `GoToActionInstance` constructor: the record, then the count, then each coordinate. */
  function GoToBinding(args: seq<Arg>): (r: Result<Goal, InstanceError>)
    ensures r.Success? ==> exists a :: a in args && a.name == "x" && a.value == Number(r.value.x)
    ensures r.Success? ==> exists a :: a in args && a.name == "y" && a.value == Number(r.value.y)
    ensures r.Success? ==> exists a :: a in args && a.name == "z" && a.value == Number(r.value.z)
  {
    match ArgsRecord(args)
    case Failure(e) => Failure(e)
    case Success(record) =>
      ArgsRecordMeaning(args);
      Locate(record)
  }

  /** The constructor after the argument record is built. */
  function Locate(record: ArgRecord): (r: Result<Goal, InstanceError>)
    ensures r.Success? ==> "x" in record && record["x"].value == Number(r.value.x)
    ensures r.Success? ==> "y" in record && record["y"].value == Number(r.value.y)
    ensures r.Success? ==> "z" in record && record["z"].value == Number(r.value.z)
  {
    if |Coordinates| != |record| then Failure(WrongNumberOfArguments)
    else
      var miss := CheckParams(Coordinates, record, |Coordinates|);
      if miss.Some? then Failure(miss.value)
      else
        assert Matches(Coordinates[0], record) && Matches(Coordinates[1], record) && Matches(Coordinates[2], record);
        Success(Goal(record["x"].value.x, record["y"].value.x, record["z"].value.x))
  }

  /** Three distinct names `x`, `y` and `z`, each carrying a number. */
  predicate GoodCoordinates(args: seq<Arg>)
  {
    DistinctUpTo(ArgNames(args), |args|) && |args| == 3 &&
    (set a | a in args :: a.name) == {"x", "y", "z"} &&
    forall a :: a in args ==> a.value.Number?
  }

  /**
   * Construction succeeds exactly when there are three arguments with
   * distinct names, which are then `x`, `y` and `z`, all numbers.
   */
  lemma GoToBindingSucceeds(args: seq<Arg>)
    ensures GoToBinding(args).Success? <==> GoodCoordinates(args)
  {
    if GoToBinding(args).Success? {
      BindingSound(args);
    }
    if GoodCoordinates(args) {
      BindingComplete(args);
    }
  }

  lemma BindingSound(args: seq<Arg>)
    requires GoToBinding(args).Success?
    ensures GoodCoordinates(args)
  {
    BindingRecord(args);
    ArgsRecordMeaning(args);
    var record := ArgsRecord(args).value;
    CoordinateRecord(record);
    forall a | a in args
      ensures a.value.Number?
    {
      assert a.name in record.Keys && record[a.name] == a;
    }
  }

  /** A successful binding built a record of three entries that fill the three parameters. */
  lemma BindingRecord(args: seq<Arg>)
    requires GoToBinding(args).Success?
    ensures ArgsRecord(args).Success? && |ArgsRecord(args).value| == 3
    ensures forall i :: 0 <= i < 3 ==> Matches(Coordinates[i], ArgsRecord(args).value)
  {
    var record := ArgsRecord(args).value;
    assert CheckParams(Coordinates, record, |Coordinates|).None?;
  }

  /** Three entries that fill `x`, `y` and `z` are exactly those, each a number. */
  lemma CoordinateRecord(record: ArgRecord)
    requires |record| == 3 && forall i :: 0 <= i < 3 ==> Matches(Coordinates[i], record)
    ensures record.Keys == {"x", "y", "z"}
    ensures forall k :: k in record ==> record[k].value.Number?
  {
    assert Matches(Coordinates[0], record) && Matches(Coordinates[1], record) && Matches(Coordinates[2], record);
    assert {"x", "y", "z"} <= record.Keys;
    assert |{"x", "y", "z"}| == 3;
    SameSizeSubset({"x", "y", "z"}, record.Keys);
  }

  lemma BindingComplete(args: seq<Arg>)
    requires GoodCoordinates(args)
    ensures GoToBinding(args).Success?
  {
    assert "x" !in Inherited && "y" !in Inherited && "z" !in Inherited;
    forall a | a in args
      ensures a.name !in Inherited
    {
      assert a.name in (set b | b in args :: b.name);
    }
    ArgsRecordMeaning(args);
    var record := ArgsRecord(args).value;
    forall k | k in record
      ensures record[k].value.Number?
    {
      assert record[k] in args;
    }
    LocateSucceeds(record);
  }

  /**
   * An argument named like an inherited property is refused as a duplicate
   * before the coordinates are looked at.
   */
  lemma InheritedCoordinateTaken()
    ensures GoToBinding([Arg("x", Number(1.0)), Arg("y", Number(2.0)), Arg("constructor", Number(3.0))]) ==
      Failure(DuplicateArgument("constructor"))
  {
    var args := [Arg("x", Number(1.0)), Arg("y", Number(2.0)), Arg("constructor", Number(3.0))];
    assert ArgNames(args) == ["x", "y", "constructor"];
    assert ArgNames(args)[..1] == ["x"] && ArgNames(args)[..2] == ["x", "y"];
    assert FirstTaken(ArgNames(args), 2, Inherited) == None;
  }

  /** A record holding numbers under exactly `x`, `y` and `z` passes the checks. */
  lemma LocateSucceeds(record: ArgRecord)
    requires record.Keys == {"x", "y", "z"}
    requires forall k :: k in record ==> record[k].value.Number?
    ensures Locate(record).Success?
  {
    assert |record| == |record.Keys| == 3;
    forall i | 0 <= i < 3
      ensures Matches(Coordinates[i], record)
    {
      assert Coordinates[i].name in record;
    }
  }

  class GoToActionInstance {
    const id: string
    const args: ArgRecord
    const goal: Goal
    var state: InstanceState

    /** The part of construction that cannot fail; the state is `READY`. */
    constructor (id: string, args: ArgRecord, goal: Goal)
      ensures this.id == id && this.args == args && this.goal == goal && state == Ready
    {
      this.id := id;
      this.args := args;
      this.goal := goal;
      state := Ready;
    }

    /** `start`: only from `READY`, to `RUNNING` (the pathfinder is then given the goal). */
    method Start() returns (r: Outcome<InstanceError>, events: seq<Event>)
      modifies this
      ensures Reaction(r, state, events) == Perform(old(state), Command.Start)
    {
      if state != Ready {
        return Fail(IllegalState(Command.Start, state)), [];
      }
      state := Running;
      r, events := Pass, [Announce(Command.Start)];
    }

    /** `pause`: only from `RUNNING`, to `PAUSED` (the pathfinder is stopped). */
    method Pause() returns (r: Outcome<InstanceError>, events: seq<Event>)
      modifies this
      ensures Reaction(r, state, events) == Perform(old(state), Command.Pause)
    {
      if state != Running {
        return Fail(IllegalState(Command.Pause, state)), [];
      }
      state := Paused;
      r, events := Pass, [Announce(Command.Pause)];
    }

    /** `resume`: only from `PAUSED`, to `RUNNING`. */
    method Resume() returns (r: Outcome<InstanceError>, events: seq<Event>)
      modifies this
      ensures Reaction(r, state, events) == Perform(old(state), Command.Resume)
    {
      if state != Paused {
        return Fail(IllegalState(Command.Resume, state)), [];
      }
      state := Running;
      r, events := Pass, [Announce(Command.Resume)];
    }

    /** `cancel`: only from `RUNNING` or `PAUSED`, to `CANCELED`. */
    method Cancel() returns (r: Outcome<InstanceError>, events: seq<Event>)
      modifies this
      ensures Reaction(r, state, events) == Perform(old(state), Command.Cancel)
    {
      if state != Running && state != Paused {
        return Fail(IllegalState(Command.Cancel, state)), [];
      }
      state := Canceled;
      r, events := Pass, [Announce(Command.Cancel)];
    }

    /** The `goal_reached` handler: only a running instance succeeds. */
    method GoalReached() returns (events: seq<Event>)
      modifies this
      ensures (state, events) == OnGoalReached(old(state))
    {
      if state != Running {
        return [];
      }
      state := Succeeded;
      events := [Event("succeed", None)];
    }

    /** The `path_update` handler: a running instance fails when the pathfinder gives up. */
    method PathUpdate(status: string) returns (events: seq<Event>)
      modifies this
      ensures (state, events) == OnPathUpdate(old(state), status)
    {
      if state != Running {
        return [];
      }
      if status != "noPath" && status != "timeout" {
        return [];
      }
      var reason := if status == "noPath" then "cannot find a path to the goal"
                    else "take too long to find a path to the goal";
      state := Failed;
      events := [Event("fail", Some(reason))];
    }
  }

  /** What the `goal_reached` handler does to a state. */
  function OnGoalReached(s: InstanceState): (r: (InstanceState, seq<Event>))
    ensures s == Running ==> r == (Succeeded, [Event("succeed", None)])
    ensures s != Running ==> r == (s, [])
  {
    if s == Running then (Succeeded, [Event("succeed", None)]) else (s, [])
  }

  /** What the `path_update` handler does to a state. */
  function OnPathUpdate(s: InstanceState, status: string): (r: (InstanceState, seq<Event>))
    ensures r.0 != s <==> s == Running && GiveUpReason(status).Some?
    ensures r.0 != s ==> r == (Failed, [Event("fail", GiveUpReason(status))])
    ensures r.0 == s ==> r.1 == []
  {
    if s == Running && GiveUpReason(status).Some? then (Failed, [Event("fail", GiveUpReason(status))]) else (s, [])
  }

  /** Everything that can happen to an instance: a client call or a pathfinder report. */
  datatype Input = Call(command: Command) | Reached | Update(status: string)

  function React(s: InstanceState, input: Input): InstanceState
  {
    match input
    case Call(c) => Perform(s, c).state
    case Reached => OnGoalReached(s).0
    case Update(status) => OnPathUpdate(s, status).0
  }

  function ReplayInputs(s: InstanceState, inputs: seq<Input>): InstanceState
    decreases |inputs|
  {
    if inputs == [] then s else ReplayInputs(React(s, inputs[0]), inputs[1..])
  }

  /** Once canceled, succeeded or failed, no call and no pathfinder report changes the state. */
  lemma {:induction false} SettledStaysSettled(s: InstanceState, inputs: seq<Input>)
    requires Settled(s)
    decreases |inputs|
    ensures ReplayInputs(s, inputs) == s
  {
    if inputs != [] {
      SettledStaysSettled(s, inputs[1..]);
    }
  }

  /** An instance only succeeds or fails by way of running: from `READY` it must first be started. */
  lemma {:induction false} SettlesOnlyAfterStart(inputs: seq<Input>)
    requires Call(Command.Start) !in inputs
    decreases |inputs|
    ensures ReplayInputs(Ready, inputs) == Ready
  {
    if inputs != [] {
      assert inputs[0] != Call(Command.Start);
      assert React(Ready, inputs[0]) == Ready;
      SettlesOnlyAfterStart(inputs[1..]);
    }
  }

  /**
   * The constructor as a whole: the argument record, the count, the
   * parameter loop, then the coordinates.
   */
  method NewGoToActionInstance(id: string, args: seq<Arg>) returns (r: Result<GoToActionInstance, InstanceError>)
    ensures r.Failure? <==> GoToBinding(args).Failure?
    ensures r.Failure? ==> r.error == GoToBinding(args).error
    ensures r.Success? ==> fresh(r.value) && r.value.state == Ready && r.value.goal == GoToBinding(args).value
  {
    var recorded := RecordArgs(args);
    if recorded.Failure? {
      return Failure(recorded.error);
    }
    var record := recorded.value;
    if |Coordinates| != |record| {
      return Failure(WrongNumberOfArguments);
    }
    var miss := CheckArguments(Coordinates, record);
    if miss.Some? {
      return Failure(miss.value);
    }
    assert Matches(Coordinates[0], record) && Matches(Coordinates[1], record) && Matches(Coordinates[2], record);
    var goal := Goal(record["x"].value.x, record["y"].value.x, record["z"].value.x);
    var instance := new GoToActionInstance(id, record, goal);
    r := Success(instance);
  }
}
