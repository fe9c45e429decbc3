/**
 * The legacy `GoToAction`: a status of `STOPPED`, `RUNNING` or `PAUSED`
 * driven by `start`, `pause`, `resume` and `stop`, and by the pathfinder's
 * reports, each of which stops the action.
 */
module GoToActions {
  import opened Wrappers

  datatype ActionStatus = Stopped | Running | Paused

  datatype ActionError = NonStoppedStart | NonRunningPause | NonPausedResume | StoppedStop

  /** A client call or a pathfinder report. */
  datatype Input = Start | Pause | Resume | Stop | Reached | Update(status: string)

  /** What an input yields: its outcome, the status after it and the events emitted, in order. */
  datatype Effect = Effect(outcome: Outcome<ActionError>, status: ActionStatus, events: seq<string>)

  /** The pathfinder statuses that count as giving up. */
  predicate GivesUp(status: string)
  {
    status == "noPath" || status == "timeout"
  }

  /**
   * One input: each call has one status it may not start from and throws
   * there; both reports stop the action whatever its status, announcing
   * `stopped` first.
   */
  function Apply(s: ActionStatus, input: Input): (e: Effect)
    ensures e.outcome.Fail? ==> e.status == s && e.events == []
    ensures e.outcome.Fail? <==>
      (input == Start && s != Stopped) || (input == Pause && s != Running) ||
      (input == Resume && s != Paused) || (input == Stop && s == Stopped)
    ensures input == Reached ==> e == Effect(Pass, Stopped, ["stopped", "finished"])
    ensures input.Update? ==> e == (if GivesUp(input.status) then Effect(Pass, Stopped, ["stopped", "error"]) else Effect(Pass, s, []))
  {
    match input
    case Start => if s != Stopped then Effect(Fail(NonStoppedStart), s, []) else Effect(Pass, Running, ["started"])
    case Pause => if s != Running then Effect(Fail(NonRunningPause), s, []) else Effect(Pass, Paused, ["paused"])
    case Resume => if s != Paused then Effect(Fail(NonPausedResume), s, []) else Effect(Pass, Running, ["resumed"])
    case Stop => if s == Stopped then Effect(Fail(StoppedStop), s, []) else Effect(Pass, Stopped, ["stopped"])
    case Reached => Effect(Pass, Stopped, ["stopped", "finished"])
    case Update(status) => if GivesUp(status) then Effect(Pass, Stopped, ["stopped", "error"]) else Effect(Pass, s, [])
  }

  function Replay(s: ActionStatus, inputs: seq<Input>): ActionStatus
    decreases |inputs|
  {
    if inputs == [] then s else Replay(Apply(s, inputs[0]).status, inputs[1..])
  }

  /** A stopped action leaves `STOPPED` only through an accepted `start`. */
  lemma {:induction false} LeavesStoppedOnlyByStart(inputs: seq<Input>)
    requires Replay(Stopped, inputs) != Stopped
    decreases |inputs|
    ensures Start in inputs
  {
    if Apply(Stopped, inputs[0]).status == Stopped {
      LeavesStoppedOnlyByStart(inputs[1..]);
      var i :| 0 <= i < |inputs[1..]| && inputs[1..][i] == Start;
      assert inputs[i + 1] == Start;
    } else {
      assert inputs[0] == Start;
    }
  }

  class GoToAction {
    const name: string
    const description: string
    var status: ActionStatus

    /** A new action is `STOPPED`. */
    constructor (name: string, description: string)
      ensures this.name == name && this.description == description && status == Stopped
    {
      this.name := name;
      this.description := description;
      status := Stopped;
    }

    /** `start`: only from `STOPPED`, to `RUNNING`. */
    method Start() returns (r: Outcome<ActionError>, events: seq<string>)
      modifies this
      ensures Effect(r, status, events) == Apply(old(status), Input.Start)
    {
      if status != Stopped {
        return Fail(NonStoppedStart), [];
      }
      status := Running;
      r, events := Pass, ["started"];
    }

    /** `pause`: only from `RUNNING`, to `PAUSED`. */
    method Pause() returns (r: Outcome<ActionError>, events: seq<string>)
      modifies this
      ensures Effect(r, status, events) == Apply(old(status), Input.Pause)
    {
      if status != Running {
        return Fail(NonRunningPause), [];
      }
      status := Paused;
      r, events := Pass, ["paused"];
    }

    /** `resume`: only from `PAUSED`, to `RUNNING`. */
    method Resume() returns (r: Outcome<ActionError>, events: seq<string>)
      modifies this
      ensures Effect(r, status, events) == Apply(old(status), Input.Resume)
    {
      if status != Paused {
        return Fail(NonPausedResume), [];
      }
      status := Running;
      r, events := Pass, ["resumed"];
    }

    /** `stop`: from any status but `STOPPED`, to `STOPPED`. */
    method Stop() returns (r: Outcome<ActionError>, events: seq<string>)
      modifies this
      ensures Effect(r, status, events) == Apply(old(status), Input.Stop)
    {
      if status == Stopped {
        return Fail(StoppedStop), [];
      }
      status := Stopped;
      r, events := Pass, ["stopped"];
    }

    /** The `goal_reached` handler: stop, announcing `stopped` and then `finished`. */
    method GoalReached() returns (events: seq<string>)
      modifies this
      ensures Effect(Pass, status, events) == Apply(old(status), Reached)
    {
      status := Stopped;
      events := ["stopped", "finished"];
    }

    /** The `path_update` handler: on `noPath` or `timeout`, stop, announcing `stopped` and then `error`. */
    method PathUpdate(update: string) returns (events: seq<string>)
      modifies this
      ensures Effect(Pass, status, events) == Apply(old(status), Update(update))
    {
      if update != "noPath" && update != "timeout" {
        return [];
      }
      status := Stopped;
      events := ["stopped", "error"];
    }
  }
}
