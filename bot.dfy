/**
 * The bot's program evaluator as an object: `eval` and its helpers update the
 * evaluation state, the results list and the current action in place, and
 * each method is proved to act as the matching function of `Evaluation`.
 */
module Bots {
  import opened Wrappers
  import opened Values
  import opened Programs
  import opened Evaluation

  class Bot {
    var state: EvalState
    var results: seq<EvalEntry>
    var current: Option<Program>

    /** A new bot is `ready`, with no results and no current action. */
    constructor ()
      ensures state == Ready && results == [] && current == None
    {
      state := Ready;
      results := [];
      current := None;
    }

    /** The evaluation fields as one value. */
    function Record(): Machine
      reads this
    {
      Machine(state, results, current)
    }

    /**
     * `eval`: a call while a program runs changes nothing; otherwise the
     * record is cleared, the program runs with any exception swallowed, and
     * the bot ends `ready` or `error`, the latter exactly when the last
     * recorded result is an error.
     */
    method Eval(p: Program, reply: Oracle)
      modifies this
      ensures old(state) == Running ==> Record() == old(Record())
      ensures Record() == Evaluation.Eval(old(Record()), p, reply)
      ensures old(state) != Running ==> state != Running && Coherent(Record())
    {
      if state == Running {
        return;
      }
      ghost var before := Record();
      current := None;
      results := [];
      state := Running;
      var _ := EvalProgram(p, reply);
      if state == Running {
        state := Ready;
      }
      EvalSettles(before, p, reply);
    }

    /** `evalProgram_`: run an action or a sequence; a bare-interface node throws. */
    method EvalProgram(p: Program, reply: Oracle) returns (thrown: Option<EvalError>)
      modifies this
      decreases p, 1
      ensures Run(Record(), thrown) == Evaluation.EvalProgram(old(Record()), p, reply)
    {
      match p
      case Action(name, params) =>
        thrown := EvalAction(name, params, reply);
      case Sequence(_) =>
        thrown := EvalSequence(p, reply);
      case Base =>
        thrown := Some(ProgramFault(GetType(p).error));
    }

    /**
     * `evalActionProgram_`: skipped unless `running`; marks the action
     * current, asks the game, then clears it and records one result, turning
     * the state to `error` on an error result.
     */
    method EvalAction(name: string, params: map<string, Value>, reply: Oracle) returns (thrown: Option<EvalError>)
      modifies this
      ensures Run(Record(), thrown) == Evaluation.EvalAction(old(Record()), name, params, reply)
    {
      if state != Running {
        return None;
      }
      current := Some(Action(name, params));
      if name !in KnownActions {
        return Some(UnknownActionName(name));
      }
      var answer := reply(|results|);
      if answer.Raised? {
        return Some(ActionRaised(name));
      }
      current := None;
      results := results + [EvalEntry(name, params, answer.result)];
      if answer.result.kind == ErrorKind {
        state := Error;
      }
      thrown := None;
    }

    /** `evalSequenceProgram_`: the subprograms in order; an exception leaves the loop. */
    method EvalSequence(p: Program, reply: Oracle) returns (thrown: Option<EvalError>)
      requires p.Sequence?
      modifies this
      decreases p, 0
      ensures Run(Record(), thrown) == EvalItems(old(Record()), p, |p.items|, reply)
    {
      for i := 0 to |p.items|
        invariant Run(Record(), None) == EvalItems(old(Record()), p, i, reply)
      {
        thrown := EvalProgram(p.items[i], reply);
        if thrown.Some? {
          ThrowAbandonsRest(old(Record()), p, i + 1, |p.items|, reply);
          return;
        }
      }
      thrown := None;
    }

    /** `getEvalResults`: the results list as a value, which later evaluation cannot alter. */
    method GetEvalResults() returns (r: seq<EvalEntry>)
      ensures r == results
    {
      r := results;
    }
  }
}
