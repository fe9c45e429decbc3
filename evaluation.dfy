/**
 * What evaluating a program does to the bot's evaluation record: the state
 * (`ready`, `running`, `error`), the list of action results and the action
 * under way. The four game actions are an oracle: `reply(n)` is what the game
 * answers to the action called when `n` results have been recorded.
 */
module Evaluation {
  import opened Wrappers
  import opened Values
  import opened Programs

  datatype EvalState = Ready | Running | Error

  /** `{type, message}` as a game action reports it. */
  datatype ActionResult = ActionResult(kind: string, message: Option<string>)

  /** A game action either returns a result or raises. */
  datatype ActionReply = Returned(result: ActionResult) | Raised

  type Oracle = nat -> ActionReply

  /** One entry of the results list: `{action: {name, params}, result}`. */
  datatype EvalEntry = EvalEntry(name: string, params: map<string, Value>, result: ActionResult)

  /** The bot's evaluation fields. */
  datatype Machine = Machine(state: EvalState, results: seq<EvalEntry>, current: Option<Program>)

  datatype EvalError =
    | UnknownActionName(name: string)
    | ActionRaised(name: string)
    | ProgramFault(error: ProgramError)

  /** The machine after a piece of evaluation, and the exception it ended with, if any. */
  datatype Run = Run(machine: Machine, thrown: Option<EvalError>)

  const ErrorKind := "error"

  /** The action names the evaluator dispatches on. */
  const KnownActions: set<string> := {"collectBlock", "craftItem", "explore", "killEntity"}

  /** `evalActionProgram_`: one action, skipped unless the state is `running`. */
  function EvalAction(m: Machine, name: string, params: map<string, Value>, reply: Oracle): (r: Run)
    ensures m.state != Running ==> r == Run(m, None)
    ensures m.state == Running && r.thrown.None? ==>
      r.machine.current.None? &&
      |r.machine.results| == |m.results| + 1 && r.machine.results[..|m.results|] == m.results &&
      var e := r.machine.results[|m.results|];
      e.name == name && e.params == params && reply(|m.results|) == Returned(e.result) &&
      (r.machine.state == Error <==> e.result.kind == ErrorKind) &&
      (r.machine.state == Running <==> e.result.kind != ErrorKind)
    ensures m.state == Running && r.thrown.Some? ==>
      r.machine == m.(current := Some(Action(name, params))) &&
      (name !in KnownActions <==> r.thrown == Some(UnknownActionName(name)))
  {
    if m.state != Running then Run(m, None)
    else
      var started := m.(current := Some(Action(name, params)));
      if name !in KnownActions then Run(started, Some(UnknownActionName(name)))
      else
        match reply(|m.results|)
        case Raised => Run(started, Some(ActionRaised(name)))
        case Returned(result) =>
          var state := if result.kind == ErrorKind then Error else Running;
          Run(Machine(state, m.results + [EvalEntry(name, params, result)], None), None)
  }

  /** `evalProgram_`: dispatch on the kind of program; a bare-interface node throws from `getType`. */
  function EvalProgram(m: Machine, p: Program, reply: Oracle): Run
    decreases p, 1, 0
  {
    match p
    case Action(name, params) => EvalAction(m, name, params, reply)
    case Sequence(items) => EvalItems(m, p, |items|, reply)
    case Base => Run(m, Some(ProgramFault(GetType(p).error)))
  }

  /** `evalSequenceProgram_` over the first `k` subprograms; an exception abandons the rest. */
  function EvalItems(m: Machine, p: Program, k: nat, reply: Oracle): Run
    requires p.Sequence? && k <= |p.items|
    decreases p, 0, k
  {
    if k == 0 then Run(m, None)
    else
      var r := EvalItems(m, p, k - 1, reply);
      if r.thrown.Some? then r else EvalProgram(r.machine, p.items[k - 1], reply)
  }

  /**
   * `eval`: ignored while a program is running; otherwise clear the record,
   * run, swallow any exception, and settle `running` to `ready`.
   */
  function Eval(m: Machine, p: Program, reply: Oracle): Machine
  {
    if m.state == Running then m
    else
      var r := EvalProgram(Machine(Running, [], None), p, reply);
      r.machine.(state := if r.machine.state == Running then Ready else r.machine.state)
  }

  /** Every recorded result names a dispatched action; only the last one may be an error, and it is iff the state is `error`. */
  predicate Coherent(m: Machine)
  {
    (forall i :: 0 <= i < |m.results| ==> m.results[i].name in KnownActions) &&
    (forall i :: 0 <= i < |m.results| - 1 ==> m.results[i].result.kind != ErrorKind) &&
    (m.state == Error <==> |m.results| > 0 && m.results[|m.results| - 1].result.kind == ErrorKind)
  }

  /** Outside the `running` state evaluation changes nothing at all. */
  lemma {:induction false} InertUnlessRunning(m: Machine, p: Program, reply: Oracle)
    requires m.state != Running
    decreases p, 1, 0
    ensures EvalProgram(m, p, reply).machine == m
  {
    if p.Sequence? {
      InertItems(m, p, |p.items|, reply);
    }
  }

  lemma {:induction false} InertItems(m: Machine, p: Program, k: nat, reply: Oracle)
    requires m.state != Running && p.Sequence? && k <= |p.items|
    decreases p, 0, k
    ensures EvalItems(m, p, k, reply).machine == m
  {
    if k > 0 {
      InertItems(m, p, k - 1, reply);
      if EvalItems(m, p, k - 1, reply).thrown.None? {
        InertUnlessRunning(m, p.items[k - 1], reply);
      }
    }
  }

  /**
   * Evaluation only appends results, never leaves `error` once entered, and
   * keeps the record coherent: after an error result no later action adds a
   * result.
   */
  lemma {:induction false} EvalKeepsCoherent(m: Machine, p: Program, reply: Oracle)
    requires Coherent(m)
    decreases p, 1, 0
    ensures Coherent(EvalProgram(m, p, reply).machine)
    ensures m.results <= EvalProgram(m, p, reply).machine.results
    ensures m.state == Error ==> EvalProgram(m, p, reply).machine.state == Error
    ensures m.state != Ready ==> EvalProgram(m, p, reply).machine.state != Ready
  {
    match p
    case Action(name, params) =>
    case Sequence(items) =>
      ItemsKeepCoherent(m, p, |items|, reply);
    case Base =>
  }

  lemma {:induction false} ItemsKeepCoherent(m: Machine, p: Program, k: nat, reply: Oracle)
    requires Coherent(m) && p.Sequence? && k <= |p.items|
    decreases p, 0, k
    ensures Coherent(EvalItems(m, p, k, reply).machine)
    ensures m.results <= EvalItems(m, p, k, reply).machine.results
    ensures m.state == Error ==> EvalItems(m, p, k, reply).machine.state == Error
    ensures m.state != Ready ==> EvalItems(m, p, k, reply).machine.state != Ready
  {
    if k > 0 {
      ItemsKeepCoherent(m, p, k - 1, reply);
      var r := EvalItems(m, p, k - 1, reply);
      if r.thrown.None? {
        EvalKeepsCoherent(r.machine, p.items[k - 1], reply);
      }
    }
  }

  /** Once a subprogram throws, the remaining siblings are not evaluated. */
  lemma {:induction false} ThrowAbandonsRest(m: Machine, p: Program, k: nat, k': nat, reply: Oracle)
    requires p.Sequence? && k <= k' <= |p.items|
    requires EvalItems(m, p, k, reply).thrown.Some?
    decreases k'
    ensures EvalItems(m, p, k', reply) == EvalItems(m, p, k, reply)
  {
    if k' > k {
      ThrowAbandonsRest(m, p, k, k' - 1, reply);
    }
  }

  /**
   * Subprograms run in order: evaluating `xs + ys` is evaluating `xs` and,
   * unless it threw, then `ys` from where `xs` left the machine.
   */
  lemma SequenceAppend(m: Machine, xs: seq<Program>, ys: seq<Program>, reply: Oracle)
    ensures
      var r := EvalProgram(m, Sequence(xs), reply);
      EvalProgram(m, Sequence(xs + ys), reply) ==
        (if r.thrown.Some? then r else EvalProgram(r.machine, Sequence(ys), reply))
  {
    ItemsAppend(m, xs, ys, |ys|, reply);
    assert (xs + ys)[..|xs| + |ys|] == xs + ys;
  }

  lemma {:induction false} ItemsAppend(m: Machine, xs: seq<Program>, ys: seq<Program>, j: nat, reply: Oracle)
    requires j <= |ys|
    decreases j
    ensures
      var r := EvalItems(m, Sequence(xs), |xs|, reply);
      EvalItems(m, Sequence(xs + ys), |xs| + j, reply) ==
        (if r.thrown.Some? then r else EvalItems(r.machine, Sequence(ys), j, reply))
  {
    if j == 0 {
      ItemsPrefix(m, xs, ys, |xs|, reply);
    } else {
      ItemsAppend(m, xs, ys, j - 1, reply);
      assert (xs + ys)[|xs| + j - 1] == ys[j - 1];
    }
  }

  lemma {:induction false} ItemsPrefix(m: Machine, xs: seq<Program>, ys: seq<Program>, k: nat, reply: Oracle)
    requires k <= |xs|
    decreases k
    ensures EvalItems(m, Sequence(xs + ys), k, reply) == EvalItems(m, Sequence(xs), k, reply)
  {
    if k > 0 {
      ItemsPrefix(m, xs, ys, k - 1, reply);
      assert (xs + ys)[k - 1] == xs[k - 1];
    }
  }

  /**
   * A started evaluation never ends `running`; it ends `error` exactly when
   * the last recorded result is an error, and no earlier result is one.
   */
  lemma EvalSettles(m: Machine, p: Program, reply: Oracle)
    requires m.state != Running
    ensures Eval(m, p, reply).state != Running
    ensures Coherent(Eval(m, p, reply))
  {
    EvalKeepsCoherent(Machine(Running, [], None), p, reply);
  }

  /**
   * An unknown action name throws before any result is recorded: the rest of
   * the sequence is abandoned and the evaluation ends `ready` with the action
   * still marked as current.
   */
  lemma UnknownActionLeavesReady(m: Machine, name: string, params: map<string, Value>, rest: seq<Program>, reply: Oracle)
    requires m.state != Running && name !in KnownActions
    ensures Eval(m, Sequence([Action(name, params)] + rest), reply) == Machine(Ready, [], Some(Action(name, params)))
  {
    var start := Machine(Running, [], None);
    var one := Sequence([Action(name, params)]);
    SequenceAppend(start, [Action(name, params)], rest, reply);
    assert EvalItems(start, one, 0, reply) == Run(start, None);
    assert EvalItems(start, one, 1, reply) == EvalProgram(start, Action(name, params), reply);
  }
}
