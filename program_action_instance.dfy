/**
 * An instance of a user-defined program action: its constructor checks the
 * arguments against the declared parameters and binds each parameter's
 * `$variable` to its argument's value; the program's invocations have their
 * `$variable` arguments replaced by those values.
 */
module ProgramActions {
  import opened Wrappers
  import opened Values
  import opened ActionInstances

  /** A declared parameter of a program action and the variable it binds. */
  datatype ParameterWithVariable = ParameterWithVariable(name: string, kind: string, variable: string)

  /** What a successful constructor keeps: the argument record and the variable bindings. */
  datatype Binding = Binding(record: ArgRecord, variables: map<string, Value>)

  function ParamNames(params: seq<ParameterWithVariable>): seq<string>
  {
    Names(params, (p: ParameterWithVariable) => p.name)
  }

  /** The parameters as plain name/type pairs, for the shared argument check. */
  function Plain(params: seq<ParameterWithVariable>): (plain: seq<Parameter>)
    ensures |plain| == |params|
    ensures forall i :: 0 <= i < |params| ==> plain[i] == Parameter(params[i].name, params[i].kind)
  {
    seq(|params|, i requires 0 <= i < |params| => Parameter(params[i].name, params[i].kind))
  }

  /** The variable loop over the first `k` parameters: the first badly named variable, or the bindings. */
  function BindVariables(params: seq<ParameterWithVariable>, record: ArgRecord, k: nat): Result<map<string, Value>, InstanceError>
    requires k <= |params|
  {
    if k == 0 then Success(map[])
    else
      var r := BindVariables(params, record, k - 1);
      if r.Failure? then r
      else
        var p := params[k - 1];
        if !IsVariableName(p.variable) then Failure(BadVariable(p.variable))
        else Success(r.value[p.variable := Read(record, p.name)])
  }

  /**
   * The `ProgramActionInstance` constructor: the argument record, then
   * duplicate parameters, the count, each parameter's argument and type, and
   * the variables.
   */
  function Instantiate(args: seq<Arg>, params: seq<ParameterWithVariable>): Result<Binding, InstanceError>
  {
    match ArgsRecord(args)
    case Failure(e) => Failure(e)
    case Success(record) => Construct(record, params)
  }

  /** The constructor after the argument record is built. */
  function Construct(record: ArgRecord, params: seq<ParameterWithVariable>): Result<Binding, InstanceError>
  {
    var dup := FirstTaken(ParamNames(params), |params|, {});
    if dup.Some? then Failure(DuplicateParameter(dup.value))
    else if |params| != |record| then Failure(WrongNumberOfArguments)
    else
      var miss := CheckParams(Plain(params), record, |params|);
      if miss.Some? then Failure(miss.value)
      else
        match BindVariables(params, record, |params|)
        case Failure(e) => Failure(e)
        case Success(variables) => Success(Binding(record, variables))
  }

  /** Binding the first `k` variables fails exactly when one of them lacks its `$`. */
  lemma {:induction false} BindSucceeds(params: seq<ParameterWithVariable>, record: ArgRecord, k: nat)
    requires k <= |params|
    ensures BindVariables(params, record, k).Success? <==> forall i :: 0 <= i < k ==> IsVariableName(params[i].variable)
  {
    if k > 0 {
      BindSucceeds(params, record, k - 1);
    }
  }

  /** The variables bound are exactly those the first `k` parameters declare. */
  lemma {:induction false} BindKeys(params: seq<ParameterWithVariable>, record: ArgRecord, k: nat)
    requires k <= |params|
    requires BindVariables(params, record, k).Success?
    ensures forall v :: v in BindVariables(params, record, k).value <==> exists i :: 0 <= i < k && params[i].variable == v
  {
    if k > 0 {
      BindKeys(params, record, k - 1);
    }
  }

  /** No parameter after the `i`-th, among the first `k`, declares the same variable. */
  predicate LastToBind(params: seq<ParameterWithVariable>, i: nat, k: nat)
    requires i < k <= |params|
  {
    forall j :: i < j < k ==> params[j].variable != params[i].variable
  }

  /** A variable holds what the record reads under the name of the last parameter declaring it. */
  lemma {:induction false} BindValue(params: seq<ParameterWithVariable>, record: ArgRecord, k: nat, i: nat)
    requires i < k <= |params|
    requires BindVariables(params, record, k).Success? && LastToBind(params, i, k)
    ensures params[i].variable in BindVariables(params, record, k).value
    ensures BindVariables(params, record, k).value[params[i].variable] == Read(record, params[i].name)
  {
    if i < k - 1 {
      BindValue(params, record, k - 1, i);
    }
  }

  /**
   * Each parameter is matched by an argument of its name and `typeof`; a
   * parameter named like an inherited property is matched by that property,
   * whose `value` is `undefined`.
   */
  predicate ArgumentsMatch(args: seq<Arg>, params: seq<ParameterWithVariable>)
  {
    forall i :: 0 <= i < |params| ==>
      if params[i].name in Inherited then params[i].kind == "undefined"
      else exists a :: a in args && a.name == params[i].name && TypeOf(a.value) == params[i].kind
  }

  /**
   * Construction succeeds exactly when the arguments have distinct names, none
   * of them inherited, the parameters have distinct names, there are as many
   * of each, every parameter is matched with the right type, and every
   * variable starts with `$`.
   */
  lemma InstantiateSucceeds(args: seq<Arg>, params: seq<ParameterWithVariable>)
    ensures Instantiate(args, params).Success? <==>
      DistinctUpTo(ArgNames(args), |args|) &&
      (forall a :: a in args ==> a.name !in Inherited) &&
      DistinctUpTo(ParamNames(params), |params|) &&
      |params| == |args| &&
      ArgumentsMatch(args, params) &&
      forall i :: 0 <= i < |params| ==> IsVariableName(params[i].variable)
  {
    ArgsRecordMeaning(args);
    if ArgsRecord(args).Success? {
      var record := ArgsRecord(args).value;
      assert ArgumentsMatch(args, params) <==> forall i :: 0 <= i < |params| ==> Matches(Plain(params)[i], record) by {
        if ArgumentsMatch(args, params) {
          forall i | 0 <= i < |params|
            ensures Matches(Plain(params)[i], record)
          {
            if params[i].name !in Inherited {
              var a :| a in args && a.name == params[i].name && TypeOf(a.value) == params[i].kind;
            } else {
              assert params[i].name !in record;
            }
          }
        }
        if forall i :: 0 <= i < |params| ==> Matches(Plain(params)[i], record) {
          forall i | 0 <= i < |params|
            ensures if params[i].name in Inherited then params[i].kind == "undefined"
              else exists a :: a in args && a.name == params[i].name && TypeOf(a.value) == params[i].kind
          {
            assert Matches(Plain(params)[i], record);
            if params[i].name in Inherited {
              assert params[i].name !in record;
            } else {
              var a := record[params[i].name];
              assert a.name == params[i].name;
            }
          }
        }
      }
      if FirstTaken(ParamNames(params), |params|, {}).None? && |params| == |record| &&
         CheckParams(Plain(params), record, |params|).None? {
        BindSucceeds(params, record, |params|);
      }
    }
  }

  /** What a successful construction has checked, and what it bound. */
  lemma InstantiateChecked(args: seq<Arg>, params: seq<ParameterWithVariable>)
    requires Instantiate(args, params).Success?
    ensures ArgsRecord(args).Success?
    ensures Instantiate(args, params).value.record == ArgsRecord(args).value
    ensures DistinctUpTo(ParamNames(params), |params|)
    ensures |params| == |ArgsRecord(args).value|
    ensures forall i :: 0 <= i < |params| ==> Matches(Plain(params)[i], ArgsRecord(args).value)
    ensures Instantiate(args, params).value.variables == BindVariables(params, ArgsRecord(args).value, |params|).value
  {
    ConstructChecked(ArgsRecord(args).value, params);
  }

  lemma ConstructChecked(record: ArgRecord, params: seq<ParameterWithVariable>)
    requires Construct(record, params).Success?
    ensures Construct(record, params).value.record == record
    ensures DistinctUpTo(ParamNames(params), |params|)
    ensures |params| == |record|
    ensures forall i :: 0 <= i < |params| ==> Matches(Plain(params)[i], record)
    ensures Construct(record, params).value.variables == BindVariables(params, record, |params|).value
  {
    assert FirstTaken(ParamNames(params), |params|, {}).None?;
    assert CheckParams(Plain(params), record, |params|).None?;
  }

  /**
   * On success, when no parameter is named like an inherited property, the
   * parameters and the arguments correspond one to one: every argument is
   * claimed by a parameter of its name.
   */
  lemma ArgumentsClaimed(args: seq<Arg>, params: seq<ParameterWithVariable>)
    requires Instantiate(args, params).Success?
    requires forall i :: 0 <= i < |params| ==> params[i].name !in Inherited
    ensures forall a :: a in args ==> exists i :: 0 <= i < |params| && params[i].name == a.name
  {
    InstantiateChecked(args, params);
    ArgsRecordMeaning(args);
    var record := ArgsRecord(args).value;
    forall i | 0 <= i < |params|
      ensures params[i].name in record
    {
      assert Matches(Plain(params)[i], record);
    }
    NamesClaimKeys(params, record);
    forall a | a in args
      ensures exists i :: 0 <= i < |params| && params[i].name == a.name
    {
      assert a.name in record;
    }
  }

  /** Distinct parameter names, each a key of a record of the same size, claim every key. */
  lemma NamesClaimKeys(params: seq<ParameterWithVariable>, record: ArgRecord)
    requires DistinctUpTo(ParamNames(params), |params|) && |params| == |record|
    requires forall i :: 0 <= i < |params| ==> params[i].name in record
    ensures forall n :: n in record ==> exists i :: 0 <= i < |params| && params[i].name == n
  {
    var names := ParamNames(params);
    assert |record.Keys| == |record|;
    assert forall i :: 0 <= i < |params| ==> names[i] in record.Keys;
    DistinctCover(names, record.Keys);
    ElementsUpToMembers(names, |params|);
    assert names[..|params|] == names;
    forall n | n in record
      ensures exists i :: 0 <= i < |params| && params[i].name == n
    {
      assert n in names;
      var i :| 0 <= i < |params| && names[i] == n;
    }
  }

  /**
   * On success a variable is bound to the value of the argument named by the
   * last parameter declaring it, or to `undefined` when that parameter is
   * named like an inherited property.
   */
  lemma VariableBound(args: seq<Arg>, params: seq<ParameterWithVariable>, i: nat)
    requires Instantiate(args, params).Success?
    requires i < |params| && LastToBind(params, i, |params|)
    ensures params[i].variable in Instantiate(args, params).value.variables
    ensures params[i].name in Inherited ==>
      Instantiate(args, params).value.variables[params[i].variable] == Undefined
    ensures params[i].name !in Inherited ==> exists a :: (a in args && a.name == params[i].name &&
      Instantiate(args, params).value.variables[params[i].variable] == a.value)
  {
    InstantiateChecked(args, params);
    ArgsRecordMeaning(args);
    var record := ArgsRecord(args).value;
    BindValue(params, record, |params|, i);
    if params[i].name in Inherited {
      assert params[i].name !in record;
    } else {
      assert Matches(Plain(params)[i], record);
      var a := record[params[i].name];
      assert a in args && a.name == params[i].name;
    }
  }

  /**
   * A parameter named like an inherited property finds that property, whose
   * `value` is `undefined`: a `number` parameter `toString` is mistyped, not
   * missing.
   */
  lemma InheritedParameterMistyped()
    ensures Instantiate([Arg("a", Number(1.0))], [ParameterWithVariable("toString", "number", "$t")]) ==
      Failure(WrongType("toString"))
  {
    var args := [Arg("a", Number(1.0))];
    var params := [ParameterWithVariable("toString", "number", "$t")];
    assert ArgNames(args) == ["a"];
    assert "a" !in Inherited;
    assert FirstTaken(ArgNames(args), 1, Inherited) == None;
    assert ArgsRecord(args) == Success(map["a" := args[0]]);
    assert ParamNames(params) == ["toString"];
    assert Plain(params) == [Parameter("toString", "number")];
  }

  /**
   * A parameter named like an inherited property, of type `undefined`, is
   * matched with no argument of its name: the one argument `a` is then
   * claimed by no parameter, and the variable is bound to `undefined`.
   */
  lemma InheritedParameterUnclaimed()
    ensures var args := [Arg("a", Number(1.0))];
      var params := [ParameterWithVariable("toString", "undefined", "$t")];
      Instantiate(args, params) == Success(Binding(map["a" := args[0]], map["$t" := Undefined])) &&
      !exists i :: 0 <= i < |params| && params[i].name == "a"
  {
    var args := [Arg("a", Number(1.0))];
    var params := [ParameterWithVariable("toString", "undefined", "$t")];
    assert ArgNames(args) == ["a"];
    assert "a" !in Inherited;
    assert FirstTaken(ArgNames(args), 1, Inherited) == None;
    assert ArgsRecord(args) == Success(map["a" := args[0]]);
    assert ParamNames(params) == ["toString"];
    assert Plain(params) == [Parameter("toString", "undefined")];
  }

  /** An argument whose value is a `$`-string names a variable. */
  predicate RefersToVariable(a: Arg)
  {
    a.value.Str? && IsVariableName(a.value.s)
  }

  /** `this.variables[name] === undefined`: never bound, or bound to `undefined`. */
  predicate Unbound(variables: map<string, Value>, name: string)
  {
    name !in variables || variables[name] == Undefined
  }

  /**
   * `replaceVariables`: each `$`-string argument takes its variable's value,
   * every other argument is kept; the first unbound variable throws. Length,
   * order and names are preserved.
   */
  function ReplaceVariables(args: seq<Arg>, variables: map<string, Value>): (r: Result<seq<Arg>, InstanceError>)
    ensures r.Failure? <==> exists i :: 0 <= i < |args| && RefersToVariable(args[i]) && Unbound(variables, args[i].value.s)
    ensures r.Failure? ==> exists i :: (0 <= i < |args| && RefersToVariable(args[i]) &&
      Unbound(variables, args[i].value.s) && r.error == UndefinedVariable(args[i].value.s))
    ensures r.Success? ==> (|r.value| == |args| &&
      forall i :: 0 <= i < |args| ==>
        r.value[i].name == args[i].name &&
        (RefersToVariable(args[i]) ==> r.value[i].value == variables[args[i].value.s]) &&
        (!RefersToVariable(args[i]) ==> r.value[i] == args[i]))
  {
    if args == [] then Success([])
    else
      var a := args[0];
      var head: Result<Arg, InstanceError> :=
        if !RefersToVariable(a) then Success(a)
        else if !Unbound(variables, a.value.s) then Success(a.(value := variables[a.value.s]))
        else Failure(UndefinedVariable(a.value.s));
      if head.Failure? then Failure(head.error)
      else
        var tail := ReplaceVariables(args[1..], variables);
        if tail.Failure? then tail
        else
          assert forall i :: 1 <= i < |args| ==> args[i] == args[1..][i - 1];
          Success([head.value] + tail.value)
  }

  /** A program action instance: its bindings, its lifecycle state and the two flags the evaluation loop polls. */
  class ProgramActionInstance {
    const id: string
    const actionName: string
    const args: ArgRecord
    const variables: map<string, Value>
    var state: InstanceState
    var isCanceled: bool
    var isPaused: bool

    /** The part of construction that cannot fail: store the bindings; the state is `READY`. */
    constructor (id: string, actionName: string, binding: Binding)
      ensures this.id == id && this.actionName == actionName
      ensures args == binding.record && variables == binding.variables
      ensures state == Ready && !isCanceled && !isPaused
    {
      this.id := id;
      this.actionName := actionName;
      args := binding.record;
      variables := binding.variables;
      state := Ready;
      isCanceled := false;
      isPaused := false;
    }

    /** `start`: only from `READY`, to `RUNNING`. */
    method Start() returns (r: Outcome<InstanceError>, events: seq<Event>)
      modifies this
      ensures Reaction(r, state, events) == Perform(old(state), Command.Start)
      ensures isCanceled == old(isCanceled) && isPaused == old(isPaused)
    {
      if state != Ready {
        return Fail(IllegalState(Command.Start, state)), [];
      }
      state := Running;
      r, events := Pass, [Announce(Command.Start)];
    }

    /** `pause`: only from `RUNNING`; raises the pause flag and moves to `PAUSED`. */
    method Pause() returns (r: Outcome<InstanceError>, events: seq<Event>)
      modifies this
      ensures Reaction(r, state, events) == Perform(old(state), Command.Pause)
      ensures isCanceled == old(isCanceled)
      ensures isPaused == (r.Pass? || old(isPaused))
    {
      if state != Running {
        return Fail(IllegalState(Command.Pause, state)), [];
      }
      isPaused := true;
      state := Paused;
      r, events := Pass, [Announce(Command.Pause)];
    }

    /** `resume`: only from `PAUSED`; lowers the pause flag and moves to `RUNNING`. */
    method Resume() returns (r: Outcome<InstanceError>, events: seq<Event>)
      modifies this
      ensures Reaction(r, state, events) == Perform(old(state), Command.Resume)
      ensures isCanceled == old(isCanceled)
      ensures isPaused == (r.Fail? && old(isPaused))
    {
      if state != Paused {
        return Fail(IllegalState(Command.Resume, state)), [];
      }
      isPaused := false;
      state := Running;
      r, events := Pass, [Announce(Command.Resume)];
    }

    /** `cancel`: only from `RUNNING` or `PAUSED`; raises the cancel flag and ends `CANCELED`. */
    method Cancel() returns (r: Outcome<InstanceError>, events: seq<Event>)
      modifies this
      ensures Reaction(r, state, events) == Perform(old(state), Command.Cancel)
      ensures isPaused == old(isPaused)
      ensures isCanceled == (r.Pass? || old(isCanceled))
    {
      if state != Running && state != Paused {
        return Fail(IllegalState(Command.Cancel, state)), [];
      }
      isCanceled := true;
      state := Canceled;
      r, events := Pass, [Announce(Command.Cancel)];
    }
  }

  /**
   * The constructor as a whole: build the record, scan the parameters for a
   * repeated name with a set, compare the counts, check each argument, then
   * bind the variables; any failure is the exception the constructor throws.
   */
  method NewProgramActionInstance(id: string, actionName: string, args: seq<Arg>, params: seq<ParameterWithVariable>)
    returns (r: Result<ProgramActionInstance, InstanceError>)
    ensures r.Failure? <==> Instantiate(args, params).Failure?
    ensures r.Failure? ==> r.error == Instantiate(args, params).error
    ensures r.Success? ==>
      fresh(r.value) && r.value.state == Ready && !r.value.isPaused && !r.value.isCanceled &&
      Binding(r.value.args, r.value.variables) == Instantiate(args, params).value
  {
    var recorded := RecordArgs(args);
    if recorded.Failure? {
      return Failure(recorded.error);
    }
    var record := recorded.value;
    var dup := RepeatedParameter(params);
    if dup.Some? {
      return Failure(DuplicateParameter(dup.value));
    }
    if |params| != |record| {
      return Failure(WrongNumberOfArguments);
    }
    var miss := CheckArguments(Plain(params), record);
    if miss.Some? {
      return Failure(miss.value);
    }
    var bound := BindAll(params, record);
    if bound.Failure? {
      return Failure(bound.error);
    }
    var instance := new ProgramActionInstance(id, actionName, Binding(record, bound.value));
    r := Success(instance);
  }

  /** Binding stops at the first badly named variable: later parameters cannot change the answer. */
  lemma {:induction false} BindFailsAt(params: seq<ParameterWithVariable>, record: ArgRecord, i: nat, k: nat)
    requires i < k <= |params|
    requires BindVariables(params, record, i).Success? && !IsVariableName(params[i].variable)
    ensures BindVariables(params, record, k) == Failure(BadVariable(params[i].variable))
  {
    if k > i + 1 {
      BindFailsAt(params, record, i, k - 1);
    }
  }

  /** The duplicate-parameter loop: remember each name in a set, stop at the first one seen before. */
  method RepeatedParameter(params: seq<ParameterWithVariable>) returns (dup: Option<string>)
    ensures dup == FirstTaken(ParamNames(params), |params|, {})
  {
    var names := ParamNames(params);
    var seen: set<string> := {};
    for i := 0 to |params|
      invariant DistinctUpTo(names, i) && Avoids(names, i, {})
      invariant seen == ElementsUpTo(names, i)
    {
      if params[i].name in seen {
        ElementsUpToMembers(names, i);
        FirstTakenAt(names, i, |params|, {});
        return Some(params[i].name);
      }
      DistinctStep(names, i);
      seen := seen + {params[i].name};
    }
    dup := None;
  }

  /** The variable loop: reject a variable without `$`, else bind it to its argument's value. */
  method BindAll(params: seq<ParameterWithVariable>, record: ArgRecord) returns (r: Result<map<string, Value>, InstanceError>)
    ensures r == BindVariables(params, record, |params|)
  {
    var variables: map<string, Value> := map[];
    for i := 0 to |params|
      invariant BindVariables(params, record, i) == Success(variables)
    {
      if !IsVariableName(params[i].variable) {
        BindFailsAt(params, record, i, |params|);
        return Failure(BadVariable(params[i].variable));
      }
      var value := if params[i].name in record then record[params[i].name].value else Undefined;
      variables := variables[params[i].variable := value];
    }
    r := Success(variables);
  }
}
