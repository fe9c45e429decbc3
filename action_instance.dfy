/**
 * What every action instance shares: the argument record its constructor
 * builds, the parameter check the concrete instances run against it, and the
 * lifecycle of `start`, `pause`, `resume` and `cancel`.
 */
module ActionInstances {
  import opened Wrappers
  import opened Values

  datatype InstanceState = Ready | Running | Paused | Canceled | Succeeded | Failed

  /** The four lifecycle calls a client makes. */
  datatype Command = Start | Pause | Resume | Cancel

  /** An event emitted on the instance's emitter, with the reason a failure carries. */
  datatype Event = Event(name: string, reason: Option<string>)

  datatype InstanceError =
    | DuplicateArgument(name: string)
    | DuplicateParameter(name: string)
    | WrongNumberOfArguments
    | MissingArgument(name: string)
    | WrongType(name: string)
    | BadVariable(variable: string)
    | UndefinedVariable(variable: string)
    | IllegalState(command: Command, state: InstanceState)

  /** A declared parameter: its name and the `typeof` its argument must have. */
  datatype Parameter = Parameter(name: string, kind: string)

  /** The record the constructor builds: argument name to argument. */
  type ArgRecord = map<string, Arg>

  /** The names of a sequence of named things, in order. */
  function Names<T>(xs: seq<T>, name: T -> string): (names: seq<string>)
    ensures |names| == |xs|
    ensures forall i :: 0 <= i < |xs| ==> names[i] == name(xs[i])
  {
    seq(|xs|, i requires 0 <= i < |xs| => name(xs[i]))
  }

  function ArgNames(args: seq<Arg>): seq<string>
  {
    Names(args, (a: Arg) => a.name)
  }

  /** No two of the first `k` names coincide. */
  predicate DistinctUpTo(names: seq<string>, k: nat)
    requires k <= |names|
  {
    forall i, j :: 0 <= i < j < k ==> names[i] != names[j]
  }

  /** None of the first `k` names is in `taken`. */
  predicate Avoids(names: seq<string>, k: nat, taken: set<string>)
    requires k <= |names|
  {
    forall i :: 0 <= i < k ==> names[i] !in taken
  }

  /**
   * The first name among the first `k`, in scanning order, that is already
   * present when it is reached: one of the names `preset` holds from the
   * start, or a repeat of an earlier name.
   */
  function FirstTaken(names: seq<string>, k: nat, preset: set<string>): (r: Option<string>)
    requires k <= |names|
    ensures r.None? <==> DistinctUpTo(names, k) && Avoids(names, k, preset)
  {
    if k == 0 then None
    else
      var r := FirstTaken(names, k - 1, preset);
      if r.Some? then r
      else if names[k - 1] in preset || names[k - 1] in names[..k - 1] then Some(names[k - 1])
      else None
  }

  /** The name reported is preset or occurs twice among the first `k`. */
  lemma {:induction false} FirstTakenWitness(names: seq<string>, k: nat, preset: set<string>)
    requires k <= |names| && FirstTaken(names, k, preset).Some?
    ensures var x := FirstTaken(names, k, preset).value;
      x in preset || exists i, j :: 0 <= i < j < k && names[i] == names[j] == x
  {
    if FirstTaken(names, k - 1, preset).Some? {
      FirstTakenWitness(names, k - 1, preset);
    } else if names[k - 1] !in preset {
      var i :| 0 <= i < k - 1 && names[..k - 1][i] == names[k - 1];
      assert names[i] == names[k - 1];
    }
  }

  /** Scanning stops at the first name already present: later names cannot change the answer. */
  lemma {:induction false} FirstTakenAt(names: seq<string>, i: nat, k: nat, preset: set<string>)
    requires i < k <= |names|
    requires FirstTaken(names, i, preset).None? && (names[i] in preset || names[i] in names[..i])
    ensures FirstTaken(names, k, preset) == Some(names[i])
  {
    if k > i + 1 {
      FirstTakenAt(names, i, k - 1, preset);
    }
  }

  /**
   * The properties every plain object inherits from `Object.prototype`
   * (section 20.1.3 of ECMA-262 and its Annex B.2.2). `name in record` is
   * true for these on a record built from `{}`, whatever it holds.
   */
  const Inherited: set<string> := {
    "constructor", "hasOwnProperty", "isPrototypeOf", "propertyIsEnumerable", "toLocaleString",
    "toString", "valueOf", "__proto__", "__defineGetter__", "__defineSetter__",
    "__lookupGetter__", "__lookupSetter__"}

  /** JavaScript's `name in record` on the argument record. */
  predicate Has(record: ArgRecord, name: string)
  {
    name in record || name in Inherited
  }

  /** `record[name].value`: an own argument's value; an inherited property has no `value`. */
  function Read(record: ArgRecord, name: string): (v: Value)
    ensures name in record ==> v == record[name].value
    ensures name !in record ==> v == Undefined
  {
    if name in record then record[name].value else Undefined
  }

  /** The first `k` arguments stored under their names. */
  function Fill(args: seq<Arg>, k: nat): ArgRecord
    requires k <= |args|
  {
    if k == 0 then map[] else Fill(args, k - 1)[args[k - 1].name := args[k - 1]]
  }

  /**
   * The constructor's record: every argument under its own name, or the
   * first name the record already answers `in` for, an inherited one
   * included.
   */
  function ArgsRecord(args: seq<Arg>): Result<ArgRecord, InstanceError>
  {
    var dup := FirstTaken(ArgNames(args), |args|, Inherited);
    if dup.Some? then Failure(DuplicateArgument(dup.value)) else Success(Fill(args, |args|))
  }

  /** The first `k` names as a set. */
  function ElementsUpTo(names: seq<string>, k: nat): set<string>
    requires k <= |names|
  {
    if k == 0 then {} else ElementsUpTo(names, k - 1) + {names[k - 1]}
  }

  lemma {:induction false} ElementsUpToMembers(names: seq<string>, k: nat)
    requires k <= |names|
    ensures forall n :: n in ElementsUpTo(names, k) <==> n in names[..k]
  {
    if k > 0 {
      ElementsUpToMembers(names, k - 1);
      assert names[..k] == names[..k - 1] + [names[k - 1]];
    }
  }

  /** A set holding each of the first `k` names holds them all. */
  lemma {:induction false} ElementsWithin(names: seq<string>, k: nat, keys: set<string>)
    requires k <= |names|
    requires forall i :: 0 <= i < k ==> names[i] in keys
    ensures ElementsUpTo(names, k) <= keys
  {
    if k > 0 {
      ElementsWithin(names, k - 1, keys);
    }
  }

  /** A subset is no larger than its superset. */
  lemma SubsetSize(small: set<string>, big: set<string>)
    requires small <= big
    decreases small
    ensures |small| <= |big|
  {
    if small != {} {
      var x :| x in small;
      SubsetSize(small - {x}, big - {x});
    }
  }

  /** A subset as large as its superset is the superset. */
  lemma SameSizeSubset(small: set<string>, big: set<string>)
    requires small <= big && |small| == |big|
    ensures small == big
  {
    if small != big {
      var x :| x in big && x !in small;
      SubsetSize(small, big - {x});
    }
  }

  /** Distinct names as many as the elements of a set they all belong to are exactly that set. */
  lemma DistinctCover(names: seq<string>, keys: set<string>)
    requires DistinctUpTo(names, |names|) && |names| == |keys|
    requires forall i :: 0 <= i < |names| ==> names[i] in keys
    ensures ElementsUpTo(names, |names|) == keys
  {
    DistinctSize(names, |names|);
    ElementsWithin(names, |names|, keys);
    SameSizeSubset(ElementsUpTo(names, |names|), keys);
  }

  /** Adding a name not seen before keeps the names distinct. */
  lemma DistinctStep(names: seq<string>, i: nat)
    requires i < |names| && DistinctUpTo(names, i) && names[i] !in ElementsUpTo(names, i)
    ensures DistinctUpTo(names, i + 1)
  {
    ElementsUpToMembers(names, i);
    assert forall j :: 0 <= j < i ==> names[j] in names[..i];
  }

  /** Distinct names make a set of the same size. */
  lemma {:induction false} DistinctSize(names: seq<string>, k: nat)
    requires k <= |names| && DistinctUpTo(names, k)
    ensures |ElementsUpTo(names, k)| == k
  {
    if k > 0 {
      DistinctSize(names, k - 1);
      ElementsUpToMembers(names, k - 1);
      assert names[k - 1] !in names[..k - 1];
    }
  }

  /** With distinct names, the filled record holds exactly the arguments, each under its name. */
  lemma {:induction false} FillHolds(args: seq<Arg>, k: nat)
    requires k <= |args| && DistinctUpTo(ArgNames(args), k)
    ensures Fill(args, k).Keys == ElementsUpTo(ArgNames(args), k)
    ensures forall i :: 0 <= i < k ==> args[i].name in Fill(args, k) && Fill(args, k)[args[i].name] == args[i]
    ensures |Fill(args, k)| == k
  {
    if k > 0 {
      FillHolds(args, k - 1);
      ElementsUpToMembers(ArgNames(args), k - 1);
      assert ArgNames(args)[k - 1] !in ArgNames(args)[..k - 1];
      assert args[k - 1].name !in Fill(args, k - 1);
      forall i | 0 <= i < k - 1
        ensures args[i].name != args[k - 1].name
      {
        assert ArgNames(args)[i] != ArgNames(args)[k - 1];
      }
    }
  }

  /**
   * The record is built exactly when no two arguments share a name and none
   * is named like an inherited property; it then has one key per argument
   * and maps each name to its argument.
   */
  lemma ArgsRecordMeaning(args: seq<Arg>)
    ensures ArgsRecord(args).Success? <==>
      DistinctUpTo(ArgNames(args), |args|) && forall a :: a in args ==> a.name !in Inherited
    ensures ArgsRecord(args).Success? ==>
      var record := ArgsRecord(args).value;
      |record| == |args| &&
      record.Keys == (set a | a in args :: a.name) &&
      forall a :: a in args ==> record[a.name] == a
  {
    if forall a :: a in args ==> a.name !in Inherited {
      assert Avoids(ArgNames(args), |args|, Inherited);
    } else {
      var a :| a in args && a.name in Inherited;
      var i :| 0 <= i < |args| && args[i] == a;
      assert ArgNames(args)[i] in Inherited;
    }
    if ArgsRecord(args).Success? {
      FillHolds(args, |args|);
      NamesAsSet(args);
      var record := Fill(args, |args|);
      forall a | a in args
        ensures record[a.name] == a
      {
        var i :| 0 <= i < |args| && args[i] == a;
      }
    }
  }

  /**
   * An argument named like an inherited property is refused as a duplicate,
   * even when it is the only one.
   */
  lemma InheritedNameTaken()
    ensures ArgsRecord([Arg("constructor", Number(1.0))]) == Failure(DuplicateArgument("constructor"))
  {
    assert ArgNames([Arg("constructor", Number(1.0))]) == ["constructor"];
  }

  /** The names of the arguments, as a set. */
  lemma NamesAsSet(args: seq<Arg>)
    ensures (set a | a in args :: a.name) == ElementsUpTo(ArgNames(args), |args|)
  {
    ElementsUpToMembers(ArgNames(args), |args|);
    assert ArgNames(args)[..|args|] == ArgNames(args);
    forall a | a in args
      ensures a.name in ElementsUpTo(ArgNames(args), |args|)
    {
      var i :| 0 <= i < |args| && args[i] == a;
      assert ArgNames(args)[i] == a.name;
    }
  }

  /**
   * The `ActionInstance` constructor loop: store each argument under its
   * name, throwing on the first name the record already has, stored or
   * inherited.
   */
  method RecordArgs(args: seq<Arg>) returns (r: Result<ArgRecord, InstanceError>)
    ensures r == ArgsRecord(args)
  {
    ghost var names := ArgNames(args);
    var record: ArgRecord := map[];
    for i := 0 to |args|
      invariant DistinctUpTo(names, i) && Avoids(names, i, Inherited)
      invariant record == Fill(args, i)
      invariant record.Keys == ElementsUpTo(names, i)
    {
      assert names[i] == args[i].name;
      if args[i].name in record || args[i].name in Inherited {
        ElementsUpToMembers(names, i);
        FirstTakenAt(names, i, |args|, Inherited);
        return Failure(DuplicateArgument(args[i].name));
      }
      DistinctStep(names, i);
      record := record[args[i].name := args[i]];
    }
    r := Success(record);
  }

  /** The first of the first `k` parameters without an argument of its name and type. */
  function CheckParams(params: seq<Parameter>, record: ArgRecord, k: nat): (r: Option<InstanceError>)
    requires k <= |params|
    ensures r.None? <==> forall i :: 0 <= i < k ==> Matches(params[i], record)
  {
    if k == 0 then None
    else
      var r := CheckParams(params, record, k - 1);
      if r.Some? then r
      else
        var p := params[k - 1];
        if !Has(record, p.name) then Some(MissingArgument(p.name))
        else if TypeOf(Read(record, p.name)) != p.kind then Some(WrongType(p.name))
        else None
  }

  /**
   * The error reported names an unmatched parameter: missing when the
   * record has no property of its name, own or inherited; mistyped
   * otherwise.
   */
  lemma {:induction false} CheckParamsReason(params: seq<Parameter>, record: ArgRecord, k: nat)
    requires k <= |params| && CheckParams(params, record, k).Some?
    ensures exists i :: (0 <= i < k && !Matches(params[i], record) &&
      CheckParams(params, record, k).value ==
        (if !Has(record, params[i].name) then MissingArgument(params[i].name) else WrongType(params[i].name)))
  {
    if CheckParams(params, record, k - 1).Some? {
      CheckParamsReason(params, record, k - 1);
    } else {
      assert !Matches(params[k - 1], record);
    }
  }

  /**
   * A parameter passes the check: the record has a property of its name
   * whose `value` has the declared type. An inherited property passes only
   * a parameter of type `undefined`.
   */
  predicate Matches(p: Parameter, record: ArgRecord)
  {
    Has(record, p.name) && TypeOf(Read(record, p.name)) == p.kind
  }

  /** The check stops at the first unmatched parameter: later ones cannot change the answer. */
  lemma {:induction false} CheckParamsAt(params: seq<Parameter>, record: ArgRecord, i: nat, k: nat)
    requires i < k <= |params|
    requires CheckParams(params, record, i).None? && !Matches(params[i], record)
    ensures CheckParams(params, record, k) == CheckParams(params, record, i + 1)
  {
    if k > i + 1 {
      CheckParamsAt(params, record, i, k - 1);
    }
  }

  /** The parameter loop of the concrete constructors: presence first, then `typeof`. */
  method CheckArguments(params: seq<Parameter>, record: ArgRecord) returns (r: Option<InstanceError>)
    ensures r == CheckParams(params, record, |params|)
  {
    for i := 0 to |params|
      invariant CheckParams(params, record, i).None?
    {
      if !(params[i].name in record || params[i].name in Inherited) {
        CheckParamsAt(params, record, i, |params|);
        return Some(MissingArgument(params[i].name));
      }
      var value := if params[i].name in record then record[params[i].name].value else Undefined;
      if TypeOf(value) != params[i].kind {
        CheckParamsAt(params, record, i, |params|);
        return Some(WrongType(params[i].name));
      }
    }
    r := None;
  }

  /** The state a command moves to, or nothing when it throws from the current state. */
  function Next(s: InstanceState, c: Command): Option<InstanceState>
  {
    match c
    case Start => if s == Ready then Some(Running) else None
    case Pause => if s == Running then Some(Paused) else None
    case Resume => if s == Paused then Some(Running) else None
    case Cancel => if s == Running || s == Paused then Some(Canceled) else None
  }

  /** The event a successful command emits. */
  function Announce(c: Command): Event
  {
    match c
    case Start => Event("start", None)
    case Pause => Event("pause", None)
    case Resume => Event("resume", None)
    case Cancel => Event("cancel", None)
  }

  /** What a command call yields: its outcome, the state after it and the events it emitted. */
  datatype Reaction = Reaction(outcome: Outcome<InstanceError>, state: InstanceState, events: seq<Event>)

  /** A command either throws and leaves the state alone, or moves it and emits its event. */
  function Perform(s: InstanceState, c: Command): (r: Reaction)
    ensures r.outcome.Fail? <==> Next(s, c).None?
    ensures r.outcome.Fail? ==> r.state == s && r.events == [] && r.outcome.error == IllegalState(c, s)
    ensures r.outcome.Pass? ==> r.state == Next(s, c).value && r.events == [Announce(c)]
  {
    match Next(s, c)
    case None => Reaction(Fail(IllegalState(c, s)), s, [])
    case Some(t) => Reaction(Pass, t, [Announce(c)])
  }

  /** The state after a series of calls, each throwing one leaving the state as it was. */
  function Replay(s: InstanceState, cs: seq<Command>): InstanceState
    decreases |cs|
  {
    if cs == [] then s else Replay(Perform(s, cs[0]).state, cs[1..])
  }

  /** A canceled, succeeded or failed instance is finished. */
  predicate Settled(s: InstanceState)
  {
    s == Canceled || s == Succeeded || s == Failed
  }

  /** Every command throws on a finished instance, so nothing ever changes it again. */
  lemma {:induction false} SettledIsFinal(s: InstanceState, cs: seq<Command>)
    requires Settled(s)
    decreases |cs|
    ensures Replay(s, cs) == s
  {
    if cs != [] {
      SettledIsFinal(s, cs[1..]);
    }
  }

  /** How many of the calls are accepted `start`s. */
  function StartsAccepted(s: InstanceState, cs: seq<Command>): nat
    decreases |cs|
  {
    if cs == [] then 0
    else
      var r := Perform(s, cs[0]);
      (if cs[0] == Start && r.outcome.Pass? then 1 else 0) + StartsAccepted(r.state, cs[1..])
  }

  /** An instance is started at most once, and only if it is still `READY`. */
  lemma {:induction false} StartsAtMostOnce(s: InstanceState, cs: seq<Command>)
    decreases |cs|
    ensures StartsAccepted(s, cs) <= (if s == Ready then 1 else 0)
    ensures s != Ready ==> Replay(s, cs) != Ready
  {
    if cs != [] {
      StartsAtMostOnce(Perform(s, cs[0]).state, cs[1..]);
    }
  }
}
