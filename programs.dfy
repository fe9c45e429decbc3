/**
 * The program tree the bot evaluates, and its construction from the JSON a
 * client posts: an `action` node names one game action with its parameters,
 * a `sequence` node lists subprograms, and any other `type` is rejected.
 */
module Programs {
  import opened Wrappers
  import opened Values

  /** A program in its JSON form: the `type` tag and the two fields a tag may need. */
  datatype ProgramJson = ProgramJson(kind: string, action: ActionField, sequence: SequenceField)

  /** The `action` field: absent, or `{name, paramMap}`. */
  datatype ActionField = NoAction | ActionJson(name: string, paramMap: map<string, Value>)

  /** The `sequence` field: absent, or the list of subprogram JSON objects. */
  datatype SequenceField = NoSequence | Items(items: seq<ProgramJson>)

  /**
   * A constructed program. `Base` stands for an object of the bare program
   * interface, which is neither an action nor a sequence.
   */
  datatype Program =
    | Action(name: string, paramMap: map<string, Value>)
    | Sequence(items: seq<Program>)
    | Base

  datatype ProgramError =
    | UnknownProgramType(kind: string)
    | MissingField(field: string)
    | NotImplemented

  const ActionType := "action"
  const SequenceType := "sequence"

  /** `getType()`: the interface's own version throws; the two subclasses name their tag. */
  function GetType(p: Program): (r: Result<string, ProgramError>)
    ensures r.Failure? <==> p.Base?
    ensures r.Failure? ==> r.error == NotImplemented
    ensures r.Success? ==> r.value in {ActionType, SequenceType}
  {
    match p
    case Action(_, _) => Success(ActionType)
    case Sequence(_) => Success(SequenceType)
    case Base => Failure(NotImplemented)
  }

  /** A JSON tree every node of which has a known tag and the field that tag reads. */
  predicate WellFormed(json: ProgramJson)
    decreases json
  {
    if json.kind == ActionType then json.action.ActionJson?
    else if json.kind == SequenceType then
      json.sequence.Items? &&
      forall i :: 0 <= i < |json.sequence.items| ==> WellFormed(json.sequence.items[i])
    else false
  }

  /** Some node, at any depth reached by construction, carries an unknown tag. */
  predicate UnknownSomewhere(json: ProgramJson)
    decreases json
  {
    if json.kind == ActionType then false
    else if json.kind == SequenceType then
      json.sequence.Items? &&
      exists i :: 0 <= i < |json.sequence.items| && UnknownSomewhere(json.sequence.items[i])
    else true
  }

  /** A program tree without any bare-interface node. */
  predicate Concrete(p: Program)
    decreases p
  {
    match p
    case Action(_, _) => true
    case Sequence(items) => forall i :: 0 <= i < |items| ==> Concrete(items[i])
    case Base => false
  }

  /**
   * `createProgram(json)`: switch on the tag. A missing field is the
   * TypeError reading through `undefined`; a sequence maps construction over
   * its items left to right, so the first failing item decides the error.
   */
  function CreateProgram(json: ProgramJson): (r: Result<Program, ProgramError>)
    decreases json, 1, 0
    ensures r.Success? <==> WellFormed(json)
    ensures r.Success? ==> GetType(r.value) == Success(json.kind) && Concrete(r.value)
    ensures r.Success? && json.kind == ActionType ==> r.value == Action(json.action.name, json.action.paramMap)
    ensures r.Success? && json.kind == SequenceType ==>
      && |r.value.items| == |json.sequence.items|
      && forall i :: 0 <= i < |r.value.items| ==> Success(r.value.items[i]) == CreateProgram(json.sequence.items[i])
    ensures json.kind != ActionType && json.kind != SequenceType ==> r == Failure(UnknownProgramType(json.kind))
    ensures r.Failure? ==> !r.error.NotImplemented?
  {
    if json.kind == ActionType then
      match json.action
      case NoAction => Failure(MissingField(ActionType))
      case ActionJson(name, paramMap) => Success(Action(name, paramMap))
    else if json.kind == SequenceType then
      match json.sequence
      case NoSequence => Failure(MissingField(SequenceType))
      case Items(items) =>
        var r := CreateItems(json, |items|);
        if r.Failure? then Failure(r.error) else Success(Sequence(r.value))
    else
      Failure(UnknownProgramType(json.kind))
  }

  /** The first `k` items of a sequence node, constructed in order. */
  function CreateItems(json: ProgramJson, k: nat): (r: Result<seq<Program>, ProgramError>)
    requires json.sequence.Items? && k <= |json.sequence.items|
    decreases json, 0, k
    ensures r.Success? <==> forall i :: 0 <= i < k ==> WellFormed(json.sequence.items[i])
    ensures r.Success? ==> |r.value| == k
    ensures r.Success? ==> forall i :: 0 <= i < k ==> Success(r.value[i]) == CreateProgram(json.sequence.items[i])
    ensures r.Failure? ==> !r.error.NotImplemented?
  {
    if k == 0 then Success([])
    else
      var prefix := CreateItems(json, k - 1);
      if prefix.Failure? then prefix
      else
        var last := CreateProgram(json.sequence.items[k - 1]);
        if last.Failure? then Failure(last.error) else Success(prefix.value + [last.value])
  }

  /** The JSON a concrete program is written back to. */
  function ToJson(p: Program): (json: ProgramJson)
    requires Concrete(p)
    decreases p
  {
    match p
    case Action(name, paramMap) => ProgramJson(ActionType, ActionJson(name, paramMap), NoSequence)
    case Sequence(items) =>
      ProgramJson(SequenceType, NoAction, Items(seq(|items|, i requires 0 <= i < |items| => ToJson(items[i]))))
  }

  /** An unknown tag anywhere in the tree makes the whole construction throw. */
  lemma {:induction false} UnknownTypeFails(json: ProgramJson)
    requires UnknownSomewhere(json)
    decreases json
    ensures CreateProgram(json).Failure?
  {
    if json.kind == SequenceType {
      var i :| 0 <= i < |json.sequence.items| && UnknownSomewhere(json.sequence.items[i]);
      UnknownTypeFails(json.sequence.items[i]);
    }
  }

  /** Construction inverts writing a concrete program out as JSON. */
  lemma {:induction false} CreateFromJson(p: Program)
    requires Concrete(p)
    decreases p, 1, 0
    ensures CreateProgram(ToJson(p)) == Success(p)
  {
    if p.Sequence? {
      CreateItemsFromJson(p, |p.items|);
      assert p.items[..|p.items|] == p.items;
    }
  }

  lemma {:induction false} CreateItemsFromJson(p: Program, k: nat)
    requires Concrete(p) && p.Sequence? && k <= |p.items|
    decreases p, 0, k
    ensures CreateItems(ToJson(p), k) == Success(p.items[..k])
  {
    if k > 0 {
      assert p.items[..k] == p.items[..k - 1] + [p.items[k - 1]];
      var json := ToJson(p);
      CreateItemsFromJson(p, k - 1);
      assert json.sequence.items[k - 1] == ToJson(p.items[k - 1]);
      CreateFromJson(p.items[k - 1]);
    }
  }
}
