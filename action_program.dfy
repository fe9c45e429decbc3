/**
 * A program made of one action invocation. Iterating it yields that
 * invocation once; every iteration starts afresh.
 */
module ActionPrograms {
  import opened Values

  /** `{action, args}`: the action to instantiate and the arguments to give it. */
  datatype Invocation = Invocation(action: string, args: seq<Arg>)

  /** An iterator step: `{done: true}` or `{done: false, value}`. */
  datatype Step = Done | Yield(value: Invocation)

  class ActionProgram {
    const action: string
    const args: seq<Arg>

    constructor (action: string, args: seq<Arg>)
      ensures this.action == action && this.args == args
    {
      this.action := action;
      this.args := args;
    }

    /** `[Symbol.iterator]()`: a new iterator over the invocation, not yet visited. */
    method Iterate() returns (it: InvocationIterator)
      ensures fresh(it) && !it.visited
      ensures it.invocation == Invocation(action, args)
    {
      it := new InvocationIterator(Invocation(action, args));
    }
  }

  /** The iterator with its closure flag `visited`. */
  class InvocationIterator {
    const invocation: Invocation
    var visited: bool

    constructor (invocation: Invocation)
      ensures this.invocation == invocation && !visited
    {
      this.invocation := invocation;
      visited := false;
    }

    /** `next()`: the invocation the first time, done on every later call. */
    method Next() returns (step: Step)
      modifies this
      ensures visited
      ensures step == (if old(visited) then Done else Yield(invocation))
    {
      if visited {
        return Done;
      }
      visited := true;
      step := Yield(invocation);
    }
  }

  /**
   * A `for ... of` over the program: take steps from a fresh iterator until
   * it is done. It collects exactly the one invocation, every time.
   */
  method Invocations(program: ActionProgram) returns (xs: seq<Invocation>)
    ensures xs == [Invocation(program.action, program.args)]
  {
    var it := program.Iterate();
    xs := [];
    var step := it.Next();
    while step.Yield?
      invariant it.visited && it.invocation == Invocation(program.action, program.args)
      invariant step.Yield? ==> xs == [] && step.value == it.invocation
      invariant step.Done? ==> xs == [it.invocation]
      decreases if step.Yield? then 1 else 0
    {
      xs := xs + [step.value];
      step := it.Next();
    }
  }
}
