/**
 * The tagged value shared by the reader, the environment, the printer and
 * the continuation stack, and the environment record itself.
 *
 * The C program keeps both in objects.h; every datum is an `Obj` whose tag
 * is one of NUM, NAME, LIST, FUNC, ENV, LABEL, DUMMY and UNINIT.
 */
module Objects {

  /** The five primitive procedures bound in the base environment. */
  datatype Prim = Add | Sub | Mul | Div | Eq

  /**
   * Continuation labels of the evaluator. The nine that the printer knows
   * by name are listed; every other label of the evaluator is `OtherLabel`.
   */
  datatype Label =
    | Done | IfDecide | DidAssVal | DidDefVal | DidFunc
    | AccArg | DidLastArg | SeqCont | AltSeqCont
    | OtherLabel(code: nat)

  datatype Value =
    | Num(n: int)
    | Name(name: string)
    | List(items: seq<Value>)
    | Func(prim: Prim)
    | EnvObj(env: Env?)
    | LabelObj(lab: Label)
    | Dummy
    | Uninit

  /** One key/value node of a frame. */
  datatype Binding = Binding(key: string, val: Value)

  /**
   * An environment: a frame that is updated in place, and a non-owning
   * pointer to the enclosing environment, which is never reassigned.
   * `depth` is a ghost rank that strictly decreases along the enclosure
   * chain, so the chain is acyclic and ends at a null enclosure.
   */
  class Env {
    var frame: seq<Binding>
    const enclosure: Env?
    ghost const depth: nat

    ghost predicate Valid()
      decreases depth
    {
      enclosure != null ==> enclosure.depth < depth && enclosure.Valid()
    }

    /** makeEnv (env.c:212-217): a fresh record with both fields set. */
    constructor (frame: seq<Binding>, enclosure: Env?)
      requires enclosure != null ==> enclosure.Valid()
      ensures Valid()
      ensures this.frame == frame && this.enclosure == enclosure
    {
      this.frame := frame;
      this.enclosure := enclosure;
      this.depth := if enclosure == null then 0 else enclosure.depth + 1;
    }
  }

  /** The rank used to prove that walks along the enclosure chain end. */
  ghost function Rank(env: Env?): nat
  {
    if env == null then 0 else env.depth + 1
  }

  /** The environments on the chain from `env` outwards: what a walk along it reads. */
  ghost function Repr(env: Env?): set<Env>
    requires env != null ==> env.Valid()
    decreases Rank(env)
  {
    if env == null then {} else {env} + Repr(env.enclosure)
  }

  /** Every environment on the chain is valid and ranked no higher than `env`. */
  lemma {:induction false} ReprRanks(env: Env?)
    requires env != null ==> env.Valid()
    ensures forall e :: e in Repr(env) ==> e.Valid() && Rank(e) <= Rank(env)
    decreases Rank(env)
  {
    if env != null {
      ReprRanks(env.enclosure);
    }
  }

  /** An environment is not on the chain of its own enclosure: the chain is acyclic. */
  lemma NotInEnclosure(env: Env)
    requires env.Valid()
    ensures env !in Repr(env.enclosure)
  {
    ReprRanks(env.enclosure);
  }

  /** The frames of the chain, innermost first: the abstract scope of `env`. */
  ghost function Frames(env: Env?): seq<seq<Binding>>
    requires env != null ==> env.Valid()
    reads Repr(env)
    decreases Rank(env)
  {
    if env == null then [] else [env.frame] + Frames(env.enclosure)
  }
}
