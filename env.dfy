/**
 * Lexically scoped variable binding (env.c): frames of key/value nodes,
 * environments that enclose one another, and the base environment that
 * binds the five arithmetic primitives.
 *
 * The C functions take `Obj` arguments and read the union member they
 * expect without checking the tag; here they take the unwrapped name,
 * value and environment directly.
 */
module Environment {
  import opened Objects

  /* ---------------------------------------------------------------- */
  /* Primitive procedures                                             */
  /* ---------------------------------------------------------------- */

  function Abs(x: int): int
  {
    if x < 0 then -x else x
  }

  /** `q` is `a / b` as C computes it: the quotient truncated toward zero. */
  ghost predicate TruncatedQuotient(a: int, b: int, q: int)
  {
    b != 0 &&
    var r := a - q * b;
    (a >= 0 ==> 0 <= r < Abs(b)) && (a < 0 ==> -Abs(b) < r <= 0)
  }

  /** C's `/` on int: truncation toward zero (Dafny's own `/` is Euclidean). */
  function DivFunc(a: int, b: int): (q: int)
    requires b != 0
    ensures TruncatedQuotient(a, b, q)
  {
    var q0 := Abs(a) / Abs(b);
    var q := if (a < 0) == (b < 0) then q0 else -q0;
    TruncationLemma(a, b, q0, q);
    q
  }

  lemma TruncationLemma(a: int, b: int, q0: int, q: int)
    requires b != 0 && q0 == Abs(a) / Abs(b)
    requires q == if (a < 0) == (b < 0) then q0 else -q0
    ensures TruncatedQuotient(a, b, q)
  {
    var A, B := Abs(a), Abs(b);
    var r0 := A % B;
    assert A == q0 * B + r0 && 0 <= r0 < B;
    if a >= 0 && b > 0 {
      assert a - q * b == r0;
    } else if a >= 0 {
      assert q * b == (-q0) * (-B) == q0 * B;
      assert a - q * b == r0;
    } else if b > 0 {
      assert q * b == -(q0 * B);
      assert a - q * b == -r0;
    } else {
      assert q * b == q0 * (-B) == -(q0 * B);
      assert a - q * b == -r0;
    }
  }

  /**
   * The call `f(a, b)` of the C function held in a FUNC object, for each of
   * the five primitives. `int` overflow is not modelled; division by zero is
   * excluded by the precondition.
   */
  function ApplyPrim(p: Prim, a: int, b: int): (r: int)
    requires p == Div ==> b != 0
    ensures p == Div ==> TruncatedQuotient(a, b, r)
    ensures p == Eq ==> (r == 1 <==> a == b) && (r == 0 <==> a != b)
  {
    match p
    case Add => a + b
    case Sub => a - b
    case Mul => a * b
    case Div => DivFunc(a, b)
    case Eq => if a == b then 1 else 0
  }

  /* ---------------------------------------------------------------- */
  /* Frames                                                           */
  /* ---------------------------------------------------------------- */

  /** `frame[i]` is the first node of `frame` whose key is `name`. */
  predicate IsFirstMatch(frame: seq<Binding>, name: string, i: int)
  {
    0 <= i < |frame| && frame[i].key == name &&
    forall j :: 0 <= j < i ==> frame[j].key != name
  }

  predicate Binds(frame: seq<Binding>, name: string)
  {
    exists i :: 0 <= i < |frame| && frame[i].key == name
  }

  /** lookup_in_frame: the value of the first node keyed `name`, else DUMMY. */
  function LookupInFrame(name: string, frame: seq<Binding>): (r: Value)
    ensures !Binds(frame, name) ==> r == Dummy
    ensures forall i :: IsFirstMatch(frame, name, i) ==> r == frame[i].val
  {
    if frame == [] then Dummy
    else if frame[0].key == name then frame[0].val
    else
      assert forall i :: IsFirstMatch(frame, name, i) ==> IsFirstMatch(frame[1..], name, i - 1);
      LookupInFrame(name, frame[1..])
  }

  /** The position of the first node keyed `name`, or `|frame|` when there is none. */
  function FirstIndex(frame: seq<Binding>, name: string): (i: nat)
    ensures i <= |frame|
    ensures i < |frame| ==> IsFirstMatch(frame, name, i)
    ensures i == |frame| <==> !Binds(frame, name)
  {
    if frame == [] then 0
    else if frame[0].key == name then 0
    else
      var i := FirstIndex(frame[1..], name) + 1;
      assert i == |frame| ==> forall j :: 0 <= j < |frame| ==> frame[j].key != name by {
        if i == |frame| {
          forall j | 0 < j < |frame| ensures frame[j].key != name {
            assert frame[1..][j - 1] == frame[j];
          }
        }
      }
      i
  }

  /**
   * The frame after the assignment at env.c:197-199: the value of the first
   * node keyed `name` is replaced; every key, and every other node, is kept.
   */
  function OverwriteFirst(frame: seq<Binding>, name: string, val: Value): (f: seq<Binding>)
    ensures |f| == |frame|
    ensures forall i :: 0 <= i < |frame| ==> f[i].key == frame[i].key
    ensures !Binds(frame, name) ==> f == frame
    ensures forall i :: IsFirstMatch(frame, name, i) ==>
              f[i].val == val && forall j :: 0 <= j < |frame| && j != i ==> f[j] == frame[j]
  {
    var i := FirstIndex(frame, name);
    if i == |frame| then frame else frame[i := Binding(frame[i].key, val)]
  }

  /** makeList: a fresh cons cell `car` in front of `cdr`. */
  function MakeList(car: Value, cdr: seq<Value>): (l: seq<Value>)
    ensures |l| == |cdr| + 1 && l[0] == car && l[1..] == cdr
  {
    [car] + cdr
  }

  /**
   * makeFrame: zips NAME objects with values, position by position. The C
   * code dereferences the value list once per name, so there must be at
   * least as many values as names; surplus values are ignored.
   */
  function MakeFrame(vars: seq<Value>, vals: seq<Value>): (f: seq<Binding>)
    requires |vars| <= |vals|
    requires forall i :: 0 <= i < |vars| ==> vars[i].Name?
    ensures |f| == |vars|
    ensures forall i :: 0 <= i < |vars| ==> f[i] == Binding(vars[i].name, vals[i])
  {
    if vars == [] then []
    else [Binding(vars[0].name, vals[0])] + MakeFrame(vars[1..], vals[1..])
  }

  /* ---------------------------------------------------------------- */
  /* Scopes: the chain of frames seen from one environment            */
  /* ---------------------------------------------------------------- */

  /** The index of the nearest frame of `scope` that binds `name`; `|scope|` if none does. */
  function NearestBinder(scope: seq<seq<Binding>>, name: string): (k: nat)
    ensures k <= |scope|
    ensures forall j :: 0 <= j < k ==> !Binds(scope[j], name)
    ensures k < |scope| ==> Binds(scope[k], name)
  {
    if scope == [] then 0
    else if Binds(scope[0], name) then 0
    else
      var k := NearestBinder(scope[1..], name) + 1;
      assert forall j :: 0 < j < k ==> scope[j] == scope[1..][j - 1];
      k
  }

  /** The scope after setVar: only the nearest binder's frame is changed. */
  function SetInScope(scope: seq<seq<Binding>>, name: string, val: Value): seq<seq<Binding>>
  {
    var k := NearestBinder(scope, name);
    if k == |scope| then scope else scope[k := OverwriteFirst(scope[k], name, val)]
  }

  /* ---------------------------------------------------------------- */
  /* Lookup                                                           */
  /* ---------------------------------------------------------------- */

  /**
   * lookup_in_env (and lookup, which only unwraps its arguments): the value
   * found by the nearest frame of the chain whose own lookup does not give
   * DUMMY; DUMMY when every frame gives DUMMY, and for a null environment.
   */
  function LookupInEnv(name: string, env: Env?): (r: Value)
    requires env != null ==> env.Valid()
    reads Repr(env)
    ensures r == Dummy <==> forall k :: 0 <= k < |Frames(env)| ==> LookupInFrame(name, Frames(env)[k]) == Dummy
    ensures forall k :: (0 <= k < |Frames(env)| && LookupInFrame(name, Frames(env)[k]) != Dummy &&
              forall j :: 0 <= j < k ==> LookupInFrame(name, Frames(env)[j]) == Dummy) ==>
              r == LookupInFrame(name, Frames(env)[k])
    decreases Rank(env)
  {
    if env == null then Dummy
    else
      var checkFrame := LookupInFrame(name, env.frame);
      assert Frames(env)[0] == env.frame;
      if checkFrame != Dummy then checkFrame
      else
        var r := LookupInEnv(name, env.enclosure);
        assert Frames(env)[1..] == Frames(env.enclosure);
        assert forall k :: 0 < k < |Frames(env)| ==> Frames(env)[k] == Frames(env.enclosure)[k - 1];
        r
  }

  /* ---------------------------------------------------------------- */
  /* Environment builders and mutators                                */
  /* ---------------------------------------------------------------- */

  /** makeEnv. */
  method MakeEnv(frame: seq<Binding>, enclosure: Env?) returns (env: Env)
    requires enclosure != null ==> enclosure.Valid()
    ensures fresh(env) && env.Valid()
    ensures env.frame == frame && env.enclosure == enclosure
    ensures Frames(env) == [frame] + Frames(enclosure)
  {
    env := new Env(frame, enclosure);
  }

  /**
   * extendEnv: a fresh environment whose frame zips `vars` with `vals` and
   * whose enclosure is `base`. Names it does not bind fall through to `base`.
   */
  method ExtendEnv(vars: seq<Value>, vals: seq<Value>, base: Env?) returns (ext: Env)
    requires |vars| <= |vals|
    requires forall i :: 0 <= i < |vars| ==> vars[i].Name?
    requires base != null ==> base.Valid()
    ensures fresh(ext) && ext.Valid()
    ensures ext.enclosure == base && ext.frame == MakeFrame(vars, vals)
    ensures Frames(ext) == [MakeFrame(vars, vals)] + Frames(base)
    ensures forall n :: !Binds(ext.frame, n) ==> LookupInEnv(n, ext) == LookupInEnv(n, base)
    ensures forall i :: 0 <= i < |vars| && IsFirstMatch(ext.frame, vars[i].name, i) && vals[i] != Dummy ==>
              LookupInEnv(vars[i].name, ext) == vals[i]
  {
    var frame := MakeFrame(vars, vals);
    ext := MakeEnv(frame, base);
  }

  const PrimAdd := "+"
  const PrimSub := "-"
  const PrimMul := "*"
  const PrimDiv := "/"
  const PrimEq := "="

  /** makeBaseEnv: the root environment, with `+ - * / =` bound to the five primitives. */
  method MakeBaseEnv() returns (env: Env)
    ensures fresh(env) && env.Valid() && env.enclosure == null
    ensures env.frame == [Binding(PrimAdd, Func(Add)), Binding(PrimSub, Func(Sub)),
                          Binding(PrimMul, Func(Mul)), Binding(PrimDiv, Func(Div)),
                          Binding(PrimEq, Func(Eq))]
  {
    var functionVars :=
      MakeList(Name(PrimAdd), MakeList(Name(PrimSub), MakeList(Name(PrimMul),
        MakeList(Name(PrimDiv), MakeList(Name(PrimEq), [])))));
    var functionVals :=
      MakeList(Func(Add), MakeList(Func(Sub), MakeList(Func(Mul),
        MakeList(Func(Div), MakeList(Func(Eq), [])))));
    var primitives := MakeFrame(functionVars, functionVals);
    env := MakeEnv(primitives, null);
  }

  /**
   * defineVar: prepends a node to `env`'s own frame without looking for an
   * existing binding. The new node shadows any older one, which stays in
   * the frame; the enclosing frames are untouched.
   */
  method DefineVar(name: string, val: Value, env: Env)
    requires env.Valid()
    modifies env
    ensures env.frame == [Binding(name, val)] + old(env.frame)
    ensures Frames(env.enclosure) == old(Frames(env.enclosure))
    ensures LookupInEnv(name, env) == if val != Dummy then val else LookupInEnv(name, env.enclosure)
  {
    NotInEnclosure(env);
    env.frame := [Binding(name, val)] + env.frame;
  }

  /**
   * A child encloses the parent record itself, not a copy of its frame: a
   * defineVar on the parent made after the child is visible through the
   * child for every name the child's own frame does not bind.
   */
  method DefineThroughChild(name: string, val: Value, parent: Env, child: Env)
    requires parent.Valid() && child.Valid() && child.enclosure == parent
    requires !Binds(child.frame, name) && val != Dummy
    modifies parent
    ensures child.frame == old(child.frame)
    ensures LookupInEnv(name, child) == val
  {
    DefineVar(name, val, parent);
  }

  /**
   * setVar: overwrites the value of the first node keyed `name` in the
   * nearest environment of the chain that binds `name`; every other node and
   * environment is left as it was. When no environment binds `name`, the C
   * code prints "unbound variable" and changes nothing; `unbound` records
   * that message.
   */
  method SetVar(name: string, val: Value, env: Env?) returns (unbound: bool)
    requires env != null ==> env.Valid()
    modifies Repr(env)
    ensures unbound <==> NearestBinder(old(Frames(env)), name) == |old(Frames(env))|
    ensures Frames(env) == SetInScope(old(Frames(env)), name, val)
    ensures !unbound && val != Dummy ==> LookupInEnv(name, env) == val
    decreases Rank(env)
  {
    if env == null {
      return true;
    }
    NotInEnclosure(env);
    ghost var outer := Frames(env.enclosure);
    var i := 0;
    while i < |env.frame|
      invariant 0 <= i <= |env.frame|
      invariant forall j :: 0 <= j < i ==> env.frame[j].key != name
    {
      if env.frame[i].key == name {
        ghost var f := env.frame;
        assert IsFirstMatch(f, name, i);
        SetInScopeHead(f, outer, name, val);
        env.frame := env.frame[i := Binding(env.frame[i].key, val)];
        assert env.frame == OverwriteFirst(f, name, val);
        assert IsFirstMatch(env.frame, name, i);
        return false;
      }
      i := i + 1;
    }
    SetInScopeTail(env.frame, outer, name, val);
    unbound := SetVar(name, val, env.enclosure);
  }

  /** setVar stops at the first frame that binds the name. */
  lemma SetInScopeHead(f: seq<Binding>, outer: seq<seq<Binding>>, name: string, val: Value)
    requires Binds(f, name)
    ensures NearestBinder([f] + outer, name) == 0
    ensures SetInScope([f] + outer, name, val) == [OverwriteFirst(f, name, val)] + outer
  {
    assert ([f] + outer)[0] == f;
    UpdateHead(f, OverwriteFirst(f, name, val), outer);
  }

  lemma UpdateHead<T>(x: T, y: T, rest: seq<T>)
    ensures ([x] + rest)[0 := y] == [y] + rest
  {
  }

  /** A frame that does not bind the name is passed over unchanged. */
  lemma SetInScopeTail(f: seq<Binding>, outer: seq<seq<Binding>>, name: string, val: Value)
    requires !Binds(f, name)
    ensures NearestBinder([f] + outer, name) == NearestBinder(outer, name) + 1
    ensures SetInScope([f] + outer, name, val) == [f] + SetInScope(outer, name, val)
  {
    assert ([f] + outer)[1..] == outer;
  }
}
