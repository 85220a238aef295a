/**
 The fragment of Python that the DTO code generator emits, with its meaning.
 Identifiers are structured instead of being strings, and the objects a
 generated function finds in its globals stand in the code directly.
 */
module GeneratedCode {
  import opened Outcomes
  import opened TransferTypes

  /** The text before the counter of an identifier: fixed, or `<source name>_<field>` for a hoisted access. */
  datatype Base = Plain(text: string) | Hoisted(source: Name, field: string)

  /** The identifier `<base>_<index>`. */
  datatype Name = Name(base: Base, index: nat)

  /** A source expression: a name, followed by item and attribute accesses. */
  datatype Expr =
    | Var(name: Name)
    | ItemOf(base: Expr, key: string)
    | AttrOf(base: Expr, attr: string)
  {
    function Root(): Name {
      match this
      case Var(name) => name
      case ItemOf(base, _) => base.Root()
      case AttrOf(base, _) => base.Root()
    }
  }

  /** What is assigned to: a local name, or an item of the dict a local name holds. */
  datatype Target = ToName(name: Name) | ToItem(dict: Name, key: string)
  {
    function Root(): Name {
      match this
      case ToName(name) => name
      case ToItem(dict, _) => dict
    }
  }

  datatype Cond =
    | IsMapping(e: Expr)
    | HasKey(e: Expr, key: string)
    | HasAttr(e: Expr, attr: string)
    | IsNotUnset(e: Expr)
    | IsNone(e: Expr)
    | IsInstance(e: Expr, cls: TypeId)

  datatype Rhs =
    | EmptyDict
    | Copy(e: Expr)
    | Construct(cls: TypeId, kwargs: Name)
    | Convert(origin: TypeId, e: Expr)
    | Collect(origin: TypeId, fn: Function, e: Expr)
    | CollectPairs(origin: TypeId, fn: Function, e: Expr)

  datatype Stmt =
    | Assign(target: Target, rhs: Rhs)
    | If(arms: seq<Arm>, orelse: seq<Stmt>)
    | TryPass(caught: Error, body: seq<Stmt>)

  /** One `if` or `elif` with its block. */
  datatype Arm = Arm(cond: Cond, body: seq<Stmt>)

  datatype Function = Function(param: Name, body: seq<Stmt>, result: Name)

  // ----- meaning -----

  type Env = map<Name, Value>

  /** The locals a block leaves behind, and the exception it was left by. */
  datatype Run = Run(env: Env, raised: Option<Error>)

  function Eval(e: Expr, env: Env): Outcome<Value> {
    match e
    case Var(name) => if name in env then Ok(env[name]) else Err(NameError)
    case ItemOf(base, key) => var v :- Eval(base, env); GetItem(v, key)
    case AttrOf(base, attr) => var v :- Eval(base, env); GetAttr(v, attr)
  }

  function Test(w: World, c: Cond, env: Env): Outcome<bool> {
    var v :- Eval(c.e, env);
    match c
    case IsMapping(_) => Ok(v.Mapping?)
    case HasKey(_, key) => if v.Mapping? then Ok(Lookup(v.entries, Text(key)).Ok?) else Err(TypeError)
    case HasAttr(_, attr) => Ok(GetAttr(v, attr).Ok?)
    case IsNotUnset(_) => Ok(!v.Unset?)
    case IsNone(_) => Ok(v.NoneValue?)
    case IsInstance(_, cls) => Ok(w.isInstance(v, cls))
  }

  function Store(t: Target, v: Value, env: Env): Run {
    match t
    case ToName(name) => Run(env[name := v], None)
    case ToItem(dict, key) =>
      if dict !in env then Run(env, Some(NameError))
      else if !env[dict].Mapping? then Run(env, Some(TypeError))
      else Run(env[dict := Mapping(Put(env[dict].entries, Text(key), v))], None)
  }

  function EvalRhs(w: World, r: Rhs, env: Env): Outcome<Value>
    decreases r, 3
  {
    match r
    case EmptyDict => Ok(Mapping([]))
    case Copy(e) => Eval(e, env)
    case Construct(cls, kwargs) =>
      var d :- Eval(Var(kwargs), env);
      if d.Mapping? then w.construct(cls, d.entries) else Err(TypeError)
    case Convert(origin, e) =>
      var v :- Eval(e, env);
      w.convert(origin, v)
    case Collect(origin, fn, e) =>
      var v :- Eval(e, env);
      var items :- Iterate(v);
      var rs :- CallAll(w, fn, items);
      w.collect(origin, rs)
    case CollectPairs(origin, fn, e) =>
      var v :- Eval(e, env);
      var items :- Items(v);
      var rs :- CallPairs(w, fn, items);
      w.collectPairs(origin, rs)
  }

  function Call(w: World, fn: Function, v: Value): Outcome<Value>
    decreases fn, 1
  {
    var run := ExecBlock(w, fn.body, map[fn.param := v]);
    if run.raised.Some? then Err(run.raised.value)
    else Eval(Var(fn.result), run.env)
  }

  function CallAll(w: World, fn: Function, items: seq<Value>): Outcome<seq<Value>>
    decreases fn, 2, |items|
  {
    if items == [] then Ok([])
    else
      var r :- Call(w, fn, items[0]);
      var rs :- CallAll(w, fn, items[1..]);
      Ok([r] + rs)
  }

  function CallPairs(w: World, fn: Function, items: Dict): Outcome<Dict>
    decreases fn, 2, |items|
  {
    if items == [] then Ok([])
    else
      var r :- Call(w, fn, items[0].1);
      var rs :- CallPairs(w, fn, items[1..]);
      Ok([(items[0].0, r)] + rs)
  }

  function Exec(w: World, s: Stmt, env: Env): Run
    decreases s, 1
  {
    match s
    case Assign(target, rhs) =>
      (match EvalRhs(w, rhs, env)
       case Ok(v) => Store(target, v, env)
       case Err(e) => Run(env, Some(e)))
    case If(arms, orelse) =>
      (match Choose(w, arms, env)
       case Err(e) => Run(env, Some(e))
       case Ok(None) => ExecBlock(w, orelse, env)
       case Ok(Some(i)) => ExecBlock(w, arms[i].body, env))
    case TryPass(caught, body) =>
      var run := ExecBlock(w, body, env);
      if run.raised == Some(caught) then Run(run.env, None) else run
  }

  /** The first arm whose test holds; the tests before it are evaluated in order. */
  function Choose(w: World, arms: seq<Arm>, env: Env): (r: Outcome<Option<nat>>)
    ensures r.Ok? && r.value.Some? ==> r.value.value < |arms|
  {
    if arms == [] then Ok(None)
    else
      var holds :- Test(w, arms[0].cond, env);
      if holds then Ok(Some(0))
      else
        var i :- Choose(w, arms[1..], env);
        Ok(if i.Some? then Some(i.value + 1) else None)
  }

  function ExecBlock(w: World, b: seq<Stmt>, env: Env): Run
    decreases b, 2
  {
    if b == [] then Run(env, None)
    else
      var run := Exec(w, b[0], env);
      if run.raised.Some? then run else ExecBlock(w, b[1..], run.env)
  }

  lemma {:induction false} ExecConcat(w: World, a: seq<Stmt>, b: seq<Stmt>, env: Env)
    ensures ExecBlock(w, a + b, env) ==
            var run := ExecBlock(w, a, env);
            if run.raised.Some? then run else ExecBlock(w, b, run.env)
  {
    if a == [] {
      assert a + b == b;
    } else {
      assert (a + b)[0] == a[0] && (a + b)[1..] == a[1..] + b;
      ExecConcat(w, a[1..], b, Exec(w, a[0], env).env);
    }
  }

  // ----- locals -----

  /** The two environments agree on the given names. */
  ghost predicate SameOn(names: set<Name>, env: Env, env': Env) {
    forall n | n in names :: (n in env <==> n in env') && (n in env ==> env[n] == env'[n])
  }

  lemma {:induction false} EvalSame(e: Expr, names: set<Name>, env: Env, env': Env)
    requires e.Root() in names && SameOn(names, env, env')
    ensures Eval(e, env) == Eval(e, env')
  {
    match e
    case Var(_) =>
    case ItemOf(base, _) => EvalSame(base, names, env, env');
    case AttrOf(base, _) => EvalSame(base, names, env, env');
  }
}
