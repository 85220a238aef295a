/**
 Running generated code gives what its direct meaning says, for every tree, every
 value and every choice of classes, with exceptions, caught or not. Along with
 that goes hygiene: of the names in use a block changes its target at most.
 */
module CompilerCorrectness {
  import opened Outcomes
  import opened TransferTypes
  import opened GeneratedCode
  import opened TransferCompiler
  import opened DirectMeaning

  ghost predicate Ready(target: Target, names: set<Name>, env: Env) {
    && target.Root() in names
    && (target.ToItem? ==> target.dict in env && env[target.dict].Mapping?)
  }

  ghost predicate Stored(target: Target, v: Value, env: Env, env': Env) {
    match target
    case ToName(n) => n in env' && env'[n] == v
    case ToItem(d, key) =>
      && d in env && env[d].Mapping?
      && d in env' && env'[d] == Mapping(Put(env[d].entries, Text(key), v))
  }

  /**
   The run ended the way `d` says. Of the names in use beforehand it changed the
   target, or none when it raised: a partly filled dict is left as it was.
   */
  ghost predicate Delivers(run: Run, d: Outcome<Value>, target: Target, names: set<Name>, env: Env) {
    match d
    case Ok(v) =>
      && run.raised == None
      && Stored(target, v, env, run.env)
      && SameOn(names - {target.Root()}, env, run.env)
    case Err(e) => run.raised == Some(e) && SameOn(names, env, run.env)
  }

  /** The same for a block that fills the dict held by `dict`. */
  ghost predicate Fills(run: Run, d: Outcome<Dict>, dict: Name, names: set<Name>, env: Env) {
    && SameOn(names - {dict}, env, run.env)
    && match d
       case Ok(acc) => run.raised == None && dict in run.env && run.env[dict] == Mapping(acc)
       case Err(e) => run.raised == Some(e)
  }

  lemma {:induction false} ExecOne(w: World, s: Stmt, env: Env)
    ensures ExecBlock(w, [s], env) == Exec(w, s, env)
  {
    assert [s][1..] == [];
  }

  lemma {:induction false} ExecCons(w: World, s: Stmt, b: seq<Stmt>, env: Env)
    ensures ExecBlock(w, [s] + b, env) ==
            var run := Exec(w, s, env);
            if run.raised.Some? then run else ExecBlock(w, b, run.env)
  {
    assert ([s] + b)[1..] == b;
  }

  /** Assigning the value of `rhs` to the target. */
  lemma {:induction false} AssignDelivers(w: World, target: Target, rhs: Rhs, names: set<Name>, env: Env)
    requires Ready(target, names, env)
    ensures Delivers(ExecBlock(w, [Assign(target, rhs)], env), EvalRhs(w, rhs, env), target, names, env)
  {
    ExecOne(w, Assign(target, rhs), env);
  }

  // ----- fields -----

  /** The block of a partial data field: the value gets a name, and is skipped when it is UNSET. */
  lemma {:induction false} PartialBlockCorrect(
    w: World, cx: Context, f: Field, dict: Name, access: Expr, value: Name, names: set<Name>, env: Env, acc: Dict)
    requires cx.isData && f.isPartial && value !in names
    requires GenType(cx, f.transferType, cx.nestedAsDict, Var(value), ToItem(dict, f.name), names + {value}).Gen?
    requires dict in names && dict in env && env[dict] == Mapping(acc)
    ensures var inner := GenType(cx, f.transferType, cx.nestedAsDict, Var(value), ToItem(dict, f.name), names + {value});
            var block := [Assign(ToName(value), Copy(access)), If([Arm(IsNotUnset(Var(value)), inner.block)], [])];
            var d := DirectBlock(w, cx, f, Eval(access, env), acc);
            && names <= inner.names
            && Fills(ExecBlock(w, block, env), d, dict, names, env)
            && (d.Err? ==> SameOn(names, env, ExecBlock(w, block, env).env))
    decreases f, 0, 0
  {
    var target := ToItem(dict, f.name);
    var inner := GenType(cx, f.transferType, cx.nestedAsDict, Var(value), target, names + {value});
    var assign, test := Assign(ToName(value), Copy(access)), If([Arm(IsNotUnset(Var(value)), inner.block)], []);
    ExecCons(w, assign, [test], env);
    assert [assign, test] == [assign] + [test];
    GenTypeNames(cx, f.transferType, cx.nestedAsDict, Var(value), target, names + {value});
    var read := Eval(access, env);
    if read.Ok? {
      var env1 := env[value := read.value];
      assert Exec(w, assign, env) == Run(env1, None);
      ExecOne(w, test, env1);
      assert test.arms[1..] == [] && Choose(w, test.arms[1..], env1) == Ok(None);
      if !read.value.Unset? {
        TypeCorrect(w, cx, f.transferType, cx.nestedAsDict, Var(value), target, names + {value}, env1);
      }
    }
  }

  lemma {:induction false} PlainBlockCorrect(
    w: World, cx: Context, f: Field, dict: Name, access: Expr, names: set<Name>, env: Env, acc: Dict)
    requires !(cx.isData && f.isPartial)
    requires GenType(cx, f.transferType, cx.nestedAsDict, access, ToItem(dict, f.name), names).Gen?
    requires access.Root() in names && dict in names && dict in env && env[dict] == Mapping(acc)
    ensures var gen := GenType(cx, f.transferType, cx.nestedAsDict, access, ToItem(dict, f.name), names);
            var d := DirectBlock(w, cx, f, Eval(access, env), acc);
            && names <= gen.names
            && Fills(ExecBlock(w, gen.block, env), d, dict, names, env)
            && (d.Err? ==> SameOn(names, env, ExecBlock(w, gen.block, env).env))
    decreases f, 0, 0
  {
    TypeCorrect(w, cx, f.transferType, cx.nestedAsDict, access, ToItem(dict, f.name), names, env);
  }

  lemma {:induction false} FieldCorrect(
    w: World, cx: Context, f: Field, dict: Name, src: Expr, names: set<Name>, env: Env, v: Value, acc: Dict)
    requires GenField(cx, f, dict, v.Mapping?, src, names).Gen?
    requires src.Root() in names && dict in names && src.Root() != dict
    requires Eval(src, env) == Ok(v)
    requires dict in env && env[dict] == Mapping(acc)
    ensures var gen := GenField(cx, f, dict, v.Mapping?, src, names);
            && names <= gen.names
            && Fills(ExecBlock(w, gen.block, env), DirectField(w, cx, f, v, acc), dict, names, env)
    decreases f, 0, 1
  {
    var access := FieldExpr(v.Mapping?, src, f.name);
    assert Eval(access, env) == GetField(v, f.name);
    if cx.isData && f.isPartial {
      var value := Fresh(Plain("source_value"), names);
      var inner := GenType(cx, f.transferType, cx.nestedAsDict, Var(value), ToItem(dict, f.name), names + {value});
      PartialBlockCorrect(w, cx, f, dict, access, value, names, env, acc);
      var block := [Assign(ToName(value), Copy(access)), If([Arm(IsNotUnset(Var(value)), inner.block)], [])];
      GuardCorrect(w, f, src, block, env, v);
    } else {
      PlainBlockCorrect(w, cx, f, dict, access, names, env, acc);
      var block := GenType(cx, f.transferType, cx.nestedAsDict, access, ToItem(dict, f.name), names).block;
      GuardCorrect(w, f, src, block, env, v);
    }
  }

  /** The guard runs the block, skips it, or swallows the exception of a failed access. */
  lemma {:induction false} GuardCorrect(w: World, f: Field, src: Expr, block: seq<Stmt>, env: Env, v: Value)
    requires Eval(src, env) == Ok(v)
    ensures var run := ExecBlock(w, [GuardAccess(f, v.Mapping?, src, block)], env);
            var inner := ExecBlock(w, block, env);
            run == if f.ExpectOptional() then
                     if GetField(v, f.name).Ok? then inner else Run(env, None)
                   else if inner.raised == Some(AccessError(v.Mapping?)) then Run(inner.env, None)
                   else inner
  {
    var s := GuardAccess(f, v.Mapping?, src, block);
    ExecOne(w, s, env);
    if f.ExpectOptional() {
      assert s.arms[1..] == [];
      assert Choose(w, s.arms[1..], env) == Ok(None);
    }
  }

  lemma {:induction false} FieldsCorrect(
    w: World, cx: Context, fields: seq<Field>, dict: Name, src: Expr, names: set<Name>, env: Env, v: Value, acc: Dict)
    requires GenFields(cx, fields, dict, v.Mapping?, src, names).Gen?
    requires src.Root() in names && dict in names && src.Root() != dict
    requires Eval(src, env) == Ok(v)
    requires dict in env && env[dict] == Mapping(acc)
    ensures var gen := GenFields(cx, fields, dict, v.Mapping?, src, names);
            && names <= gen.names
            && Fills(ExecBlock(w, gen.block, env), DirectFields(w, cx, fields, v, acc), dict, names, env)
    decreases fields, 1
  {
    if fields == [] {
    } else if !Relevant(cx, fields[0]) {
      FieldsCorrect(w, cx, fields[1..], dict, src, names, env, v, acc);
    } else {
      var first := GenField(cx, fields[0], dict, v.Mapping?, src, names);
      FieldCorrect(w, cx, fields[0], dict, src, names, env, v, acc);
      var run := ExecBlock(w, first.block, env);
      var rest := GenFields(cx, fields[1..], dict, v.Mapping?, src, first.names);
      ExecConcat(w, first.block, rest.block, env);
      match DirectField(w, cx, fields[0], v, acc)
      case Err(_) =>
        GenFieldsNames(cx, fields[1..], dict, v.Mapping?, src, first.names);
      case Ok(acc') =>
        EvalSame(src, names - {dict}, env, run.env);
        FieldsCorrect(w, cx, fields[1..], dict, src, first.names, run.env, v, acc');
    }
  }

  // ----- instances -----

  /** The two branches, from a source that may fail to evaluate. */
  lemma {:induction false} BranchesCorrect(
    w: World, cx: Context, fields: seq<Field>, dict: Name, src: Expr, names: set<Name>, env: Env)
    requires GenBranches(cx, fields, dict, src, names).Gen?
    requires src.Root() in names && dict in names && src.Root() != dict
    requires dict in env && env[dict] == Mapping([])
    ensures var gen := GenBranches(cx, fields, dict, src, names);
            && names <= gen.names
            && Fills(ExecBlock(w, gen.block, env),
                     (match Eval(src, env)
                      case Ok(v) => DirectFields(w, cx, fields, v, [])
                      case Err(e) => Err(e)),
                     dict, names, env)
    decreases fields, 2, 0
  {
    var items := GenFields(cx, fields, dict, true, src, names);
    var attrs := GenFields(cx, fields, dict, false, src, items.names);
    GenFieldsNames(cx, fields, dict, true, src, names);
    GenFieldsNames(cx, fields, dict, false, src, items.names);
    var s := If([Arm(IsMapping(src), items.block)], attrs.block);
    ExecOne(w, s, env);
    assert s.arms[1..] == [] && Choose(w, s.arms[1..], env) == Ok(None);
    match Eval(src, env)
    case Err(_) =>
    case Ok(v) =>
      if v.Mapping? {
        FieldsCorrect(w, cx, fields, dict, src, names, env, v, []);
      } else {
        FieldsCorrect(w, cx, fields, dict, src, items.names, env, v, []);
      }
  }

  /** From the filled dict to the target. */
  lemma {:induction false} FinishCorrect(
    w: World, destination: Destination, dict: Name, target: Target, d: Dict, names: set<Name>, env: Env)
    requires Ready(target, names, env) && dict !in names
    requires dict in env && env[dict] == Mapping(d)
    ensures Delivers(ExecBlock(w, [Finish(destination, dict, target)], env), Build(w, destination, d), target, names, env)
  {
    AssignDelivers(w, target, Finish(destination, dict, target).rhs, names, env);
    assert Eval(Var(dict), env) == Ok(Mapping(d));
  }

  /** Locals that were not in use beforehand do not matter. */
  lemma {:induction false} DeliversFrom(
    run: Run, d: Outcome<Value>, target: Target, names: set<Name>, env: Env, env1: Env)
    requires target.Root() in names && SameOn(names, env, env1)
    requires Delivers(run, d, target, names, env1)
    ensures Delivers(run, d, target, names, env)
  {
  }

  lemma {:induction false} ReadsCorrect(
    w: World, cx: Context, fields: seq<Field>, dict: Name, src: Expr, names: set<Name>, env: Env)
    requires GenReads(cx, fields, dict, src, names).Gen?
    requires src.Root() in names && dict in names && src.Root() != dict
    requires dict in env && env[dict] == Mapping([])
    ensures var gen := GenReads(cx, fields, dict, src, names);
            && names <= gen.names
            && Fills(ExecBlock(w, gen.block, env), DirectReads(w, cx, fields, Eval(src, env)), dict, names, env)
    decreases fields, 3
  {
    if RelevantFields(cx, fields) != [] {
      if MustHoist(cx, fields, src) {
        var hoisted := Fresh(HoistBase(src).value, names);
        var hoist := Assign(ToName(hoisted), Copy(src));
        var branches := GenBranches(cx, fields, dict, Var(hoisted), names + {hoisted});
        ExecCons(w, hoist, branches.block, env);
        if Eval(src, env).Ok? {
          var env1 := env[hoisted := Eval(src, env).value];
          assert Exec(w, hoist, env) == Run(env1, None);
          BranchesCorrect(w, cx, fields, dict, Var(hoisted), names + {hoisted}, env1);
        } else {
          GenBranchesNames(cx, fields, dict, Var(hoisted), names + {hoisted});
        }
      } else {
        BranchesCorrect(w, cx, fields, dict, src, names, env);
      }
    }
  }

  lemma {:induction false} InstanceCorrect(
    w: World, cx: Context, fields: seq<Field>, destination: Destination, src: Expr, target: Target, names: set<Name>,
    env: Env)
    requires GenInstance(cx, fields, destination, src, target, names).Gen?
    requires src.Root() in names && Ready(target, names, env)
    ensures var gen := GenInstance(cx, fields, destination, src, target, names);
            && names <= gen.names
            && Delivers(ExecBlock(w, gen.block, env), DirectInstance(w, cx, fields, destination, Eval(src, env)),
                        target, names, env)
    decreases fields, 4
  {
    var dict := Fresh(Plain("unstructured_data"), names);
    var start, finish := Assign(ToName(dict), EmptyDict), Finish(destination, dict, target);
    var env1 := env[dict := Mapping([])];
    var filling := GenReads(cx, fields, dict, src, names + {dict}).block;
    EvalSame(src, names, env, env1);
    ReadsCorrect(w, cx, fields, dict, src, names + {dict}, env1);
    assert [start] + filling + [finish] == [start] + (filling + [finish]);
    ExecCons(w, start, filling + [finish], env);
    assert Exec(w, start, env) == Run(env1, None);
    ExecConcat(w, filling, [finish], env1);
    var run := ExecBlock(w, filling, env1);
    var filled := DirectReads(w, cx, fields, Eval(src, env));
    if filled.Ok? {
      FinishCorrect(w, destination, dict, target, filled.value, names, run.env);
      DeliversFrom(ExecBlock(w, [finish], run.env), Build(w, destination, filled.value), target, names, env, run.env);
    }
  }

  // ----- types -----

  lemma {:induction false} TypeCorrect(
    w: World, cx: Context, t: TransferType, asDict: bool, src: Expr, target: Target, names: set<Name>, env: Env)
    requires GenType(cx, t, asDict, src, target, names).Gen?
    requires src.Root() in names && Ready(target, names, env)
    ensures var gen := GenType(cx, t, asDict, src, target, names);
            && names <= gen.names
            && Delivers(ExecBlock(w, gen.block, env), DirectType(w, cx, t, asDict, Eval(src, env)), target, names, env)
    decreases t, 5
  {
    var gen := GenType(cx, t, asDict, src, target, names);
    if IsNested(t) {
      InstanceCorrect(w, cx, t.nested.value.fields, NestedDestination(t, asDict, cx.isData), src, target, names, env);
    } else if t.UnionType? && HasNested(t) {
      UnionCorrect(w, cx, t.members, src, target, names, env);
    } else {
      AssignDelivers(w, target, gen.block[0].rhs, names, env);
      if t.CollectionType? && HasNested(t) {
        var v := Eval(src, env);
        if v.Ok? && Iterate(v.value).Ok? {
          ItemsCorrect(w, cx.isData, t.inner, Iterate(v.value).value);
        }
      } else if t.MappingType? && HasNested(t) {
        var v := Eval(src, env);
        if v.Ok? && Items(v.value).Ok? {
          PairsCorrect(w, cx.isData, t.value, Items(v.value).value);
        }
      }
    }
  }

  lemma {:induction false} ItemsCorrect(w: World, isData: bool, t: TransferType, items: seq<Value>)
    requires GenTypeFunction(isData, t).Some?
    ensures CallAll(w, GenTypeFunction(isData, t).value, items) == DirectItems(w, isData, t, items)
    decreases t, 7, |items|
  {
    if items != [] {
      TypeFunctionCorrect(w, isData, t, items[0]);
      ItemsCorrect(w, isData, t, items[1..]);
    }
  }

  lemma {:induction false} PairsCorrect(w: World, isData: bool, t: TransferType, items: Dict)
    requires GenTypeFunction(isData, t).Some?
    ensures CallPairs(w, GenTypeFunction(isData, t).value, items) == DirectPairs(w, isData, t, items)
    decreases t, 7, |items|
  {
    if items != [] {
      TypeFunctionCorrect(w, isData, t, items[0].1);
      PairsCorrect(w, isData, t, items[1..]);
    }
  }

  lemma {:induction false} TypeFunctionCorrect(w: World, isData: bool, t: TransferType, v: Value)
    requires GenTypeFunction(isData, t).Some?
    ensures Call(w, GenTypeFunction(isData, t).value, v) == DirectType(w, Context(isData, false), t, false, Ok(v))
    decreases t, 6
  {
    TypeCorrect(w, Context(isData, false), t, false, Var(SOURCE_VALUE), ToName(RESULT_OF_TYPE),
                {RESULT_OF_TYPE, SOURCE_VALUE}, map[SOURCE_VALUE := v]);
  }

  // ----- unions -----

  lemma {:induction false} MemberCorrect(
    w: World, cx: Context, t: TransferType, src: Expr, target: Target, names: set<Name>, env: Env, v: Value)
    requires GenMember(cx, t, src, target, names).Gen?
    requires src.Root() in names && Ready(target, names, env) && Eval(src, env) == Ok(v)
    ensures var gen := GenMember(cx, t, src, target, names);
            && names <= gen.names
            && Delivers(ExecBlock(w, gen.block, env), DirectMember(w, cx, t, v), target, names, env)
    decreases t, 4
  {
    if Rebuilt(t) {
      InstanceCorrect(w, cx, t.nested.value.fields, MemberDestination(t, cx.isData), src, target, names, env);
    } else {
      AssignDelivers(w, target, Copy(src), names, env);
    }
  }

  /** The outcome of running the arm that is chosen, if one is. */
  ghost predicate ArmDelivers(
    w: World, arms: seq<Arm>, d: Option<Outcome<Value>>, target: Target, names: set<Name>, env: Env)
  {
    var chosen := Choose(w, arms, env);
    && chosen.Ok?
    && match d
       case None => chosen.value == None
       case Some(r) => chosen.value.Some? && Delivers(ExecBlock(w, arms[chosen.value.value].body, env), r, target, names, env)
  }

  lemma {:induction false} ArmsStep(
    w: World, arm: Arm, arms: seq<Arm>, first: Outcome<Value>, d: Option<Outcome<Value>>, target: Target,
    names: set<Name>, env: Env)
    requires Test(w, arm.cond, env).Ok?
    requires Test(w, arm.cond, env).value ==> Delivers(ExecBlock(w, arm.body, env), first, target, names, env)
    requires ArmDelivers(w, arms, d, target, names, env)
    ensures ArmDelivers(w, [arm] + arms, if Test(w, arm.cond, env).value then Some(first) else d, target, names, env)
  {
    assert ([arm] + arms)[1..] == arms;
    var chosen := Choose(w, arms, env).value;
    if chosen.Some? {
      assert ([arm] + arms)[chosen.value + 1] == arms[chosen.value];
    }
  }

  lemma {:induction false} DeliversForFewer(
    run: Run, d: Outcome<Value>, target: Target, names: set<Name>, more: set<Name>, env: Env)
    requires names <= more && Delivers(run, d, target, more, env)
    ensures Delivers(run, d, target, names, env)
  {
  }

  /** The arm that is chosen delivers what the first fitting member gives; no arm is chosen if none fits. */
  lemma {:induction false} MembersCorrect(
    w: World, cx: Context, members: seq<TransferType>, all: bool, src: Expr, target: Target, names: set<Name>,
    env: Env, v: Value)
    requires GenMembers(cx, members, all, src, target, names).GenArms?
    requires src.Root() in names && Ready(target, names, env) && Eval(src, env) == Ok(v)
    ensures var gen := GenMembers(cx, members, all, src, target, names);
            && names <= gen.names
            && ArmDelivers(w, gen.arms, DirectMembers(w, cx, members, all, v), target, names, env)
    decreases members, 5
  {
    if members == [] {
    } else if !Tested(members[0], all) {
      MembersCorrect(w, cx, members[1..], all, src, target, names, env, v);
    } else {
      var body := GenMember(cx, members[0], src, target, names);
      var rest := GenMembers(cx, members[1..], all, src, target, body.names);
      var d := DirectMembers(w, cx, members[1..], all, v);
      var arm := Arm(MemberTest(cx, members[0], src), body.block);
      MemberCorrect(w, cx, members[0], src, target, names, env, v);
      MembersCorrect(w, cx, members[1..], all, src, target, body.names, env, v);
      ArmDeliversForFewer(w, rest.arms, d, target, names, body.names, env);
      TestMember(w, cx, members[0], src, env, v);
      ArmsStep(w, arm, rest.arms, DirectMember(w, cx, members[0], v), d, target, names, env);
    }
  }

  lemma {:induction false} TestMember(w: World, cx: Context, t: TransferType, src: Expr, env: Env, v: Value)
    requires t.SimpleType? && Eval(src, env) == Ok(v)
    ensures Test(w, MemberTest(cx, t, src), env) == Ok(Fits(w, cx, t, v))
  {
  }

  lemma {:induction false} ArmDeliversForFewer(
    w: World, arms: seq<Arm>, d: Option<Outcome<Value>>, target: Target, names: set<Name>, more: set<Name>, env: Env)
    requires names <= more && ArmDelivers(w, arms, d, target, more, env)
    ensures ArmDelivers(w, arms, d, target, names, env)
  {
    if d.Some? {
      var i := Choose(w, arms, env).value.value;
      DeliversForFewer(ExecBlock(w, arms[i].body, env), d.value, target, names, more, env);
    }
  }

  lemma {:induction false} UnionCorrect(
    w: World, cx: Context, members: seq<TransferType>, src: Expr, target: Target, names: set<Name>, env: Env)
    requires GenUnion(cx, members, src, target, names).Gen?
    requires src.Root() in names && Ready(target, names, env)
    ensures var gen := GenUnion(cx, members, src, target, names);
            && names <= gen.names
            && Delivers(ExecBlock(w, gen.block, env),
                        (match Eval(src, env) case Err(e) => Err(e) case Ok(v) => DirectUnion(w, cx, members, v)),
                        target, names, env)
    decreases members, 6
  {
    var gen := GenUnion(cx, members, src, target, names);
    var mixed := MixedUnion(members);
    var tests := GenMembers(cx, members, mixed, src, target, names);
    GenMembersNames(cx, members, mixed, src, target, names);
    ExecOne(w, gen.block[0], env);
    if mixed {
      GenTypeNames(cx, members[CompositeIndex(members)], false, src, target, tests.names);
    }
    match Eval(src, env)
    case Err(e) =>
      MembersTestSource(cx, members, mixed, src, target, names);
      assert Test(w, tests.arms[0].cond, env) == Err(e);
    case Ok(v) =>
      MembersCorrect(w, cx, members, mixed, src, target, names, env, v);
      if DirectMembers(w, cx, members, mixed, v) == None {
        if mixed {
          TypeCorrect(w, cx, members[CompositeIndex(members)], false, src, target, tests.names, env);
        } else {
          AssignDelivers(w, target, Copy(src), names, env);
        }
      }
  }

  lemma {:induction false} MembersTestSource(
    cx: Context, members: seq<TransferType>, all: bool, src: Expr, target: Target, names: set<Name>)
    requires GenMembers(cx, members, all, src, target, names).GenArms?
    ensures forall a | a in GenMembers(cx, members, all, src, target, names).arms :: a.cond.e == src
    decreases members
  {
    if members == [] {
    } else if !Tested(members[0], all) {
      MembersTestSource(cx, members[1..], all, src, target, names);
    } else {
      MembersTestSource(cx, members[1..], all, src, target, GenMember(cx, members[0], src, target, names).names);
    }
  }

  // ----- names only grow -----

  lemma {:induction false} GenFieldNames(
    cx: Context, f: Field, dict: Name, mapping: bool, src: Expr, names: set<Name>)
    ensures var gen := GenField(cx, f, dict, mapping, src, names); gen.Gen? ==> names <= gen.names
    decreases f, 0
  {
    var access := FieldExpr(mapping, src, f.name);
    var value := Fresh(Plain("source_value"), names);
    if cx.isData && f.isPartial {
      GenTypeNames(cx, f.transferType, cx.nestedAsDict, Var(value), ToItem(dict, f.name), names + {value});
    } else {
      GenTypeNames(cx, f.transferType, cx.nestedAsDict, access, ToItem(dict, f.name), names);
    }
  }

  lemma {:induction false} GenFieldsNames(
    cx: Context, fields: seq<Field>, dict: Name, mapping: bool, src: Expr, names: set<Name>)
    ensures var gen := GenFields(cx, fields, dict, mapping, src, names); gen.Gen? ==> names <= gen.names
    decreases fields, 1
  {
    if fields != [] {
      if !Relevant(cx, fields[0]) {
        GenFieldsNames(cx, fields[1..], dict, mapping, src, names);
      } else {
        GenFieldNames(cx, fields[0], dict, mapping, src, names);
        var first := GenField(cx, fields[0], dict, mapping, src, names);
        if first.Gen? {
          GenFieldsNames(cx, fields[1..], dict, mapping, src, first.names);
        }
      }
    }
  }

  lemma {:induction false} GenBranchesNames(
    cx: Context, fields: seq<Field>, dict: Name, src: Expr, names: set<Name>)
    ensures var gen := GenBranches(cx, fields, dict, src, names); gen.Gen? ==> names <= gen.names
    decreases fields, 2
  {
    GenFieldsNames(cx, fields, dict, true, src, names);
    var items := GenFields(cx, fields, dict, true, src, names);
    if items.Gen? {
      GenFieldsNames(cx, fields, dict, false, src, items.names);
    }
  }

  lemma {:induction false} GenInstanceNames(
    cx: Context, fields: seq<Field>, destination: Destination, src: Expr, target: Target, names: set<Name>)
    ensures var gen := GenInstance(cx, fields, destination, src, target, names); gen.Gen? ==> names <= gen.names
    decreases fields, 4
  {
    var dict := Fresh(Plain("unstructured_data"), names);
    var used := names + {dict};
    if RelevantFields(cx, fields) != [] {
      if MustHoist(cx, fields, src) {
        if HoistBase(src).Some? {
          var hoisted := Fresh(HoistBase(src).value, used);
          GenBranchesNames(cx, fields, dict, Var(hoisted), used + {hoisted});
        }
      } else {
        GenBranchesNames(cx, fields, dict, src, used);
      }
    }
    var filling := GenReads(cx, fields, dict, src, used);
    assert filling.Gen? ==> used <= filling.names;
  }

  lemma {:induction false} GenTypeNames(
    cx: Context, t: TransferType, asDict: bool, src: Expr, target: Target, names: set<Name>)
    ensures var gen := GenType(cx, t, asDict, src, target, names); gen.Gen? ==> names <= gen.names
    decreases t, 5
  {
    if IsNested(t) {
      GenInstanceNames(cx, t.nested.value.fields, NestedDestination(t, asDict, cx.isData), src, target, names);
    } else if t.UnionType? && HasNested(t) {
      var mixed := MixedUnion(t.members);
      GenMembersNames(cx, t.members, mixed, src, target, names);
      var tests := GenMembers(cx, t.members, mixed, src, target, names);
      if tests.GenArms? {
        if mixed {
          GenTypeNames(cx, t.members[CompositeIndex(t.members)], false, src, target, tests.names);
        }
        var orelse := GenElse(cx, t.members, src, target, tests.names);
        assert orelse.Gen? ==> tests.names <= orelse.names;
      }
    }
  }

  lemma {:induction false} GenMembersNames(
    cx: Context, members: seq<TransferType>, all: bool, src: Expr, target: Target, names: set<Name>)
    ensures var gen := GenMembers(cx, members, all, src, target, names); gen.GenArms? ==> names <= gen.names
    decreases members, 5
  {
    if members != [] {
      if !Tested(members[0], all) {
        GenMembersNames(cx, members[1..], all, src, target, names);
      } else {
        if Rebuilt(members[0]) {
          GenInstanceNames(cx, members[0].nested.value.fields, MemberDestination(members[0], cx.isData), src, target,
                           names);
        }
        var body := GenMember(cx, members[0], src, target, names);
        if body.Gen? {
          GenMembersNames(cx, members[1..], all, src, target, body.names);
        }
      }
    }
  }

  // ----- whole functions -----

  lemma {:induction false} InstanceFunctionCorrect(
    w: World, isData: bool, fields: seq<Field>, destination: Destination, v: Value)
    requires GenInstanceFunction(isData, fields, destination).Some?
    ensures Call(w, GenInstanceFunction(isData, fields, destination).value, v)
         == DirectInstance(w, Context(isData, destination.DictDestination?), fields, destination, Ok(v))
  {
    InstanceCorrect(w, Context(isData, destination.DictDestination?), fields, destination, Var(SOURCE_INSTANCE),
                    ToName(RESULT_OF_TYPE), {RESULT_OF_TYPE, SOURCE_INSTANCE}, map[SOURCE_INSTANCE := v]);
  }

  /** The generated transfer function computes its direct meaning. */
  lemma {:induction false} DataFunctionCorrect(
    w: World, isData: bool, s: Shape, fields: seq<Field>, destination: Destination, v: Value)
    requires GenData(isData, s, fields, destination).Some?
    ensures Call(w, GenData(isData, s, fields, destination).value, v)
         == DirectData(w, isData, s, fields, destination, v)
    decreases s, 0
  {
    var fn := GenData(isData, s, fields, destination).value;
    match s
    case PlainShape =>
      InstanceFunctionCorrect(w, isData, fields, destination, v);
    case CollectionShape(_, item) =>
      ExecOne(w, fn.body[0], map[fn.param := v]);
      if Iterate(v).Ok? {
        DataItemsCorrect(w, isData, item, fields, destination, Iterate(v).value);
      }
    case MappingShape(_, key, _) =>
      ExecOne(w, fn.body[0], map[fn.param := v]);
      if Items(v).Ok? {
        DataPairsCorrect(w, isData, key, fields, destination, Items(v).value);
      }
  }

  lemma {:induction false} DataItemsCorrect(
    w: World, isData: bool, s: Shape, fields: seq<Field>, destination: Destination, items: seq<Value>)
    requires GenData(isData, s, fields, destination).Some?
    ensures CallAll(w, GenData(isData, s, fields, destination).value, items)
         == DirectDataItems(w, isData, s, fields, destination, items)
    decreases s, 1, |items|
  {
    if items != [] {
      DataFunctionCorrect(w, isData, s, fields, destination, items[0]);
      DataItemsCorrect(w, isData, s, fields, destination, items[1..]);
    }
  }

  lemma {:induction false} DataPairsCorrect(
    w: World, isData: bool, s: Shape, fields: seq<Field>, destination: Destination, items: Dict)
    requires GenData(isData, s, fields, destination).Some?
    ensures CallPairs(w, GenData(isData, s, fields, destination).value, items)
         == DirectDataPairs(w, isData, s, fields, destination, items)
    decreases s, 1, |items|
  {
    if items != [] {
      DataFunctionCorrect(w, isData, s, fields, destination, items[0].1);
      DataPairsCorrect(w, isData, s, fields, destination, items[1..]);
    }
  }
}
