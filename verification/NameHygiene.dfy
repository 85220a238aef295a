/**
 Hygiene of generated code: a block assigns to its target and to names that were
 created while it was generated, and running it changes nothing else.
 */
module NameHygiene {
  import opened Outcomes
  import opened TransferTypes
  import opened GeneratedCode
  import opened TransferCompiler
  import opened CompilerCorrectness

  // ----- what a block assigns to -----

  function Written(b: seq<Stmt>): set<Name>
    decreases b, 1
  {
    if b == [] then {} else WrittenBy(b[0]) + Written(b[1..])
  }

  function WrittenBy(s: Stmt): set<Name>
    decreases s, 0
  {
    match s
    case Assign(target, _) => {target.Root()}
    case If(arms, orelse) => WrittenInArms(arms) + Written(orelse)
    case TryPass(_, body) => Written(body)
  }

  function WrittenInArms(arms: seq<Arm>): set<Name>
    decreases arms, 2
  {
    if arms == [] then {} else Written(arms[0].body) + WrittenInArms(arms[1..])
  }

  lemma {:induction false} WrittenConcat(a: seq<Stmt>, b: seq<Stmt>)
    ensures Written(a + b) == Written(a) + Written(b)
    decreases |a|
  {
    if a == [] {
      assert a + b == b;
    } else {
      assert (a + b)[0] == a[0] && (a + b)[1..] == a[1..] + b;
      WrittenConcat(a[1..], b);
    }
  }

  lemma {:induction false} WrittenOne(s: Stmt)
    ensures Written([s]) == WrittenBy(s)
  {
    assert [s][1..] == [] && Written([]) == {};
  }

  lemma {:induction false} WrittenInArm(c: Cond, body: seq<Stmt>, arms: seq<Arm>)
    ensures WrittenInArms([Arm(c, body)] + arms) == Written(body) + WrittenInArms(arms)
  {
    assert ([Arm(c, body)] + arms)[1..] == arms;
  }

  /** An `if` with a single test, and perhaps an `else`. */
  lemma {:induction false} WrittenIf(c: Cond, body: seq<Stmt>, orelse: seq<Stmt>)
    ensures Written([If([Arm(c, body)], orelse)]) == Written(body) + Written(orelse)
  {
    WrittenOne(If([Arm(c, body)], orelse));
    WrittenInArm(c, body, []);
    assert [Arm(c, body)] + [] == [Arm(c, body)] && WrittenInArms([]) == {};
  }

  // ----- running a block changes nothing else -----

  ghost predicate Untouched(n: Name, env: Env, env': Env) {
    (n in env <==> n in env') && (n in env ==> env[n] == env'[n])
  }

  lemma {:induction false} StmtLeaves(w: World, s: Stmt, env: Env, n: Name)
    requires n !in WrittenBy(s)
    ensures Untouched(n, env, Exec(w, s, env).env)
    decreases s, 0
  {
    match s
    case Assign(_, _) =>
    case If(arms, orelse) =>
      var chosen := Choose(w, arms, env);
      if chosen.Ok? && chosen.value.Some? {
        ArmIsWritten(arms, chosen.value.value, n);
        BlockLeaves(w, arms[chosen.value.value].body, env, n);
      } else if chosen.Ok? {
        BlockLeaves(w, orelse, env, n);
      }
    case TryPass(_, body) => BlockLeaves(w, body, env, n);
  }

  lemma {:induction false} ArmIsWritten(arms: seq<Arm>, i: nat, n: Name)
    requires i < |arms| && n !in WrittenInArms(arms)
    ensures n !in Written(arms[i].body)
  {
    if i > 0 {
      ArmIsWritten(arms[1..], i - 1, n);
    }
  }

  /** Whether it raises or not, a block leaves alone what it does not assign to. */
  lemma {:induction false} BlockLeaves(w: World, b: seq<Stmt>, env: Env, n: Name)
    requires n !in Written(b)
    ensures Untouched(n, env, ExecBlock(w, b, env).env)
    decreases b, 1
  {
    if b != [] {
      StmtLeaves(w, b[0], env, n);
      var run := Exec(w, b[0], env);
      if run.raised.None? {
        BlockLeaves(w, b[1..], run.env, n);
      }
    }
  }

  // ----- generated blocks -----

  /** Only names created meanwhile, and one given beforehand, are assigned to. */
  predicate OwnNames(written: set<Name>, names: set<Name>, names': set<Name>, root: Name) {
    names <= names' && written <= (names' - names) + {root}
  }

  predicate Owns(gen: Gen, names: set<Name>, root: Name) {
    gen.Gen? ==> OwnNames(Written(gen.block), names, gen.names, root)
  }

  lemma {:induction false} GuardWrites(f: Field, mapping: bool, src: Expr, block: seq<Stmt>)
    ensures Written([GuardAccess(f, mapping, src, block)]) == Written(block)
  {
    if f.ExpectOptional() {
      WrittenIf(PresenceTest(mapping, src, f.name), block, []);
    } else {
      WrittenOne(GuardAccess(f, mapping, src, block));
    }
  }

  lemma {:induction false} FieldOwns(cx: Context, f: Field, dict: Name, mapping: bool, src: Expr, names: set<Name>)
    ensures Owns(GenField(cx, f, dict, mapping, src, names), names, dict)
    decreases f, 1
  {
    var access, target := FieldExpr(mapping, src, f.name), ToItem(dict, f.name);
    if cx.isData && f.isPartial {
      var value := Fresh(Plain("source_value"), names);
      TypeOwns(cx, f.transferType, cx.nestedAsDict, Var(value), target, names + {value});
      var gen := GenType(cx, f.transferType, cx.nestedAsDict, Var(value), target, names + {value});
      if gen.Gen? {
        var assign, test := Assign(ToName(value), Copy(access)), If([Arm(IsNotUnset(Var(value)), gen.block)], []);
        WrittenIf(IsNotUnset(Var(value)), gen.block, []);
        WrittenOne(assign);
        WrittenConcat([assign], [test]);
        assert [assign] + [test] == [assign, test];
        GuardWrites(f, mapping, src, [assign, test]);
      }
    } else {
      TypeOwns(cx, f.transferType, cx.nestedAsDict, access, target, names);
      var gen := GenType(cx, f.transferType, cx.nestedAsDict, access, target, names);
      if gen.Gen? {
        GuardWrites(f, mapping, src, gen.block);
      }
    }
  }

  lemma {:induction false} FieldsOwn(
    cx: Context, fields: seq<Field>, dict: Name, mapping: bool, src: Expr, names: set<Name>)
    ensures Owns(GenFields(cx, fields, dict, mapping, src, names), names, dict)
    decreases fields, 1
  {
    if fields == [] {
    } else if !Relevant(cx, fields[0]) {
      FieldsOwn(cx, fields[1..], dict, mapping, src, names);
    } else {
      FieldOwns(cx, fields[0], dict, mapping, src, names);
      var first := GenField(cx, fields[0], dict, mapping, src, names);
      if first.Gen? {
        FieldsOwn(cx, fields[1..], dict, mapping, src, first.names);
        var rest := GenFields(cx, fields[1..], dict, mapping, src, first.names);
        if rest.Gen? {
          WrittenConcat(first.block, rest.block);
        }
      }
    }
  }

  lemma {:induction false} BranchesOwn(cx: Context, fields: seq<Field>, dict: Name, src: Expr, names: set<Name>)
    ensures Owns(GenBranches(cx, fields, dict, src, names), names, dict)
    decreases fields, 2
  {
    FieldsOwn(cx, fields, dict, true, src, names);
    var items := GenFields(cx, fields, dict, true, src, names);
    if items.Gen? {
      FieldsOwn(cx, fields, dict, false, src, items.names);
      var attrs := GenFields(cx, fields, dict, false, src, items.names);
      if attrs.Gen? {
        WrittenIf(IsMapping(src), items.block, attrs.block);
      }
    }
  }

  lemma {:induction false} ReadsOwn(cx: Context, fields: seq<Field>, dict: Name, src: Expr, names: set<Name>)
    ensures Owns(GenReads(cx, fields, dict, src, names), names, dict)
    decreases fields, 3
  {
    if RelevantFields(cx, fields) == [] {
      assert Written([]) == {};
    } else if !MustHoist(cx, fields, src) {
      BranchesOwn(cx, fields, dict, src, names);
    } else if HoistBase(src).Some? {
      var hoisted := Fresh(HoistBase(src).value, names);
      BranchesOwn(cx, fields, dict, Var(hoisted), names + {hoisted});
      var branches := GenBranches(cx, fields, dict, Var(hoisted), names + {hoisted});
      if branches.Gen? {
        WrittenConcat([Assign(ToName(hoisted), Copy(src))], branches.block);
        WrittenOne(Assign(ToName(hoisted), Copy(src)));
      }
    }
  }

  lemma {:induction false} InstanceOwns(
    cx: Context, fields: seq<Field>, destination: Destination, src: Expr, target: Target, names: set<Name>)
    ensures Owns(GenInstance(cx, fields, destination, src, target, names), names, target.Root())
    decreases fields, 4
  {
    var dict := Fresh(Plain("unstructured_data"), names);
    var start, finish := Assign(ToName(dict), EmptyDict), Finish(destination, dict, target);
    ReadsOwn(cx, fields, dict, src, names + {dict});
    var filling := GenReads(cx, fields, dict, src, names + {dict});
    if filling.Gen? {
      WrittenConcat([start] + filling.block, [finish]);
      WrittenConcat([start], filling.block);
      WrittenOne(start);
      WrittenOne(finish);
    }
  }

  /**
   The block generated for any type assigns to its target and to names that were
   not in use before and are after, and to no others.
   */
  lemma {:induction false} TypeOwns(
    cx: Context, t: TransferType, asDict: bool, src: Expr, target: Target, names: set<Name>)
    ensures Owns(GenType(cx, t, asDict, src, target, names), names, target.Root())
    decreases t, 5
  {
    if IsNested(t) {
      InstanceOwns(cx, t.nested.value.fields, NestedDestination(t, asDict, cx.isData), src, target, names);
    } else if t.UnionType? && HasNested(t) {
      UnionOwns(cx, t.members, src, target, names);
    } else {
      var gen := GenType(cx, t, asDict, src, target, names);
      if gen.Gen? {
        WrittenOne(gen.block[0]);
        assert gen.block == [gen.block[0]];
      }
    }
  }

  lemma {:induction false} UnionOwns(
    cx: Context, members: seq<TransferType>, src: Expr, target: Target, names: set<Name>)
    ensures Owns(GenUnion(cx, members, src, target, names), names, target.Root())
    decreases members, 6
  {
    if CompositeCount(members) <= 1 {
      MembersOwn(cx, members, MixedUnion(members), src, target, names);
      var tests := GenMembers(cx, members, MixedUnion(members), src, target, names);
      if tests.GenArms? {
        if MixedUnion(members) {
          TypeOwns(cx, members[CompositeIndex(members)], false, src, target, tests.names);
        } else {
          WrittenOne(Assign(target, Copy(src)));
        }
        var orelse := GenElse(cx, members, src, target, tests.names);
        if orelse.Gen? {
          WrittenOne(If(tests.arms, orelse.block));
        }
      }
    }
  }

  lemma {:induction false} MembersOwn(
    cx: Context, members: seq<TransferType>, all: bool, src: Expr, target: Target, names: set<Name>)
    ensures var gen := GenMembers(cx, members, all, src, target, names);
            gen.GenArms? ==> OwnNames(WrittenInArms(gen.arms), names, gen.names, target.Root())
    decreases members, 5
  {
    if members == [] {
    } else if !Tested(members[0], all) {
      MembersOwn(cx, members[1..], all, src, target, names);
    } else {
      if Rebuilt(members[0]) {
        InstanceOwns(cx, members[0].nested.value.fields, MemberDestination(members[0], cx.isData), src, target, names);
      } else {
        WrittenOne(Assign(target, Copy(src)));
      }
      var body := GenMember(cx, members[0], src, target, names);
      if body.Gen? {
        MembersOwn(cx, members[1..], all, src, target, body.names);
        var rest := GenMembers(cx, members[1..], all, src, target, body.names);
        if rest.GenArms? {
          WrittenInArm(MemberTest(cx, members[0], src), body.block, rest.arms);
        }
      }
    }
  }

  /** So running it leaves every other name alone, in use or not, and whether it raises or not. */
  lemma {:induction false} TypeLeavesOthers(
    w: World, cx: Context, t: TransferType, asDict: bool, src: Expr, target: Target, names: set<Name>, env: Env,
    n: Name)
    requires GenType(cx, t, asDict, src, target, names).Gen?
    requires n != target.Root() && (n in names || n !in GenType(cx, t, asDict, src, target, names).names)
    ensures Untouched(n, env, ExecBlock(w, GenType(cx, t, asDict, src, target, names).block, env).env)
  {
    TypeOwns(cx, t, asDict, src, target, names);
    BlockLeaves(w, GenType(cx, t, asDict, src, target, names).block, env, n);
  }
}
