/**
 `TransferFunctionFactory` of litestar/dto/_codegen_backend.py: the generator as
 it works, growing its text, its indentation and its names statement by
 statement. What it emits is the text of the block that TransferCompiler
 gives, and the function it makes is the one read back from that text.
 */
module TransferFactory {
  import opened Outcomes
  import opened TransferTypes
  import opened TransferInterpreter
  import opened GeneratedCode
  import opened TransferCompiler
  import opened GenerationDomain
  import opened GeneratedText
  import opened BackendAgreement
  import opened BackendDifference
  import opened FaithfulAgreement
  import opened AnnotationDifference

  // ----- emitted blocks are well formed -----

  lemma {:induction false} FieldsWellFormed(
    cx: Context, fields: seq<Field>, dict: Name, mapping: bool, src: Expr, names: set<Name>)
    ensures var gen := GenFields(cx, fields, dict, mapping, src, names);
            gen.Gen? ==> WellFormed(gen.block) && (RelevantFields(cx, fields) != [] ==> gen.block != [])
    decreases fields, 1
  {
    if fields != [] {
      var f := fields[0];
      if !Relevant(cx, f) {
        FieldsWellFormed(cx, fields[1..], dict, mapping, src, names);
      } else {
        FieldWellFormed(cx, f, dict, mapping, src, names);
        var first := GenField(cx, f, dict, mapping, src, names);
        if first.Gen? {
          FieldsWellFormed(cx, fields[1..], dict, mapping, src, first.names);
          var rest := GenFields(cx, fields[1..], dict, mapping, src, first.names);
          if rest.Gen? {
            WellFormedConcat(first.block, rest.block);
          }
        }
      }
    }
  }

  lemma {:induction false} WellFormedOne(s: Stmt)
    requires WellFormedStmt(s)
    ensures WellFormed([s])
  {
    assert [s][1..] == [];
  }

  lemma {:induction false} WellFormedTwo(s: Stmt, t: Stmt)
    requires WellFormedStmt(s) && WellFormedStmt(t)
    ensures WellFormed([s, t])
  {
    assert [s, t][1..] == [t];
    WellFormedOne(t);
  }

  lemma {:induction false} WellFormedIf(c: Cond, body: seq<Stmt>, orelse: seq<Stmt>)
    requires body != [] && WellFormed(body) && WellFormed(orelse)
    ensures WellFormedStmt(If([Arm(c, body)], orelse))
  {
    assert [Arm(c, body)][1..] == [];
  }

  lemma {:induction false} FieldWellFormed(
    cx: Context, f: Field, dict: Name, mapping: bool, src: Expr, names: set<Name>)
    ensures var gen := GenField(cx, f, dict, mapping, src, names); gen.Gen? ==> WellFormed(gen.block) && |gen.block| == 1
    decreases f, 0
  {
    var access := FieldExpr(mapping, src, f.name);
    var target := ToItem(dict, f.name);
    var block;
    if cx.isData && f.isPartial {
      var value := Fresh(Plain("source_value"), names);
      TypeWellFormed(cx, f.transferType, cx.nestedAsDict, Var(value), target, names + {value});
      var gen := GenType(cx, f.transferType, cx.nestedAsDict, Var(value), target, names + {value});
      if gen.NoCode? { return; }
      WellFormedIf(IsNotUnset(Var(value)), gen.block, []);
      var test := If([Arm(IsNotUnset(Var(value)), gen.block)], []);
      WellFormedTwo(Assign(ToName(value), Copy(access)), test);
      block := [Assign(ToName(value), Copy(access)), test];
    } else {
      TypeWellFormed(cx, f.transferType, cx.nestedAsDict, access, target, names);
      var gen := GenType(cx, f.transferType, cx.nestedAsDict, access, target, names);
      if gen.NoCode? { return; }
      block := gen.block;
    }
    WellFormedIf(PresenceTest(mapping, src, f.name), block, []);
    WellFormedOne(GuardAccess(f, mapping, src, block));
  }

  lemma {:induction false} BranchesWellFormed(cx: Context, fields: seq<Field>, dict: Name, src: Expr, names: set<Name>)
    requires RelevantFields(cx, fields) != []
    ensures var gen := GenBranches(cx, fields, dict, src, names); gen.Gen? ==> WellFormed(gen.block)
    decreases fields, 2
  {
    FieldsWellFormed(cx, fields, dict, true, src, names);
    var items := GenFields(cx, fields, dict, true, src, names);
    if items.Gen? {
      FieldsWellFormed(cx, fields, dict, false, src, items.names);
      var attrs := GenFields(cx, fields, dict, false, src, items.names);
      if attrs.Gen? {
        WellFormedIf(IsMapping(src), items.block, attrs.block);
        WellFormedOne(If([Arm(IsMapping(src), items.block)], attrs.block));
      }
    }
  }

  lemma {:induction false} WellFormedAround(start: seq<Stmt>, block: seq<Stmt>, finish: Stmt)
    requires WellFormed(start) && WellFormed(block) && WellFormedStmt(finish)
    ensures WellFormed(start + block + [finish])
  {
    WellFormedOne(finish);
    WellFormedConcat(start, block);
    WellFormedConcat(start + block, [finish]);
  }

  lemma {:induction false} InstanceWellFormed(
    cx: Context, fields: seq<Field>, destination: Destination, src: Expr, target: Target, names: set<Name>)
    ensures var gen := GenInstance(cx, fields, destination, src, target, names);
            gen.Gen? ==> WellFormed(gen.block) && gen.block != []
    decreases fields, 4
  {
    var dict := Fresh(Plain("unstructured_data"), names);
    var start := Assign(ToName(dict), EmptyDict);
    var filling := GenReads(cx, fields, dict, src, names + {dict});
    ReadsWellFormed(cx, fields, dict, src, names + {dict});
    if filling.Gen? {
      WellFormedOne(start);
      WellFormedAround([start], filling.block, Finish(destination, dict, target));
    }
  }

  lemma {:induction false} ReadsWellFormed(cx: Context, fields: seq<Field>, dict: Name, src: Expr, names: set<Name>)
    ensures var gen := GenReads(cx, fields, dict, src, names); gen.Gen? ==> WellFormed(gen.block)
    decreases fields, 3
  {
    if RelevantFields(cx, fields) != [] {
      if MustHoist(cx, fields, src) {
        if HoistBase(src).Some? {
          var hoisted := Fresh(HoistBase(src).value, names);
          var gen := GenBranches(cx, fields, dict, Var(hoisted), names + {hoisted});
          BranchesWellFormed(cx, fields, dict, Var(hoisted), names + {hoisted});
          if gen.Gen? {
            WellFormedOne(Assign(ToName(hoisted), Copy(src)));
            WellFormedConcat([Assign(ToName(hoisted), Copy(src))], gen.block);
          }
        }
      } else {
        BranchesWellFormed(cx, fields, dict, src, names);
      }
    }
  }

  lemma {:induction false} TypeWellFormed(
    cx: Context, t: TransferType, asDict: bool, src: Expr, target: Target, names: set<Name>)
    ensures var gen := GenType(cx, t, asDict, src, target, names); gen.Gen? ==> WellFormed(gen.block) && gen.block != []
    decreases t, 5
  {
    var gen := GenType(cx, t, asDict, src, target, names);
    if IsNested(t) {
      InstanceWellFormed(cx, t.nested.value.fields, NestedDestination(t, asDict, cx.isData), src, target, names);
    } else if t.UnionType? && HasNested(t) {
      var mixed := MixedUnion(t.members);
      MembersWellFormed(cx, t.members, mixed, src, target, names);
      var tests := GenMembers(cx, t.members, mixed, src, target, names);
      if gen.Gen? {
        if mixed {
          TypeWellFormed(cx, t.members[CompositeIndex(t.members)], false, src, target, tests.names);
        } else {
          WellFormedOne(Assign(target, Copy(src)));
        }
        assert gen == GenUnion(cx, t.members, src, target, names);
        assert tests.GenArms?;
        var orelse := GenElse(cx, t.members, src, target, tests.names);
        assert WellFormed(orelse.block);
        assert gen.block == [If(tests.arms, orelse.block)];
        assert WellFormedStmt(gen.block[0]);
        WellFormedOne(gen.block[0]);
      }
    } else if gen.Gen? {
      WellFormedOne(gen.block[0]);
    }
  }

  lemma {:induction false} MembersWellFormed(
    cx: Context, members: seq<TransferType>, all: bool, src: Expr, target: Target, names: set<Name>)
    ensures var gen := GenMembers(cx, members, all, src, target, names); gen.GenArms? ==> WellFormedArms(gen.arms)
    decreases members, 5
  {
    if members != [] {
      if !Tested(members[0], all) {
        MembersWellFormed(cx, members[1..], all, src, target, names);
      } else {
        if Rebuilt(members[0]) {
          InstanceWellFormed(cx, members[0].nested.value.fields, MemberDestination(members[0], cx.isData), src, target,
                             names);
        } else {
          WellFormedOne(Assign(target, Copy(src)));
        }
        var body := GenMember(cx, members[0], src, target, names);
        if body.Gen? {
          MembersWellFormed(cx, members[1..], all, src, target, body.names);
          var rest := GenMembers(cx, members[1..], all, src, target, body.names);
          if rest.GenArms? {
            assert ([Arm(MemberTest(cx, members[0], src), body.block)] + rest.arms)[1..] == rest.arms;
          }
        }
      }
    }
  }

  // ----- printing, one statement more -----

  lemma {:induction false} PrintOne(s: Stmt, indent: nat)
    ensures Print([s], indent) == PrintStmt(s, indent)
  {
    assert [s][1..] == [];
  }

  lemma {:induction false} PrintAppend(block: seq<Stmt>, s: Stmt, indent: nat)
    ensures Print(block + [s], indent) == Print(block, indent) + PrintStmt(s, indent)
  {
    PrintConcat(block, [s], indent);
    PrintOne(s, indent);
  }

  lemma {:induction false} PrintArmsAppend(arms: seq<Arm>, arm: Arm, indent: nat, first: bool)
    ensures PrintArms(arms + [arm], indent, first)
         == PrintArms(arms, indent, first)
            + [Line(indent, if first && arms == [] then IfLine(arm.cond) else ElifLine(arm.cond))]
            + Print(arm.body, indent + 1)
    decreases |arms|
  {
    if arms == [] {
      assert ([arm])[1..] == [] && arms + [arm] == [arm];
    } else {
      assert (arms + [arm])[1..] == arms[1..] + [arm] && (arms + [arm])[0] == arms[0];
      PrintArmsAppend(arms[1..], arm, indent, false);
    }
  }

  lemma {:induction false} PrintSingleIf(c: Cond, body: seq<Stmt>, orelse: seq<Stmt>, indent: nat)
    ensures PrintStmt(If([Arm(c, body)], orelse), indent)
         == [Line(indent, IfLine(c))] + Print(body, indent + 1) + PrintElse(orelse, indent)
  {
    assert [Arm(c, body)][1..] == [];
    assert PrintArms([], indent, false) == [];
  }

  // ----- how the text of a block is put together -----

  /** What emitting did: the text of `gen` came after `before`, or nothing can be made of it. */
  ghost predicate Emitted(gen: Gen, ok: bool, indent: nat, before: seq<Line>, after: seq<Line>, names: set<Name>) {
    && ok == gen.Gen?
    && (ok ==> after == before + Print(gen.block, indent) && names == gen.names)
  }

  function Prefix(done: seq<Stmt>, gen: Gen): Gen {
    match gen case NoCode => NoCode case Gen(block, names) => Gen(done + block, names)
  }

  lemma {:induction false} PrefixField(
    cx: Context, fields: seq<Field>, i: nat, dict: Name, mapping: bool, src: Expr, names: set<Name>, done: seq<Stmt>)
    requires i < |fields|
    ensures var whole := Prefix(done, GenFields(cx, fields[i..], dict, mapping, src, names));
            var one := GenField(cx, fields[i], dict, mapping, src, names);
            whole == if !Relevant(cx, fields[i]) then
                       Prefix(done, GenFields(cx, fields[i + 1..], dict, mapping, src, names))
                     else if one.NoCode? then NoCode
                     else Prefix(done + one.block, GenFields(cx, fields[i + 1..], dict, mapping, src, one.names))
  {
    assert fields[i..][0] == fields[i] && fields[i..][1..] == fields[i + 1..];
    var one := GenField(cx, fields[i], dict, mapping, src, names);
    if Relevant(cx, fields[i]) && one.Gen? {
      var rest := GenFields(cx, fields[i + 1..], dict, mapping, src, one.names);
      if rest.Gen? {
        assert done + (one.block + rest.block) == done + one.block + rest.block;
      }
    }
  }

  function PrefixArms(done: seq<Arm>, gen: GenArms): GenArms {
    match gen case NoArms => NoArms case GenArms(arms, names) => GenArms(done + arms, names)
  }

  lemma {:induction false} PrefixMember(
    cx: Context, members: seq<TransferType>, i: nat, all: bool, src: Expr, target: Target, names: set<Name>,
    done: seq<Arm>)
    requires i < |members|
    ensures var whole := PrefixArms(done, GenMembers(cx, members[i..], all, src, target, names));
            var one := GenMember(cx, members[i], src, target, names);
            whole == if !Tested(members[i], all) then
                       PrefixArms(done, GenMembers(cx, members[i + 1..], all, src, target, names))
                     else if one.NoCode? then NoArms
                     else PrefixArms(done + [Arm(MemberTest(cx, members[i], src), one.block)],
                                     GenMembers(cx, members[i + 1..], all, src, target, one.names))
  {
    assert members[i..][0] == members[i] && members[i..][1..] == members[i + 1..];
    if Tested(members[i], all) {
      var one := GenMember(cx, members[i], src, target, names);
      if one.Gen? {
        var arm := Arm(MemberTest(cx, members[i], src), one.block);
        var rest := GenMembers(cx, members[i + 1..], all, src, target, one.names);
        if rest.GenArms? {
          assert done + ([arm] + rest.arms) == done + [arm] + rest.arms;
        }
      }
    }
  }

  lemma {:induction false} BranchesText(
    cx: Context, fields: seq<Field>, dict: Name, src: Expr, names: set<Name>, indent: nat)
    requires RelevantFields(cx, fields) != [] && GenBranches(cx, fields, dict, src, names).Gen?
    ensures var items := GenFields(cx, fields, dict, true, src, names);
            var attrs := GenFields(cx, fields, dict, false, src, items.names);
            (Print(GenBranches(cx, fields, dict, src, names).block, indent)
             == [Line(indent, IfLine(IsMapping(src)))] + Print(items.block, indent + 1)
                + ([Line(indent, ElseLine)] + Print(attrs.block, indent + 1)))
  {
    var items := GenFields(cx, fields, dict, true, src, names);
    var attrs := GenFields(cx, fields, dict, false, src, items.names);
    FieldsWellFormed(cx, fields, dict, false, src, items.names);
    PrintSingleIf(IsMapping(src), items.block, attrs.block, indent);
    PrintOne(If([Arm(IsMapping(src), items.block)], attrs.block), indent);
  }

  lemma {:induction false} GuardText(f: Field, mapping: bool, src: Expr, block: seq<Stmt>, indent: nat)
    ensures Print([GuardAccess(f, mapping, src, block)], indent)
         == [Line(indent, if f.ExpectOptional() then IfLine(PresenceTest(mapping, src, f.name)) else TryLine)]
            + Print(block, indent + 1)
            + if f.ExpectOptional() then [] else
                [Line(indent, ExceptLine(AccessError(mapping))), Line(indent + 1, PassLine)]
  {
    PrintSingleIf(PresenceTest(mapping, src, f.name), block, [], indent);
    PrintOne(GuardAccess(f, mapping, src, block), indent);
  }

  lemma {:induction false} PartialText(value: Name, access: Expr, block: seq<Stmt>, indent: nat)
    ensures Print([Assign(ToName(value), Copy(access)), If([Arm(IsNotUnset(Var(value)), block)], [])], indent)
         == [Line(indent, AssignLine(ToName(value), Copy(access)))]
            + [Line(indent, IfLine(IsNotUnset(Var(value))))] + Print(block, indent + 1)
  {
    var assign, test := Assign(ToName(value), Copy(access)), If([Arm(IsNotUnset(Var(value)), block)], []);
    PrintSingleIf(IsNotUnset(Var(value)), block, [], indent);
    PrintOne(assign, indent);
    PrintAppend([assign], test, indent);
    assert [assign] + [test] == [assign, test];
  }

  lemma {:induction false} InstanceText(dict: Name, filling: seq<Stmt>, finish: Stmt, indent: nat)
    requires finish.Assign?
    ensures Print([Assign(ToName(dict), EmptyDict)] + filling + [finish], indent)
         == [Line(indent, AssignLine(ToName(dict), EmptyDict))] + Print(filling, indent)
            + [Line(indent, AssignLine(finish.target, finish.rhs))]
  {
    var start := Assign(ToName(dict), EmptyDict);
    PrintOne(start, indent);
    PrintConcat([start], filling, indent);
    PrintAppend([start] + filling, finish, indent);
  }

  lemma {:induction false} UnionText(arms: seq<Arm>, orelse: seq<Stmt>, indent: nat)
    requires orelse != []
    ensures Print([If(arms, orelse)], indent)
         == PrintArms(arms, indent, true) + ([Line(indent, ElseLine)] + Print(orelse, indent + 1))
  {
    PrintOne(If(arms, orelse), indent);
  }

  /** The tests and the else block make up a union. */
  lemma {:induction false} UnionEmitted(
    cx: Context, members: seq<TransferType>, src: Expr, target: Target, names: set<Name>,
    before: seq<Line>, after: seq<Line>, indent: nat)
    requires CompositeCount(members) <= 1
    requires var tests := GenMembers(cx, members, MixedUnion(members), src, target, names);
             && tests.GenArms? && tests.arms != []
             && var orelse := GenElse(cx, members, src, target, tests.names);
                && orelse.Gen? && orelse.block != []
                && after == (before + PrintArms(tests.arms, indent, true))
                          + ([Line(indent, ElseLine)] + Print(orelse.block, indent + 1))
    ensures var tests := GenMembers(cx, members, MixedUnion(members), src, target, names);
            Emitted(GenUnion(cx, members, src, target, names), true, indent, before, after,
                    GenElse(cx, members, src, target, tests.names).names)
  {
    var tests := GenMembers(cx, members, MixedUnion(members), src, target, names);
    UnionText(tests.arms, GenElse(cx, members, src, target, tests.names).block, indent);
  }

  lemma {:induction false} HoistText(hoisted: Name, src: Expr, block: seq<Stmt>, indent: nat)
    ensures Print([Assign(ToName(hoisted), Copy(src))] + block, indent)
         == [Line(indent, AssignLine(ToName(hoisted), Copy(src)))] + Print(block, indent)
  {
    PrintOne(Assign(ToName(hoisted), Copy(src)), indent);
    PrintConcat([Assign(ToName(hoisted), Copy(src))], block, indent);
  }

  lemma {:induction false} ElseNotEmpty(
    cx: Context, members: seq<TransferType>, src: Expr, target: Target, names: set<Name>)
    ensures var gen := GenElse(cx, members, src, target, names); gen.Gen? ==> WellFormed(gen.block) && gen.block != []
  {
    if MixedUnion(members) {
      TypeWellFormed(cx, members[CompositeIndex(members)], false, src, target, names);
    } else {
      WellFormedOne(Assign(target, Copy(src)));
    }
  }

  // ----- the generator -----

  class TransferFunctionFactory {
    const isData: bool
    const nestedAsDict: bool
    var indentation: nat
    var body: seq<Line>
    var names: set<Name>

    constructor (isData: bool, nestedAsDict: bool)
      ensures this.isData == isData && this.nestedAsDict == nestedAsDict
      ensures indentation == 1 && body == [] && names == {}
    {
      this.isData, this.nestedAsDict := isData, nestedAsDict;
      indentation, body, names := 1, [], {};
    }

    function Cx(): Context {
      Context(isData, nestedAsDict)
    }

    /** `_create_local_name`, with the counting loop of `unique_name_for_scope`. */
    method CreateLocalName(base: Base) returns (n: Name)
      modifies this`names
      ensures n == Fresh(base, old(names)) && n !in old(names)
      ensures names == old(names) + {n}
    {
      var i := 0;
      while Name(base, i) in names
        invariant FreshIndex(base, names, 0) == FreshIndex(base, names, i)
        decreases FreshIndex(base, names, 0) - i
      {
        i := i + 1;
      }
      n := Name(base, i);
      names := names + {n};
    }

    method AddStmt(token: Token)
      modifies this`body
      ensures body == old(body) + [Line(indentation, token)]
    {
      body := body + [Line(indentation, token)];
    }

    method StartBlock(token: Token)
      modifies this`body, this`indentation
      ensures body == old(body) + [Line(old(indentation), token)] && indentation == old(indentation) + 1
    {
      AddStmt(token);
      indentation := indentation + 1;
    }

    method EndBlock()
      requires indentation > 0
      modifies this`indentation
      ensures indentation == old(indentation) - 1
    {
      indentation := indentation - 1;
    }

    /** The opening half of `_access_mapping_item` and `_access_attribute`. */
    method StartAccess(f: Field, mapping: bool, src: Expr) returns (access: Expr)
      modifies this`body, this`indentation
      ensures access == FieldExpr(mapping, src, f.name)
      ensures indentation == old(indentation) + 1
      ensures body == old(body) + [Line(old(indentation),
                        if f.ExpectOptional() then IfLine(PresenceTest(mapping, src, f.name)) else TryLine)]
    {
      access := FieldExpr(mapping, src, f.name);
      if f.ExpectOptional() {
        StartBlock(IfLine(PresenceTest(mapping, src, f.name)));
      } else {
        StartBlock(TryLine);
      }
    }

    /** The closing half: nothing after a test, `except ...: pass` after a `try`. */
    method EndAccess(f: Field, mapping: bool)
      requires indentation > 0
      modifies this`body, this`indentation
      ensures indentation == old(indentation) - 1
      ensures body == old(body) + if f.ExpectOptional() then [] else
                        [Line(indentation, ExceptLine(AccessError(mapping))), Line(indentation + 1, PassLine)]
    {
      EndBlock();
      if !f.ExpectOptional() {
        StartBlock(ExceptLine(AccessError(mapping)));
        AddStmt(PassLine);
        EndBlock();
      }
    }

    /** `_create_transfer_instance_data`. It fails where the emitted text would not be a program. */
    method CreateTransferInstanceData(fields: seq<Field>, destination: Destination, src: Expr, target: Target)
      returns (ok: bool)
      modifies this
      ensures ok ==> indentation == old(indentation)
      ensures Emitted(GenInstance(Cx(), fields, destination, src, target, old(names)), ok, old(indentation),
                      old(body), body, names)
      decreases fields, 4
    {
      var dict := CreateLocalName(Plain("unstructured_data"));
      AddStmt(AssignLine(ToName(dict), EmptyDict));
      ghost var filling := GenReads(Cx(), fields, dict, src, names);
      ok := CreateReads(fields, dict, src);
      if !ok { return; }
      AddStmt(AssignLine(target, if destination.DictDestination? then Copy(Var(dict))
                                 else Construct(destination.cls, dict)));
      InstanceText(dict, filling.block, Finish(destination, dict, target), indentation);
    }

    /** The part between the two assignments. A nested source that is read more than once is given a name first. */
    method CreateReads(fields: seq<Field>, dict: Name, src: Expr) returns (ok: bool)
      modifies this
      ensures ok ==> indentation == old(indentation)
      ensures Emitted(GenReads(Cx(), fields, dict, src, old(names)), ok, old(indentation), old(body), body, names)
      decreases fields, 3
    {
      if RelevantFields(Cx(), fields) == [] {
        ok := true;
      } else if |RelevantFields(Cx(), fields)| > 1 && !src.Var? {
        var base := HoistBase(src);
        if base == None { return false; }
        var hoisted := CreateLocalName(base.value);
        AddStmt(AssignLine(ToName(hoisted), Copy(src)));
        ghost var branches := GenBranches(Cx(), fields, dict, Var(hoisted), names);
        ok := CreateBranches(fields, dict, Var(hoisted));
        if !ok { return; }
        HoistText(hoisted, src, branches.block, indentation);
      } else {
        ok := CreateBranches(fields, dict, src);
      }
    }

    /** The loop over the two kinds of source. */
    method CreateBranches(fields: seq<Field>, dict: Name, src: Expr) returns (ok: bool)
      requires RelevantFields(Cx(), fields) != []
      modifies this
      ensures ok ==> indentation == old(indentation)
      ensures Emitted(GenBranches(Cx(), fields, dict, src, old(names)), ok, old(indentation), old(body), body, names)
      decreases fields, 2
    {
      StartBlock(IfLine(IsMapping(src)));
      ok := CreateTransferInstanceDataInner(fields, dict, true, src);
      if !ok { return; }
      EndBlock();
      StartBlock(ElseLine);
      ok := CreateTransferInstanceDataInner(fields, dict, false, src);
      if !ok { return; }
      EndBlock();
      BranchesText(Cx(), fields, dict, src, old(names), indentation);
    }

    /** `_create_transfer_instance_data_inner`: one guarded access after the other. */
    method CreateTransferInstanceDataInner(fields: seq<Field>, dict: Name, mapping: bool, src: Expr) returns (ok: bool)
      modifies this
      ensures ok ==> indentation == old(indentation)
      ensures Emitted(GenFields(Cx(), fields, dict, mapping, src, old(names)), ok, old(indentation), old(body), body,
                      names)
      decreases fields, 1
    {
      ghost var whole := GenFields(Cx(), fields, dict, mapping, src, old(names));
      ghost var done: seq<Stmt> := [];
      var i := 0;
      assert fields[0..] == fields && (whole.Gen? ==> [] + whole.block == whole.block);
      while i < |fields|
        invariant 0 <= i <= |fields|
        invariant indentation == old(indentation) && body == old(body) + Print(done, indentation)
        invariant whole == Prefix(done, GenFields(Cx(), fields[i..], dict, mapping, src, names))
      {
        PrefixField(Cx(), fields, i, dict, mapping, src, names, done);
        if Relevant(Cx(), fields[i]) {
          ghost var one := GenField(Cx(), fields[i], dict, mapping, src, names);
          var fine := CreateField(fields[i], dict, mapping, src);
          if !fine { return false; }
          PrintConcat(done, one.block, indentation);
          done := done + one.block;
        }
        i := i + 1;
      }
      assert fields[i..] == [] && done + [] == done;
      ok := true;
    }

    /** The body of that loop, for one field. */
    method CreateField(f: Field, dict: Name, mapping: bool, src: Expr) returns (ok: bool)
      modifies this
      ensures ok ==> indentation == old(indentation)
      ensures Emitted(GenField(Cx(), f, dict, mapping, src, old(names)), ok, old(indentation), old(body), body, names)
      decreases f, 1
    {
      var access := StartAccess(f, mapping, src);
      ghost var gen := GenFieldBlock(Cx(), f, dict, access, names);
      ok := CreateFieldBlock(f, dict, access);
      if !ok { return; }
      EndAccess(f, mapping);
      GuardText(f, mapping, src, gen.block, indentation);
    }

    /** What goes inside the guarded access. */
    method CreateFieldBlock(f: Field, dict: Name, access: Expr) returns (ok: bool)
      modifies this
      ensures ok ==> indentation == old(indentation)
      ensures Emitted(GenFieldBlock(Cx(), f, dict, access, old(names)), ok, old(indentation), old(body), body, names)
      decreases f, 0
    {
      var target := ToItem(dict, f.name);
      if isData && f.isPartial {
        var value := CreateLocalName(Plain("source_value"));
        AddStmt(AssignLine(ToName(value), Copy(access)));
        StartBlock(IfLine(IsNotUnset(Var(value))));
        ghost var gen := GenType(Cx(), f.transferType, nestedAsDict, Var(value), target, names);
        ok := CreateTransferTypeDataBody(f.transferType, nestedAsDict, Var(value), target);
        if !ok { return; }
        EndBlock();
        PartialText(value, access, gen.block, indentation);
      } else {
        ok := CreateTransferTypeDataBody(f.transferType, nestedAsDict, access, target);
      }
    }

    /** `_create_transfer_type_data_body` */
    method CreateTransferTypeDataBody(t: TransferType, asDict: bool, src: Expr, target: Target) returns (ok: bool)
      modifies this
      ensures ok ==> indentation == old(indentation)
      ensures Emitted(GenType(Cx(), t, asDict, src, target, old(names)), ok, old(indentation), old(body), body, names)
      decreases t, 5
    {
      if IsNested(t) {
        ok := CreateTransferInstanceData(t.nested.value.fields, NestedDestination(t, asDict, isData), src, target);
        return;
      }
      if t.UnionType? && HasNested(t) {
        ok := CreateTransferNestedUnionTypeData(t.members, src, target);
        return;
      }
      var rhs;
      if t.CollectionType? {
        if HasNested(t) {
          var fn := CreateTransferTypeData(isData, t.inner);
          if fn == None { return false; }
          rhs := Collect(t.origin, fn.value, src);
        } else {
          rhs := Convert(t.origin, src);
        }
      } else if t.MappingType? {
        if HasNested(t) {
          var fn := CreateTransferTypeData(isData, t.value);
          if fn == None { return false; }
          rhs := CollectPairs(t.origin, fn.value, src);
        } else {
          rhs := Convert(t.origin, src);
        }
      } else {
        rhs := Copy(src);
      }
      AddStmt(AssignLine(target, rhs));
      PrintOne(Assign(target, rhs), indentation);
      ok := true;
    }

    /** `_create_transfer_nested_union_type_data` */
    method CreateTransferNestedUnionTypeData(members: seq<TransferType>, src: Expr, target: Target) returns (ok: bool)
      modifies this
      ensures ok ==> indentation == old(indentation)
      ensures Emitted(GenUnion(Cx(), members, src, target, old(names)), ok, old(indentation), old(body), body, names)
      decreases members, 6
    {
      if CompositeCount(members) > 1 { return false; }
      var mixed := MixedUnion(members);
      var tested;
      ghost var done;
      ok, tested, done := CreateMemberTests(members, mixed, src, target);
      if !ok || !tested { return false; }
      ok := CreateElseBlock(members, src, target);
      if ok {
        UnionEmitted(Cx(), members, src, target, old(names), old(body), body, indentation);
      }
    }

    method CreateElseBlock(members: seq<TransferType>, src: Expr, target: Target) returns (ok: bool)
      requires CompositeCount(members) <= 1
      modifies this
      ensures ok ==> indentation == old(indentation)
      ensures var gen := GenElse(Cx(), members, src, target, old(names));
              && ok == gen.Gen?
              && (ok ==> gen.block != [] && names == gen.names
                         && body == old(body) + ([Line(indentation, ElseLine)] + Print(gen.block, indentation + 1)))
      decreases members, 5, 1
    {
      ElseNotEmpty(Cx(), members, src, target, names);
      StartBlock(ElseLine);
      ok := CreateElse(members, src, target);
      if ok {
        EndBlock();
      }
    }

    method CreateElse(members: seq<TransferType>, src: Expr, target: Target) returns (ok: bool)
      requires CompositeCount(members) <= 1
      modifies this
      ensures ok ==> indentation == old(indentation)
      ensures Emitted(GenElse(Cx(), members, src, target, old(names)), ok, old(indentation), old(body), body, names)
      decreases members, 5, 0
    {
      if MixedUnion(members) {
        ok := CreateTransferTypeDataBody(members[CompositeIndex(members)], false, src, target);
      } else {
        AddStmt(AssignLine(target, Copy(src)));
        PrintOne(Assign(target, Copy(src)), indentation);
        ok := true;
      }
    }

    /** The loop that emits a test for the simple members, or the nested ones among them. */
    method CreateMemberTests(members: seq<TransferType>, all: bool, src: Expr, target: Target)
      returns (ok: bool, tested: bool, ghost arms: seq<Arm>)
      modifies this
      ensures ok ==> indentation == old(indentation)
      ensures var gen := GenMembers(Cx(), members, all, src, target, old(names));
              && ok == gen.GenArms?
              && (ok ==> arms == gen.arms && names == gen.names && (tested <==> arms != [])
                         && body == old(body) + PrintArms(arms, indentation, true))
      decreases members, 5
    {
      ghost var whole := GenMembers(Cx(), members, all, src, target, old(names));
      arms, tested := [], false;
      var i := 0;
      assert members[0..] == members && (whole.GenArms? ==> [] + whole.arms == whole.arms);
      while i < |members|
        invariant 0 <= i <= |members| && (tested <==> arms != [])
        invariant indentation == old(indentation) && body == old(body) + PrintArms(arms, indentation, true)
        invariant whole == PrefixArms(arms, GenMembers(Cx(), members[i..], all, src, target, names))
      {
        PrefixMember(Cx(), members, i, all, src, target, names, arms);
        if Tested(members[i], all) {
          ghost var one := GenMember(Cx(), members[i], src, target, names);
          var fine := CreateMemberTest(members[i], tested, src, target, old(body), arms);
          if !fine { return false, tested, []; }
          arms, tested := arms + [Arm(MemberTest(Cx(), members[i], src), one.block)], true;
        }
        i := i + 1;
      }
      assert members[i..] == [] && arms + [] == arms;
      ok := true;
    }

    /** One step of it, after the tests `arms`. */
    method CreateMemberTest(
      m: TransferType, further: bool, src: Expr, target: Target, ghost before: seq<Line>, ghost arms: seq<Arm>)
      returns (ok: bool)
      requires m.SimpleType? && (further <==> arms != [])
      requires body == before + PrintArms(arms, indentation, true)
      modifies this
      ensures ok ==> indentation == old(indentation)
      ensures var gen := GenMember(Cx(), m, src, target, old(names));
              && ok == gen.Gen?
              && (ok ==> names == gen.names
                         && body == before + PrintArms(arms + [Arm(MemberTest(Cx(), m, src), gen.block)], indentation, true))
      decreases m, 4, 1
    {
      ghost var gen := GenMember(Cx(), m, src, target, names);
      ok := HandleTransferInstance(m, further, src, target);
      if ok {
        PrintArmsAppend(arms, Arm(MemberTest(Cx(), m, src), gen.block), indentation, true);
      }
    }

    /** `_handle_transfer_instance`: the `if`, or after the first test `elif`, for one member. */
    method HandleTransferInstance(m: TransferType, further: bool, src: Expr, target: Target) returns (ok: bool)
      requires m.SimpleType?
      modifies this
      ensures ok ==> indentation == old(indentation)
      ensures var test := MemberTest(Cx(), m, src);
              Emitted(GenMember(Cx(), m, src, target, old(names)), ok, old(indentation) + 1,
                      old(body) + [Line(old(indentation), if further then ElifLine(test) else IfLine(test))], body, names)
      decreases m, 4, 0
    {
      var test := if m.isNoneType then IsNone(src)
                  else if m.nested.Some? && isData then IsInstance(src, m.nested.value.model)
                  else IsInstance(src, m.annotation);
      StartBlock(if further then ElifLine(test) else IfLine(test));
      if !m.isNoneType && m.nested.Some? && m.nested.value.fields != [] {
        var destination := ClassDestination(if isData then m.annotation else m.nested.value.model);
        ok := CreateTransferInstanceData(m.nested.value.fields, destination, src, target);
        if !ok { return; }
      } else {
        AddStmt(AssignLine(target, Copy(src)));
        PrintOne(Assign(target, Copy(src)), indentation);
        ok := true;
      }
      EndBlock();
    }

    /** `_make_function`: when the text is that of a block, the function has that block for its body. */
    method MakeFunction(param: Name, result: Name) returns (fn: Function)
      ensures forall block | WellFormed(block) && body == Print(block, 1) :: fn == Function(param, block, result)
    {
      fn := Function(param, Parse(body, 1).value, result);
      forall block | WellFormed(block) && body == Print(block, 1)
        ensures Parse(body, 1).value == block
      {
        assert body == Print(block, 1) + [];
        ParsePrint(block, 1, []);
      }
    }

    /** `create_transfer_type_data`, with a generator of its own. */
    static method CreateTransferTypeData(isData: bool, t: TransferType) returns (fn: Option<Function>)
      ensures fn == GenTypeFunction(isData, t)
      decreases t, 6
    {
      var factory := new TransferFunctionFactory(isData, false);
      var result := factory.CreateLocalName(Plain("tmp_return_type"));
      var param := factory.CreateLocalName(Plain("source_value"));
      assert {} + {result} + {param} == {RESULT_OF_TYPE, SOURCE_VALUE};
      ghost var gen := GenType(Context(isData, false), t, false, Var(param), ToName(result), {result, param});
      var ok := factory.CreateTransferTypeDataBody(t, false, Var(param), ToName(result));
      if !ok { return None; }
      TypeWellFormed(Context(isData, false), t, false, Var(param), ToName(result), {result, param});
      var made := factory.MakeFunction(param, result);
      fn := Some(made);
    }

    /** `create_transfer_instance_data` */
    static method CreateTransferInstanceFunction(isData: bool, fields: seq<Field>, destination: Destination)
      returns (fn: Option<Function>)
      ensures fn == GenInstanceFunction(isData, fields, destination)
    {
      var cx := Context(isData, destination.DictDestination?);
      var factory := new TransferFunctionFactory(isData, cx.nestedAsDict);
      var result := factory.CreateLocalName(Plain("tmp_return_type"));
      var param := factory.CreateLocalName(Plain("source_instance"));
      assert {} + {result} + {param} == {RESULT_OF_TYPE, SOURCE_INSTANCE};
      ghost var gen := GenInstance(cx, fields, destination, Var(param), ToName(result), {result, param});
      var ok := factory.CreateTransferInstanceData(fields, destination, Var(param), ToName(result));
      if !ok { return None; }
      InstanceWellFormed(cx, fields, destination, Var(param), ToName(result), {result, param});
      var made := factory.MakeFunction(param, result);
      fn := Some(made);
    }

    /** `create_transfer_data` and `_create_transfer_data_body_nested` */
    static method CreateTransferData(isData: bool, s: Shape, fields: seq<Field>, destination: Destination)
      returns (fn: Option<Function>)
      ensures fn == GenData(isData, s, fields, destination)
      decreases s
    {
      match s
      case PlainShape =>
        fn := CreateTransferInstanceFunction(isData, fields, destination);
      case CollectionShape(origin, item) =>
        var inner := CreateTransferData(isData, item, fields, destination);
        if inner == None { return None; }
        fn := CreateNested(isData, inner.value, (f, e) => Collect(origin, f, e));
      case MappingShape(origin, key, _) =>
        var inner := CreateTransferData(isData, key, fields, destination);
        if inner == None { return None; }
        fn := CreateNested(isData, inner.value, (f, e) => CollectPairs(origin, f, e));
    }

    /** The transfer functions of a DTO backend: made by generating code, and like interpreting in what they return. */
    static method CreateTransferDataFn(isData: bool, s: Shape, fields: seq<Field>, destination: Destination)
      returns (fn: Option<Function>)
      ensures fn.Some? <==> InstanceGenerates(Context(isData, destination.DictDestination?), fields, 0)
      ensures fn.Some? && ReadByKey(s) == s && FieldsSupported(Context(isData, destination.DictDestination?), true, fields)
              ==> forall w, v :: TransferData(w, isData, s, fields, destination, v).NoAccessError()
                    ==> Call(w, fn.value, v) == TransferData(w, isData, s, fields, destination, v)
      ensures fn.Some? && Proper(fields)
              ==> forall w, v :: NoAccessErrors(w) && Agreeable(w, isData, s, fields, destination, v)
                    ==> Call(w, fn.value, v) == TransferData(w, isData, s, fields, destination, v)
      ensures fn.Some? && Proper(fields)
              ==> forall w, v :: Comparable(w, isData, s, fields, destination, v)
                    ==> (Call(w, fn.value, v) == TransferData(w, isData, s, fields, destination, v)
                         <==> Agreeable(w, isData, s, fields, destination, v)
                              || BothFail(w, isData, s, fields, destination, v))
    {
      fn := CreateTransferData(isData, s, fields, destination);
      DataDomain(isData, s, fields, destination);
      if fn.Some? && ReadByKey(s) == s && FieldsSupported(Context(isData, destination.DictDestination?), true, fields) {
        forall w, v | TransferData(w, isData, s, fields, destination, v).NoAccessError()
          ensures Call(w, fn.value, v) == TransferData(w, isData, s, fields, destination, v)
        {
          GeneratedCodeRefinesInterpreter(w, isData, s, fields, destination, v);
        }
      }
      if fn.Some? && Proper(fields) {
        forall w, v | NoAccessErrors(w) && Agreeable(w, isData, s, fields, destination, v)
          ensures Call(w, fn.value, v) == TransferData(w, isData, s, fields, destination, v)
        {
          AgreeableSourcesAgree(w, isData, s, fields, destination, v);
        }
        forall w, v | Comparable(w, isData, s, fields, destination, v)
          ensures Call(w, fn.value, v) == TransferData(w, isData, s, fields, destination, v)
             <==> Agreeable(w, isData, s, fields, destination, v) || BothFail(w, isData, s, fields, destination, v)
        {
          AgreementIsExact(w, isData, s, fields, destination, v);
        }
      }
    }

    static method CreateNested(isData: bool, inner: Function, rhs: (Function, Expr) -> Rhs) returns (fn: Option<Function>)
      ensures fn == Some(Function(SOURCE_VALUE, [Assign(ToName(RESULT_OF_VALUE), rhs(inner, Var(SOURCE_VALUE)))],
                                  RESULT_OF_VALUE))
    {
      var factory := new TransferFunctionFactory(isData, false);
      var param := factory.CreateLocalName(Plain("source_value"));
      var result := factory.CreateLocalName(Plain("tmp_return_value"));
      factory.AddStmt(AssignLine(ToName(result), rhs(inner, Var(param))));
      ghost var s := Assign(ToName(result), rhs(inner, Var(param)));
      PrintOne(s, 1);
      WellFormedOne(s);
      var made := factory.MakeFunction(param, result);
      fn := Some(made);
    }
  }
}
