/** Marks from the definition of a model to the data that leaves it: parsing and transfer together. */
module MarkedFields {
  import opened Outcomes
  import opened TransferTypes
  import opened TransferInterpreter
  import opened TransferMeaning
  import opened FieldPaths
  import opened DtoParsing
  import opened NestedFields

  lemma {:induction false} ParsedNames(cfg: Config, fields: seq<FieldDef>, paths: Paths, depth: nat)
    requires WithinLimit(cfg, depth) && DistinctNames(fields)
    ensures NamesDiffer(ParseFields(cfg, fields, paths, depth))
    ensures forall f | f in ParseFields(cfg, fields, paths, depth) :: exists d :: d in fields && d.name == f.name
    decreases fields
  {
    if fields != [] {
      var rest := fields[1..];
      assert forall i, j | 0 <= i < j < |rest| :: rest[i] == fields[i + 1] && rest[j] == fields[j + 1];
      ParsedNames(cfg, rest, paths, depth);
      var parsed := ParseFields(cfg, rest, paths, depth);
      forall f | f in parsed
        ensures f.name != fields[0].name
        ensures exists d :: d in fields && d.name == f.name
      {
        var d :| d in rest && d.name == f.name;
        assert d in fields;
      }
      assert fields[0] in fields;
    }
  }

  lemma {:induction false} NameInFields(fields: seq<Field>, i: nat)
    requires NamesDiffer(fields) && i < |fields|
    ensures FieldNamed(fields, fields[i].name) == Some(fields[i])
    decreases fields
  {
    if i > 0 {
      var rest := fields[1..];
      assert forall j | 0 <= j < |rest| :: rest[j] == fields[j + 1];
      NameInFields(rest, i - 1);
    }
  }

  lemma {:induction false} DefInFields(fields: seq<FieldDef>, d: FieldDef)
    requires DistinctNames(fields) && d in fields
    ensures DefNamed(fields, d.name) == Some(d)
    decreases fields
  {
    if fields[0] != d {
      var i :| 0 <= i < |fields| && fields[i] == d;
      var rest := fields[1..];
      assert rest[i - 1] == d;
      assert forall j | 0 <= j < |rest| :: rest[j] == fields[j + 1];
      DefInFields(rest, d);
    }
  }

  /** A field that is private, or write-only and returned, or read-only and sent. */
  predicate Hidden(cfg: Config, d: FieldDef) {
    IsPrivate(cfg, d) || d.mark == if cfg.isData then ReadOnly else WriteOnly
  }

  lemma {:induction false} HiddenIsExcluded(
    cfg: Config, fields: seq<FieldDef>, paths: Paths, depth: nat, d: FieldDef, i: nat)
    requires WithinLimit(cfg, depth) && DistinctNames(fields) && d in fields && Hidden(cfg, d)
    requires i < |ParseFields(cfg, fields, paths, depth)| && ParseFields(cfg, fields, paths, depth)[i].name == d.name
    ensures ParseFields(cfg, fields, paths, depth)[i].isExcluded
  {
    ParsedNames(cfg, fields, paths, depth);
    NameInFields(ParseFields(cfg, fields, paths, depth), i);
    NamedParsed(cfg, fields, paths, depth, d.name);
    DefInFields(fields, d);
  }

  /**
   Whatever is returned of a model, at whatever depth it is nested, has no entry for
   a field of it that is write-only or private.
   */
  lemma {:induction false} HiddenIsNotReturned(
    w: World, cfg: Config, cls: TypeId, paths: Paths, depth: nat, asDict: bool, source: Value, d: FieldDef)
    requires WithinLimit(cfg, depth) && DistinctNames(FieldsOf(cfg.models, cls)) && !cfg.isData
    requires d in FieldsOf(cfg.models, cls) && (d.mark == WriteOnly || IsPrivate(cfg, d))
    ensures var r := TransferFields(w, false, ParseModel(cfg, cls, paths, depth), asDict, source, []);
            r.Ok? ==> Lookup(r.value, Text(d.name)) == Err(KeyError)
  {
    var fields := ParseModel(cfg, cls, paths, depth);
    ParsedNames(cfg, FieldsOf(cfg.models, cls), paths, depth);
    EntriesOfFields(w, false, fields, asDict, source, []);
    var r := TransferFields(w, false, fields, asDict, source, []);
    if i :| 0 <= i < |fields| && fields[i].name == d.name {
      HiddenIsExcluded(cfg, FieldsOf(cfg.models, cls), paths, depth, d, i);
      assert r.Ok? ==> HasEntry(w, false, fields[i], asDict, source, [], r.value);
    }
  }

  const PASSWORD := FieldDef("password", LeafDef("str", false), WriteOnly)
  const EVERYTHING := Paths({}, {}, map[])

  function UserConfig(isData: bool): Config {
    Config(map["User" := [PASSWORD]], isData, false, true, 1)
  }

  lemma {:induction false} PasswordParsed(isData: bool)
    ensures ParseModel(UserConfig(isData), "User", EVERYTHING, 0)
         == [Field("password", SimpleType("str", false, None), false, !isData, false, None)]
    ensures ModelsHaveDistinctNames(UserConfig(isData).models)
  {
    var cfg, t := UserConfig(isData), SimpleType("str", false, None);
    assert "password"[0] == 'p' && [PASSWORD][1..] == [];
    assert CreateTransferType(cfg, PASSWORD.typ, EVERYTHING, "password", 0) == Some(t);
    assert !ExcludedByName(EVERYTHING, "password");
    assert MakeField(cfg, EVERYTHING, PASSWORD, t) == Field("password", t, false, !isData, false, None);
    assert ParseFields(cfg, [PASSWORD][1..], EVERYTHING, 0) == [];
    assert ParseFields(cfg, [PASSWORD], EVERYTHING, 0) == [MakeField(cfg, EVERYTHING, PASSWORD, t)];
  }

  /** A password that is write-only: taken in, and never given out. */
  lemma {:induction false} PasswordIsNotReturned(w: World, x: Value)
    ensures var source := Instance("User", map["password" := x]);
            && TransferFields(w, false, ParseModel(UserConfig(false), "User", EVERYTHING, 0), false, source, []) == Ok([])
            && TransferFields(w, true, ParseModel(UserConfig(true), "User", EVERYTHING, 0), false, source, [])
               == Ok([(Text("password"), x)])
  {
    var source := Instance("User", map["password" := x]);
    PasswordParsed(false);
    PasswordParsed(true);
    var returned, incoming := ParseModel(UserConfig(false), "User", EVERYTHING, 0),
                              ParseModel(UserConfig(true), "User", EVERYTHING, 0);
    assert returned[1..] == [] && incoming[1..] == [];
    assert TransferField(w, false, returned[0], false, source, []) == Ok([]);
    assert TransferField(w, true, incoming[0], false, source, []) == Ok([(Text("password"), x)]);
  }
}
