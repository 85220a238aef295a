/**
 Application assembly: nested routers are flattened into their handlers
 (litestar/app.py), and each handler takes over the options of all the layers
 above it in one go (litestar/handlers/base.py).
 */
module Layers {
  import opened Outcomes
  import opened Paths

  /** The identity of a provider, a guard, an exception handler, a DTO, and so on. */
  type Ref = nat

  /** A layer may leave its DTO open (`Empty`) or settle it, `None` being a way of settling it. */
  datatype DtoOption = Empty | Settled(dto: Ref)

  function ValueOrDefault(value: DtoOption, default: DtoOption): DtoOption {
    if value == Empty then default else value
  }

  datatype Options = Options(
    dependencies: map<string, Ref>,
    exceptionHandlers: map<Ref, Ref>,
    guards: seq<Ref>,
    middleware: seq<Ref>,
    opt: map<string, Ref>,
    typeDecoders: seq<Ref>,
    typeEncoders: map<Ref, Ref>,
    parameters: map<string, Ref>
  )

  const NO_OPTIONS := Options(map[], map[], [], [], map[], [], map[], map[])

  datatype Router = Router(path: string, options: Options, dto: DtoOption, returnDto: DtoOption)

  datatype Handler = Handler(
    fn: Ref, name: string, paths: set<string>, options: Options, dto: DtoOption, returnDto: DtoOption)
  {
    /** What the constructor of a handler sees to: some path, and all of them normalised. */
    ghost predicate Valid() {
      paths != {} && forall p | p in paths :: NormalizePath(p) == p
    }
  }

  /** The `paths` attribute that the constructor makes of the paths it is given. */
  function ConstructedPaths(given: set<string>): set<string> {
    if given == {} then {NormalizePath("/")} else set p | p in given :: NormalizePath(p)
  }

  // ----- merging all layers at once -----

  /** One turn of the loop of `_get_merge_opts`: a layer that lies outside those merged so far. */
  function AddLayer(merged: Options, layer: Options): Options {
    Options(
      layer.dependencies + merged.dependencies,
      layer.exceptionHandlers + merged.exceptionHandlers,
      layer.guards + merged.guards,
      layer.middleware + merged.middleware,
      layer.opt + merged.opt,
      merged.typeDecoders + layer.typeDecoders,
      merged.typeEncoders + layer.typeEncoders,
      merged.parameters + layer.parameters)
  }

  function AddLayers(merged: Options, layers: seq<Options>): Options
    decreases layers
  {
    if layers == [] then merged else AddLayers(AddLayer(merged, layers[0]), layers[1..])
  }

  function OptionsOf(routers: seq<Router>): (r: seq<Options>)
    ensures |r| == |routers| && forall i | 0 <= i < |r| :: r[i] == routers[i].options
  {
    if routers == [] then [] else [routers[0].options] + OptionsOf(routers[1..])
  }

  /** The path that comes before the handler's own: those of the routers joined from the outermost in. */
  function PathAbove(others: seq<Router>): string {
    if others == [] then ""
    else if |others| == 1 then others[0].path
    else Join(PathAbove(others[1..]), others[0].path)
  }

  function FirstDto(others: seq<Router>): DtoOption {
    if others == [] then Empty else ValueOrDefault(others[0].dto, FirstDto(others[1..]))
  }

  function FirstReturnDto(others: seq<Router>): DtoOption {
    if others == [] then Empty else ValueOrDefault(others[0].returnDto, FirstReturnDto(others[1..]))
  }

  /** `handler.merge(*others)`; the innermost router comes first. */
  function Merge(h: Handler, others: seq<Router>): Handler {
    Handler(
      h.fn, h.name,
      ConstructedPaths(set p | p in h.paths :: Join(PathAbove(others), p)),
      AddLayers(NO_OPTIONS, [h.options] + OptionsOf(others)),
      ValueOrDefault(h.dto, FirstDto(others)),
      ValueOrDefault(h.returnDto, FirstReturnDto(others)))
  }

  // ----- merging them one at a time -----

  function MergeOneByOne(h: Handler, others: seq<Router>): Handler
    decreases others
  {
    if others == [] then h else MergeOneByOne(Merge(h, [others[0]]), others[1..])
  }

  lemma {:induction false} AddToNothing(o: Options)
    ensures AddLayer(NO_OPTIONS, o) == o
    ensures AddLayers(NO_OPTIONS, [o]) == o
  {
    assert [o][1..] == [];
  }

  lemma {:induction false} MergedOptions(h: Handler, others: seq<Router>)
    ensures Merge(h, others).options == AddLayers(h.options, OptionsOf(others))
  {
    AddToNothing(h.options);
    var layers := [h.options] + OptionsOf(others);
    assert layers[1..] == OptionsOf(others);
  }

  lemma {:induction false} ElementsJoined(paths: set<string>, above: string)
    requires paths != {}
    ensures ConstructedPaths(set p | p in paths :: Join(above, p)) == set p | p in paths :: Join(above, p)
  {
    var joined := set p | p in paths :: Join(above, p);
    var p0 :| p0 in paths;
    assert Join(above, p0) in joined;
    forall p | p in paths
      ensures NormalizePath(Join(above, p)) == Join(above, p)
    {
      JoinRenders(above, p);
    }
    assert forall q | q in joined :: NormalizePath(q) == q;
    assert ConstructedPaths(joined) == joined;
  }

  lemma {:induction false} MergeKeepsValid(h: Handler, others: seq<Router>)
    requires h.Valid()
    ensures Merge(h, others).Valid()
    ensures Merge(h, others).paths == set p | p in h.paths :: Join(PathAbove(others), p)
  {
    ElementsJoined(h.paths, PathAbove(others));
    var p0 :| p0 in h.paths;
    assert Join(PathAbove(others), p0) in Merge(h, others).paths;
    forall p | p in h.paths
      ensures NormalizePath(Join(PathAbove(others), p)) == Join(PathAbove(others), p)
    {
      JoinRenders(PathAbove(others), p);
    }
  }

  lemma {:induction false} PathAboveMore(others: seq<Router>, p: string)
    requires others != []
    ensures Join(PathAbove(others[1..]), Join(others[0].path, p)) == Join(PathAbove(others), p)
  {
    if |others| == 1 {
      assert others[1..] == [];
      JoinToEmpty(Join(others[0].path, p));
      JoinRenders(others[0].path, p);
    } else {
      JoinIsAssociative(PathAbove(others[1..]), others[0].path, p);
    }
  }

  lemma {:induction false} PathsMerged(h: Handler, others: seq<Router>)
    requires h.Valid() && others != []
    ensures Merge(Merge(h, [others[0]]), others[1..]).paths == Merge(h, others).paths
  {
    var inner := Merge(h, [others[0]]);
    var above, rest := PathAbove(others), PathAbove(others[1..]);
    MergeKeepsValid(h, [others[0]]);
    MergeKeepsValid(inner, others[1..]);
    MergeKeepsValid(h, others);
    forall p
      ensures Join(rest, Join(others[0].path, p)) == Join(above, p)
    {
      PathAboveMore(others, p);
    }
    SetOfSet(h.paths, others[0].path, rest, above);
  }

  lemma {:induction false} SetOfSet(paths: set<string>, first: string, rest: string, above: string)
    requires forall p :: Join(rest, Join(first, p)) == Join(above, p)
    ensures (set q | q in (set p | p in paths :: Join(first, p)) :: Join(rest, q)) == set p | p in paths :: Join(above, p)
  {
    var inner := set p | p in paths :: Join(first, p);
    var left, right := set q | q in inner :: Join(rest, q), set p | p in paths :: Join(above, p);
    forall r | r in left
      ensures r in right
    {
      var q :| q in inner && r == Join(rest, q);
      var p :| p in paths && q == Join(first, p);
      assert r == Join(above, p);
    }
    forall r | r in right
      ensures r in left
    {
      var p :| p in paths && r == Join(above, p);
      assert Join(first, p) in inner;
    }
  }

  /** Merging the innermost layer first, and then the rest, is merging them all. */
  lemma {:induction false} MergeTwice(h: Handler, others: seq<Router>)
    requires h.Valid() && others != []
    ensures Merge(h, [others[0]]).Valid()
    ensures Merge(Merge(h, [others[0]]), others[1..]) == Merge(h, others)
  {
    MergeKeepsValid(h, [others[0]]);
    PathsMerged(h, others);
    OptionsMerged(h, others);
    DtosMerged(h, others);
  }

  lemma {:induction false} OptionsMerged(h: Handler, others: seq<Router>)
    requires others != []
    ensures Merge(Merge(h, [others[0]]), others[1..]).options == Merge(h, others).options
  {
    var inner := Merge(h, [others[0]]);
    MergedOptions(h, others);
    MergedOptions(h, [others[0]]);
    MergedOptions(inner, others[1..]);
    var first := [others[0].options];
    assert OptionsOf([others[0]]) == first && first[1..] == [];
    assert OptionsOf(others)[0] == others[0].options && OptionsOf(others)[1..] == OptionsOf(others[1..]);
  }

  lemma {:induction false} DtosMerged(h: Handler, others: seq<Router>)
    requires others != []
    ensures var inner := Merge(h, [others[0]]);
            && Merge(inner, others[1..]).dto == Merge(h, others).dto
            && Merge(inner, others[1..]).returnDto == Merge(h, others).returnDto
  {
    var first := [others[0]];
    assert first[1..] == [];
    assert FirstDto(first) == others[0].dto && FirstReturnDto(first) == others[0].returnDto;
  }

  lemma {:induction false} MergeNothing(h: Handler)
    requires h.Valid()
    ensures Merge(h, []) == h
  {
    MergeKeepsValid(h, []);
    MergedOptions(h, []);
    forall p | p in h.paths
      ensures Join("", p) == p
    {
      JoinToEmpty(p);
    }
    assert (set p | p in h.paths :: Join("", p)) == h.paths;
  }

  /** Merging all the layers above a handler at once is merging them one at a time, the innermost first. */
  lemma {:induction false} MergeIsIterated(h: Handler, others: seq<Router>)
    requires h.Valid()
    ensures Merge(h, others) == MergeOneByOne(h, others)
    decreases others
  {
    if others == [] {
      MergeNothing(h);
    } else {
      MergeTwice(h, others);
      MergeIsIterated(Merge(h, [others[0]]), others[1..]);
    }
  }

  // ----- whose options a handler ends up with -----

  function Lookup<K, V>(m: map<K, V>, k: K): Option<V> {
    if k in m then Some(m[k]) else None
  }

  /** What the innermost layer that says something says. */
  function Innermost<K, V>(column: seq<map<K, V>>, k: K): Option<V> {
    if column == [] then None else if k in column[0] then Some(column[0][k]) else Innermost(column[1..], k)
  }

  /** What the outermost layer that says something says. */
  function Outermost<K, V>(column: seq<map<K, V>>, k: K): Option<V> {
    if column == [] then None
    else
      var outside := Outermost(column[1..], k);
      if outside.Some? then outside else Lookup(column[0], k)
  }

  function OutermostFirst(column: seq<seq<Ref>>): seq<Ref> {
    if column == [] then [] else OutermostFirst(column[1..]) + column[0]
  }

  function InnermostFirst(column: seq<seq<Ref>>): seq<Ref> {
    if column == [] then [] else column[0] + InnermostFirst(column[1..])
  }

  function Column<T>(layers: seq<Options>, f: Options -> T): (r: seq<T>)
    ensures |r| == |layers|
  {
    if layers == [] then [] else [f(layers[0])] + Column(layers[1..], f)
  }

  function DependenciesOf(o: Options): map<string, Ref> { o.dependencies }
  function ExceptionHandlersOf(o: Options): map<Ref, Ref> { o.exceptionHandlers }
  function OptOf(o: Options): map<string, Ref> { o.opt }
  function TypeEncodersOf(o: Options): map<Ref, Ref> { o.typeEncoders }
  function ParametersOf(o: Options): map<string, Ref> { o.parameters }
  function GuardsOf(o: Options): seq<Ref> { o.guards }
  function MiddlewareOf(o: Options): seq<Ref> { o.middleware }
  function TypeDecodersOf(o: Options): seq<Ref> { o.typeDecoders }

  function Or<V>(a: Option<V>, b: Option<V>): Option<V> {
    if a.Some? then a else b
  }

  /** The options that are kept by name, and those kept by a type or the like. */
  lemma {:induction false} InnermostLayerWins(merged: Options, layers: seq<Options>, name: string, ref: Ref)
    ensures var r := AddLayers(merged, layers);
            && Lookup(r.dependencies, name)
               == Or(Lookup(merged.dependencies, name), Innermost(Column(layers, DependenciesOf), name))
            && Lookup(r.exceptionHandlers, ref)
               == Or(Lookup(merged.exceptionHandlers, ref), Innermost(Column(layers, ExceptionHandlersOf), ref))
            && Lookup(r.opt, name) == Or(Lookup(merged.opt, name), Innermost(Column(layers, OptOf), name))
    decreases layers
  {
    if layers != [] {
      InnermostLayerWins(AddLayer(merged, layers[0]), layers[1..], name, ref);
    }
  }

  lemma {:induction false} OutermostLayerWins(merged: Options, layers: seq<Options>, name: string, ref: Ref)
    ensures var r := AddLayers(merged, layers);
            && Lookup(r.typeEncoders, ref)
               == Or(Outermost(Column(layers, TypeEncodersOf), ref), Lookup(merged.typeEncoders, ref))
            && Lookup(r.parameters, name)
               == Or(Outermost(Column(layers, ParametersOf), name), Lookup(merged.parameters, name))
    decreases layers
  {
    if layers != [] {
      OutermostLayerWins(AddLayer(merged, layers[0]), layers[1..], name, ref);
    }
  }

  lemma {:induction false} Associative(a: seq<Ref>, b: seq<Ref>, c: seq<Ref>)
    ensures (a + b) + c == a + (b + c)
  {
  }

  lemma {:induction false} OutsideComesFirst(merged: Options, layers: seq<Options>)
    ensures var r := AddLayers(merged, layers);
            && r.guards == OutermostFirst(Column(layers, GuardsOf)) + merged.guards
            && r.middleware == OutermostFirst(Column(layers, MiddlewareOf)) + merged.middleware
    decreases layers
  {
    if layers != [] {
      OutsideComesFirst(AddLayer(merged, layers[0]), layers[1..]);
      Associative(OutermostFirst(Column(layers[1..], GuardsOf)), layers[0].guards, merged.guards);
      Associative(OutermostFirst(Column(layers[1..], MiddlewareOf)), layers[0].middleware, merged.middleware);
    }
  }

  lemma {:induction false} InsideComesFirst(merged: Options, layers: seq<Options>)
    ensures AddLayers(merged, layers).typeDecoders
         == merged.typeDecoders + InnermostFirst(Column(layers, TypeDecodersOf))
    decreases layers
  {
    if layers != [] {
      InsideComesFirst(AddLayer(merged, layers[0]), layers[1..]);
      Associative(merged.typeDecoders, layers[0].typeDecoders, InnermostFirst(Column(layers[1..], TypeDecodersOf)));
    }
  }

  /** The layers a handler is merged with, itself being the innermost. */
  function LayersOf(h: Handler, others: seq<Router>): seq<Options> {
    [h.options] + OptionsOf(others)
  }

  /** Of every key: what a nearer layer says about dependencies, exception handlers and opt counts, and so on. */
  lemma {:induction false} MergedMeaning(h: Handler, others: seq<Router>)
    ensures var r, layers := Merge(h, others).options, LayersOf(h, others);
            && (forall k :: Lookup(r.dependencies, k) == Innermost(Column(layers, DependenciesOf), k))
            && (forall k :: Lookup(r.exceptionHandlers, k) == Innermost(Column(layers, ExceptionHandlersOf), k))
            && (forall k :: Lookup(r.opt, k) == Innermost(Column(layers, OptOf), k))
            && (forall k :: Lookup(r.typeEncoders, k) == Outermost(Column(layers, TypeEncodersOf), k))
            && (forall k :: Lookup(r.parameters, k) == Outermost(Column(layers, ParametersOf), k))
            && r.guards == OutermostFirst(Column(layers, GuardsOf))
            && r.middleware == OutermostFirst(Column(layers, MiddlewareOf))
            && r.typeDecoders == InnermostFirst(Column(layers, TypeDecodersOf))
  {
    var r, layers := AddLayers(NO_OPTIONS, LayersOf(h, others)), LayersOf(h, others);
    forall k
      ensures Lookup(r.dependencies, k) == Innermost(Column(layers, DependenciesOf), k)
      ensures Lookup(r.opt, k) == Innermost(Column(layers, OptOf), k)
      ensures Lookup(r.parameters, k) == Outermost(Column(layers, ParametersOf), k)
    {
      InnermostLayerWins(NO_OPTIONS, layers, k, 0);
      OutermostLayerWins(NO_OPTIONS, layers, k, 0);
    }
    forall k
      ensures Lookup(r.exceptionHandlers, k) == Innermost(Column(layers, ExceptionHandlersOf), k)
      ensures Lookup(r.typeEncoders, k) == Outermost(Column(layers, TypeEncodersOf), k)
    {
      InnermostLayerWins(NO_OPTIONS, layers, "", k);
      OutermostLayerWins(NO_OPTIONS, layers, "", k);
    }
    OutsideComesFirst(NO_OPTIONS, LayersOf(h, others));
    InsideComesFirst(NO_OPTIONS, LayersOf(h, others));
  }

  /** The nearest that is settled decides: the handler's own, or else that of the innermost router that has one. */
  ghost predicate NearestDecides(own: DtoOption, above: seq<DtoOption>, merged: DtoOption) {
    && (own.Settled? ==> merged == own)
    && (own.Empty? && (forall i | 0 <= i < |above| :: above[i].Empty?) ==> merged == Empty)
    && forall i | 0 <= i < |above| ::
         own.Empty? && above[i].Settled? && (forall j | 0 <= j < i :: above[j].Empty?) ==> merged == above[i]
  }

  function DtosOf(others: seq<Router>): (r: seq<DtoOption>)
    ensures |r| == |others| && forall i | 0 <= i < |r| :: r[i] == others[i].dto
  {
    if others == [] then [] else [others[0].dto] + DtosOf(others[1..])
  }

  function ReturnDtosOf(others: seq<Router>): (r: seq<DtoOption>)
    ensures |r| == |others| && forall i | 0 <= i < |r| :: r[i] == others[i].returnDto
  {
    if others == [] then [] else [others[0].returnDto] + ReturnDtosOf(others[1..])
  }

  lemma {:induction false} NearestDto(h: Handler, others: seq<Router>)
    ensures NearestDecides(h.dto, DtosOf(others), Merge(h, others).dto)
    ensures NearestDecides(h.returnDto, ReturnDtosOf(others), Merge(h, others).returnDto)
    ensures Merge(h, others).fn == h.fn && Merge(h, others).name == h.name
    decreases others
  {
    if others != [] {
      var rest := others[1..];
      NearestDto(h.(dto := others[0].dto, returnDto := others[0].returnDto), rest);
      assert DtosOf(rest) == DtosOf(others)[1..] && ReturnDtosOf(rest) == ReturnDtosOf(others)[1..];
      var first := h.(dto := others[0].dto, returnDto := others[0].returnDto);
      assert NearestDecides(others[0].dto, DtosOf(rest), Merge(first, rest).dto);
      NearestOfMore(h.dto, DtosOf(others), Merge(first, rest).dto);
      NearestOfMore(h.returnDto, ReturnDtosOf(others), Merge(first, rest).returnDto);
    }
  }

  lemma {:induction false} NearestOfMore(own: DtoOption, above: seq<DtoOption>, rest: DtoOption)
    requires above != [] && NearestDecides(above[0], above[1..], rest)
    ensures NearestDecides(own, above, if own.Settled? then own else rest)
  {
    assert forall i | 0 <= i < |above[1..]| :: above[1..][i] == above[i + 1];
    forall i | 0 < i < |above| && above[i].Settled? && (forall j | 0 <= j < i :: above[j].Empty?)
      ensures rest == above[i]
    {
      assert above[1..][i - 1] == above[i];
    }
  }

  /** The segments of the routers' paths, from the outermost in. */
  function SegmentsAbove(others: seq<Router>): seq<string> {
    if others == [] then [] else SegmentsAbove(others[1..]) + Segments(others[0].path)
  }

  lemma {:induction false} PathAboveMeans(others: seq<Router>)
    ensures Segments(PathAbove(others)) == SegmentsAbove(others)
  {
    if |others| == 1 {
      assert others[1..] == [];
    } else if |others| > 1 {
      PathAboveMeans(others[1..]);
      JoinRenders(PathAbove(others[1..]), others[0].path);
      SegmentsOfRendered(Segments(PathAbove(others[1..])) + Segments(others[0].path));
    }
  }

  /** Each path of a handler is put behind those of the routers around it, the outermost first. */
  lemma {:induction false} MergedPaths(h: Handler, others: seq<Router>)
    requires h.Valid()
    ensures forall q :: q in Merge(h, others).paths <==>
              exists p :: p in h.paths && q == Render(SegmentsAbove(others) + Segments(p))
  {
    MergeKeepsValid(h, others);
    PathAboveMeans(others);
    forall p
      ensures Join(PathAbove(others), p) == Render(SegmentsAbove(others) + Segments(p))
    {
      JoinRenders(PathAbove(others), p);
    }
  }

  /** `_get_merge_opts` and the constructor call that its result goes to. */
  method GetMergeOpts(h: Handler, others: seq<Router>) returns (merged: Handler)
    ensures merged == Merge(h, others)
  {
    var path := GetPath(others);
    var options := AddLayer(NO_OPTIONS, h.options);
    var dto, returnDto := Empty, Empty;
    var i := 0;
    while i < |others|
      invariant 0 <= i <= |others|
      invariant AddLayers(NO_OPTIONS, LayersOf(h, others)) == AddLayers(options, OptionsOf(others[i..]))
      invariant FirstDto(others) == ValueOrDefault(dto, FirstDto(others[i..]))
      invariant FirstReturnDto(others) == ValueOrDefault(returnDto, FirstReturnDto(others[i..]))
    {
      var other := others[i];
      assert others[i..][0] == other && others[i..][1..] == others[i + 1..];
      options := AddLayer(options, other.options);
      dto := ValueOrDefault(dto, other.dto);
      returnDto := ValueOrDefault(returnDto, other.returnDto);
      i := i + 1;
    }
    dto := ValueOrDefault(h.dto, dto);
    returnDto := ValueOrDefault(h.returnDto, returnDto);
    merged := Handler(h.fn, h.name, ConstructedPaths(set p | p in h.paths :: Join(path, p)), options, dto, returnDto);
  }

  /** The path of all routers, joined from the outermost to the innermost. */
  method GetPath(others: seq<Router>) returns (path: string)
    ensures path == PathAbove(others)
  {
    path := "";
    if others != [] {
      var i := |others| - 1;
      path := others[i].path;
      assert others[i..][1..] == [];
      while i > 0
        invariant 0 <= i < |others|
        invariant path == PathAbove(others[i..])
        decreases i
      {
        i := i - 1;
        path := Join(path, others[i].path);
        assert others[i..][1..] == others[i + 1..];
      }
      assert others[0..] == others;
    }
  }
}
