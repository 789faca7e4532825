/**
 * The schema builder and the request finalizer. `CreateTable` holds what
 * the assembler derived plus the caller's overrides; `InputOf` merges the
 * overrides onto the defaults and yields the create-table request.
 */
module Builder {
  import opened Wrappers
  import opened Schema
  import opened FirstSeen
  import opened Inspect
  import opened Assembler

  /** An index as the builder holds it: its key and the overrides set so far. */
  datatype IndexState = IndexState(name: string, key: KeyPair,
                                   projection: Option<Projection>,
                                   throughput: Option<ProvisionedThroughput>)

  /** Everything the builder holds. */
  datatype BuilderState = BuilderState(
    tableName: string,
    attribs: seq<AttributeDefinition>,
    key: KeyPair,
    globals: seq<IndexState>,
    locals: seq<IndexState>,
    throughput: ProvisionedThroughput,
    err: Option<BuildError>)

  /** Capacity of a table before Provision, and of a global index before ProvisionIndex. */
  const DefaultThroughput := ProvisionedThroughput(1, 1)

  /** Projection of an index before Project. */
  const DefaultProjection := Projection(ProjectionCode(AllProjection), [])

  /** Indexes as first assembled: no override yet. */
  function Unset(defs: seq<IndexDef>): (ixs: seq<IndexState>)
    ensures |ixs| == |defs|
    ensures forall i :: 0 <= i < |defs| ==> ixs[i] == IndexState(defs[i].name, defs[i].key, None, None)
  {
    if defs == [] then [] else [IndexState(defs[0].name, defs[0].key, None, None)] + Unset(defs[1..])
  }

  /** CreateTable(name, from): compiles the struct description, table capacity (1, 1). */
  function NewState(name: string, from: seq<FieldDecl>): BuilderState {
    match Assemble(Flatten(from))
    case Success(a) => BuilderState(name, a.attribs, a.key, Unset(a.globals), Unset(a.locals), DefaultThroughput, None)
    case Failure(e) => BuilderState(name, [], KeyPair("", None), [], [], DefaultThroughput, Some(e))
  }

  /** Where the index called `name` is held, if anywhere. */
  function IndexPosition(ixs: seq<IndexState>, name: string): (r: Option<nat>)
    ensures r.Some? ==> r.value < |ixs| && ixs[r.value].name == name
    ensures r.None? ==> forall i :: 0 <= i < |ixs| ==> ixs[i].name != name
  {
    if ixs == [] then None
    else if ixs[0].name == name then Some(0)
    else match IndexPosition(ixs[1..], name)
      case Some(k) => Some(k + 1)
      case None => None
  }

  /** No two indexes of one kind share a name. */
  predicate DistinctNames(ixs: seq<IndexState>) {
    forall i, j :: 0 <= i < j < |ixs| ==> ixs[i].name != ixs[j].name
  }

  lemma {:induction false} IndexPositionOfDistinct(ixs: seq<IndexState>, i: nat)
    requires DistinctNames(ixs) && i < |ixs|
    ensures IndexPosition(ixs, ixs[i].name) == Some(i)
  {
    if i > 0 {
      IndexPositionOfDistinct(ixs[1..], i - 1);
    }
  }

  predicate Positive(t: ProvisionedThroughput) {
    t.readCapacityUnits > 0 && t.writeCapacityUnits > 0
  }

  /** A projection type the engine knows; a non-key attribute list exactly for INCLUDE. */
  predicate ProjectionWellFormed(p: Projection) {
    && (p.projectionType == "ALL" || p.projectionType == "KEYS_ONLY" || p.projectionType == "INCLUDE")
    && (p.projectionType == "INCLUDE" <==> p.nonKeyAttributes != [])
  }

  /** x is an attribute used by the table's key or by the key of an index the builder holds. */
  predicate KeyUses(s: BuilderState, x: string) {
    || s.key.hash == x || s.key.range == Some(x)
    || SomeKeyUses(s.globals, x)
    || SomeKeyUses(s.locals, x)
  }

  /** The indexes have distinct names, and every local index shares the table's hash key. */
  ghost predicate IndexesValid(s: BuilderState) {
    && DistinctNames(s.globals)
    && DistinctNames(s.locals)
    && (forall i, j :: 0 <= i < |s.globals| && 0 <= j < |s.locals| ==> s.globals[i].name != s.locals[j].name)
    && (forall ix :: ix in s.locals ==> ix.key.hash == s.key.hash && ix.key.range.Some?)
  }

  /** Every override the builder holds is one the engine accepts; local indexes have none for capacity. */
  ghost predicate OverridesValid(s: BuilderState) {
    && Positive(s.throughput)
    && (forall ix :: ix in s.locals ==> ix.throughput.None?)
    && (forall ix :: ix in s.globals && ix.throughput.Some? ==> Positive(ix.throughput.value))
    && (forall ix :: ix in s.globals && ix.projection.Some? ==> ProjectionWellFormed(ix.projection.value))
    && (forall ix :: ix in s.locals && ix.projection.Some? ==> ProjectionWellFormed(ix.projection.value))
  }

  /** Without an error, an attribute is defined once, and exactly when some key schema uses it. */
  ghost predicate AttributesValid(s: BuilderState) {
    s.err.None? ==> NoDup(Names(s.attribs)) && forall x :: x in Names(s.attribs) <==> KeyUses(s, x)
  }

  /** The builder invariant: what every reachable builder state satisfies. */
  ghost predicate ValidState(s: BuilderState) {
    IndexesValid(s) && OverridesValid(s) && AttributesValid(s)
  }

  /** t differs from s at most in the overrides its indexes hold and in its table capacity. */
  ghost predicate SameKeys(s: BuilderState, t: BuilderState) {
    && t.tableName == s.tableName
    && t.attribs == s.attribs && t.key == s.key && t.err == s.err
    && |t.globals| == |s.globals| && |t.locals| == |s.locals|
    && (forall i :: 0 <= i < |s.globals| ==> t.globals[i].name == s.globals[i].name && t.globals[i].key == s.globals[i].key)
    && (forall i :: 0 <= i < |s.locals| ==> t.locals[i].name == s.locals[i].name && t.locals[i].key == s.locals[i].key)
  }

  lemma SameKeysKeepIndexes(s: BuilderState, t: BuilderState)
    requires SameKeys(s, t) && IndexesValid(s)
    ensures IndexesValid(t)
  {
    forall ix | ix in t.locals
      ensures ix.key.hash == t.key.hash && ix.key.range.Some?
    {
      var i :| 0 <= i < |t.locals| && t.locals[i] == ix;
      assert s.locals[i] in s.locals;
    }
  }

  /** An index with attribute x in its key, in ixs. */
  predicate SomeKeyUses(ixs: seq<IndexState>, x: string) {
    exists ix :: ix in ixs && (ix.key.hash == x || ix.key.range == Some(x))
  }

  lemma SameKeysSomeKeyUses(a: seq<IndexState>, b: seq<IndexState>, x: string)
    requires |a| == |b| && forall i :: 0 <= i < |a| ==> a[i].key == b[i].key
    ensures SomeKeyUses(a, x) ==> SomeKeyUses(b, x)
  {
    if SomeKeyUses(a, x) {
      var ix :| ix in a && (ix.key.hash == x || ix.key.range == Some(x));
      var i :| 0 <= i < |a| && a[i] == ix;
      assert b[i] in b;
    }
  }

  lemma SameKeysKeepAttributes(s: BuilderState, t: BuilderState)
    requires SameKeys(s, t) && AttributesValid(s)
    ensures AttributesValid(t)
  {
    forall x
      ensures KeyUses(s, x) <==> KeyUses(t, x)
    {
      SameKeysSomeKeyUses(s.globals, t.globals, x);
      SameKeysSomeKeyUses(t.globals, s.globals, x);
      SameKeysSomeKeyUses(s.locals, t.locals, x);
      SameKeysSomeKeyUses(t.locals, s.locals, x);
    }
  }

  lemma SameKeysKeepValidity(s: BuilderState, t: BuilderState)
    requires SameKeys(s, t) && IndexesValid(s) && AttributesValid(s)
    ensures IndexesValid(t) && AttributesValid(t)
  {
    SameKeysKeepIndexes(s, t);
    SameKeysKeepAttributes(s, t);
  }

  /** Replacing one index's entry keeps "every entry satisfies P" when the new entry does. */
  lemma UpdateKeepsValidity(s: BuilderState, t: BuilderState)
    requires SameKeys(s, t) && ValidState(s) && Positive(t.throughput)
    requires forall ix :: ix in t.globals && ix.throughput.Some? ==> Positive(ix.throughput.value)
    requires forall ix :: ix in t.globals && ix.projection.Some? ==> ProjectionWellFormed(ix.projection.value)
    requires forall ix :: ix in t.locals ==> ix.throughput.None?
    requires forall ix :: ix in t.locals && ix.projection.Some? ==> ProjectionWellFormed(ix.projection.value)
    ensures ValidState(t)
  {
    SameKeysKeepValidity(s, t);
  }

  /** setError: records e unless an earlier error is already held. */
  function SetError(s: BuilderState, e: BuildError): (r: BuilderState)
    ensures ValidState(s) ==> ValidState(r)
  {
    s.(err := FirstError(s.err, e))
  }

  // ---- overrides ----

  /** Project(index, projection, includeAttribs...): sets the projection of one index. */
  function ProjectState(s: BuilderState, index: string, projection: ProjectionType, includeAttribs: seq<string>)
    : (r: BuilderState)
  {
    if projection == IncludeProjection && includeAttribs == [] then SetError(s, IncludeWithoutAttributes(index))
    else if projection != IncludeProjection && includeAttribs != [] then SetError(s, AttributesWithoutInclude(index))
    else
      var p := Projection(ProjectionCode(projection), includeAttribs);
      match IndexPosition(s.globals, index)
      case Some(i) => s.(globals := s.globals[i := s.globals[i].(projection := Some(p))])
      case None =>
        match IndexPosition(s.locals, index)
        case Some(i) => s.(locals := s.locals[i := s.locals[i].(projection := Some(p))])
        case None => SetError(s, UnknownIndex(index))
  }

  /** Provision(read, write): sets the table's capacity. */
  function ProvisionState(s: BuilderState, readUnits: int64, writeUnits: int64): (r: BuilderState)
  {
    if readUnits <= 0 || writeUnits <= 0 then SetError(s, NonPositiveUnits)
    else s.(throughput := ProvisionedThroughput(readUnits, writeUnits))
  }

  /** ProvisionIndex(index, read, write): sets the capacity of one global index. */
  function ProvisionIndexState(s: BuilderState, index: string, readUnits: int64, writeUnits: int64): (r: BuilderState)
  {
    if readUnits <= 0 || writeUnits <= 0 then SetError(s, NonPositiveUnits)
    else
      match IndexPosition(s.globals, index)
      case Some(i) =>
        s.(globals := s.globals[i := s.globals[i].(throughput := Some(ProvisionedThroughput(readUnits, writeUnits)))])
      case None =>
        if IndexPosition(s.locals, index).Some? then SetError(s, NotGlobalIndex(index))
        else SetError(s, UnknownIndex(index))
  }

  /** One call of the builder chain after CreateTable. */
  datatype Override =
    | ProjectCall(index: string, projection: ProjectionType, includeAttribs: seq<string>)
    | ProvisionCall(readUnits: int64, writeUnits: int64)
    | ProvisionIndexCall(index: string, readUnits: int64, writeUnits: int64)

  function Step(s: BuilderState, c: Override): BuilderState {
    match c
    case ProjectCall(index, projection, attrs) => ProjectState(s, index, projection, attrs)
    case ProvisionCall(r, w) => ProvisionState(s, r, w)
    case ProvisionIndexCall(index, r, w) => ProvisionIndexState(s, index, r, w)
  }

  /** The calls of a chain, applied left to right. */
  function Apply(s: BuilderState, calls: seq<Override>): BuilderState
    decreases |calls|
  {
    if calls == [] then s else Apply(Step(s, calls[0]), calls[1..])
  }

  // ---- the finalizer ----

  function GlobalOut(ix: IndexState): GlobalSecondaryIndex {
    GlobalSecondaryIndex(
      ix.name,
      KeySchemaOf(ix.key.hash, ix.key.range),
      if ix.projection.Some? then ix.projection.value else DefaultProjection,
      if ix.throughput.Some? then ix.throughput.value else DefaultThroughput)
  }

  function LocalOut(ix: IndexState): LocalSecondaryIndex {
    LocalSecondaryIndex(
      ix.name,
      KeySchemaOf(ix.key.hash, ix.key.range),
      if ix.projection.Some? then ix.projection.value else DefaultProjection)
  }

  function GlobalsOut(ixs: seq<IndexState>): (out: seq<GlobalSecondaryIndex>)
    ensures |out| == |ixs| && forall i :: 0 <= i < |ixs| ==> out[i] == GlobalOut(ixs[i])
  {
    if ixs == [] then [] else [GlobalOut(ixs[0])] + GlobalsOut(ixs[1..])
  }

  function LocalsOut(ixs: seq<IndexState>): (out: seq<LocalSecondaryIndex>)
    ensures |out| == |ixs| && forall i :: 0 <= i < |ixs| ==> out[i] == LocalOut(ixs[i])
  {
    if ixs == [] then [] else [LocalOut(ixs[0])] + LocalsOut(ixs[1..])
  }

  /** input(): the create-table request, or the first error the builder met. */
  function InputOf(s: BuilderState): Result<CreateTableInput, BuildError> {
    if s.err.Some? then Failure(s.err.value)
    else Success(CreateTableInput(
      s.attribs,
      GlobalsOut(s.globals),
      KeySchemaOf(s.key.hash, s.key.range),
      LocalsOut(s.locals),
      s.throughput,
      s.tableName))
  }

  // ---- the builder invariant holds from CreateTable on ----

  lemma UnsetDistinct(defs: seq<IndexDef>, names: seq<string>)
    requires NoDup(names) && |defs| == |names| && forall i :: 0 <= i < |defs| ==> defs[i].name == names[i]
    ensures DistinctNames(Unset(defs))
  {
  }

  lemma UnsetKeyUses(defs: seq<IndexDef>, x: string)
    ensures SomeKeyUses(Unset(defs), x) <==> exists d :: d in defs && (d.key.hash == x || d.key.range == Some(x))
  {
    var u := Unset(defs);
    if SomeKeyUses(u, x) {
      var ix :| ix in u && (ix.key.hash == x || ix.key.range == Some(x));
      var i :| 0 <= i < |u| && u[i] == ix;
      assert defs[i] in defs;
    }
    if exists d :: d in defs && (d.key.hash == x || d.key.range == Some(x)) {
      var d :| d in defs && (d.key.hash == x || d.key.range == Some(x));
      var i :| 0 <= i < |defs| && defs[i] == d;
      assert u[i] in u;
    }
  }

  lemma UnsetIndexesValid(s: BuilderState, a: Assembled, gnames: seq<string>, lnames: seq<string>)
    requires s.key == a.key && s.globals == Unset(a.globals) && s.locals == Unset(a.locals)
    requires NoDup(gnames) && |a.globals| == |gnames| && forall i :: 0 <= i < |a.globals| ==> a.globals[i].name == gnames[i]
    requires NoDup(lnames) && |a.locals| == |lnames| && forall i :: 0 <= i < |a.locals| ==> a.locals[i].name == lnames[i]
    requires forall i, j :: 0 <= i < |a.globals| && 0 <= j < |a.locals| ==> a.globals[i].name != a.locals[j].name
    requires forall d :: d in a.locals ==> d.key.hash == a.key.hash && d.key.range.Some?
    ensures IndexesValid(s)
  {
    UnsetDistinct(a.globals, gnames);
    UnsetDistinct(a.locals, lnames);
    forall ix | ix in s.locals
      ensures ix.key.hash == s.key.hash && ix.key.range.Some?
    {
      var i :| 0 <= i < |s.locals| && s.locals[i] == ix;
      assert a.locals[i] in a.locals;
    }
  }

  lemma UnsetOverridesValid(s: BuilderState, a: Assembled)
    requires s.throughput == DefaultThroughput && s.globals == Unset(a.globals) && s.locals == Unset(a.locals)
    ensures OverridesValid(s)
  {
    forall ix | ix in s.locals
      ensures ix.throughput.None? && ix.projection.None?
    {
      var i :| 0 <= i < |s.locals| && s.locals[i] == ix;
    }
    forall ix | ix in s.globals
      ensures ix.throughput.None? && ix.projection.None?
    {
      var i :| 0 <= i < |s.globals| && s.globals[i] == ix;
    }
  }

  lemma UnsetAttributesValid(s: BuilderState, a: Assembled)
    requires s.attribs == a.attribs && s.key == a.key && s.globals == Unset(a.globals) && s.locals == Unset(a.locals)
    requires NoDup(Names(a.attribs))
    requires forall x :: x in Names(a.attribs) <==> UsedInKeys(a.key, a.globals, a.locals, x)
    ensures AttributesValid(s)
  {
    forall x
      ensures x in Names(s.attribs) <==> KeyUses(s, x)
    {
      UnsetKeyUses(a.globals, x);
      UnsetKeyUses(a.locals, x);
    }
  }

  lemma AssembledValid(name: string, a: Assembled, gnames: seq<string>, lnames: seq<string>)
    requires NoDup(Names(a.attribs))
    requires forall x :: x in Names(a.attribs) <==> UsedInKeys(a.key, a.globals, a.locals, x)
    requires NoDup(gnames) && |a.globals| == |gnames| && forall i :: 0 <= i < |a.globals| ==> a.globals[i].name == gnames[i]
    requires NoDup(lnames) && |a.locals| == |lnames| && forall i :: 0 <= i < |a.locals| ==> a.locals[i].name == lnames[i]
    requires forall i, j :: 0 <= i < |a.globals| && 0 <= j < |a.locals| ==> a.globals[i].name != a.locals[j].name
    requires forall d :: d in a.locals ==> d.key.hash == a.key.hash && d.key.range.Some?
    ensures ValidState(BuilderState(name, a.attribs, a.key, Unset(a.globals), Unset(a.locals), DefaultThroughput, None))
  {
    var s := BuilderState(name, a.attribs, a.key, Unset(a.globals), Unset(a.locals), DefaultThroughput, None);
    UnsetIndexesValid(s, a, gnames, lnames);
    UnsetOverridesValid(s, a);
    UnsetAttributesValid(s, a);
  }

  /** CreateTable yields a valid builder, whatever the struct description. */
  lemma NewStateValid(name: string, from: seq<FieldDecl>)
    ensures ValidState(NewState(name, from))
  {
    var fields := Flatten(from);
    if Assemble(fields).Success? {
      var a := Assemble(fields).value;
      AssembleCorrect(fields);
      AssembledValid(name, a, IndexNames(fields, Global), IndexNames(fields, Local));
    }
  }

  // ---- each override keeps it ----

  lemma UpdateGlobalValid(s: BuilderState, i: nat, ix: IndexState)
    requires ValidState(s) && i < |s.globals|
    requires ix.name == s.globals[i].name && ix.key == s.globals[i].key
    requires ix.throughput.Some? ==> Positive(ix.throughput.value)
    requires ix.projection.Some? ==> ProjectionWellFormed(ix.projection.value)
    ensures ValidState(s.(globals := s.globals[i := ix]))
  {
    var t := s.(globals := s.globals[i := ix]);
    forall g | g in t.globals
      ensures (g.throughput.Some? ==> Positive(g.throughput.value))
           && (g.projection.Some? ==> ProjectionWellFormed(g.projection.value))
    {
      var j :| 0 <= j < |t.globals| && t.globals[j] == g;
      if j != i { assert s.globals[j] in s.globals; }
    }
    UpdateKeepsValidity(s, t);
  }

  lemma UpdateLocalValid(s: BuilderState, i: nat, ix: IndexState)
    requires ValidState(s) && i < |s.locals|
    requires ix.name == s.locals[i].name && ix.key == s.locals[i].key
    requires ix.throughput.None?
    requires ix.projection.Some? ==> ProjectionWellFormed(ix.projection.value)
    ensures ValidState(s.(locals := s.locals[i := ix]))
  {
    var t := s.(locals := s.locals[i := ix]);
    forall l | l in t.locals
      ensures l.throughput.None? && (l.projection.Some? ==> ProjectionWellFormed(l.projection.value))
    {
      var j :| 0 <= j < |t.locals| && t.locals[j] == l;
      if j != i { assert s.locals[j] in s.locals; }
    }
    UpdateKeepsValidity(s, t);
  }

  lemma ProjectValid(s: BuilderState, index: string, projection: ProjectionType, includeAttribs: seq<string>)
    requires ValidState(s)
    ensures ValidState(ProjectState(s, index, projection, includeAttribs))
  {
    if (projection == IncludeProjection) == (includeAttribs != []) {
      var p := Projection(ProjectionCode(projection), includeAttribs);
      assert ProjectionWellFormed(p);
      match IndexPosition(s.globals, index)
      case Some(i) => UpdateGlobalValid(s, i, s.globals[i].(projection := Some(p)));
      case None =>
        match IndexPosition(s.locals, index)
        case Some(i) => UpdateLocalValid(s, i, s.locals[i].(projection := Some(p)));
        case None =>
    }
  }

  lemma ProvisionValid(s: BuilderState, readUnits: int64, writeUnits: int64)
    requires ValidState(s)
    ensures ValidState(ProvisionState(s, readUnits, writeUnits))
  {
    if readUnits > 0 && writeUnits > 0 {
      UpdateKeepsValidity(s, ProvisionState(s, readUnits, writeUnits));
    }
  }

  lemma ProvisionIndexValid(s: BuilderState, index: string, readUnits: int64, writeUnits: int64)
    requires ValidState(s)
    ensures ValidState(ProvisionIndexState(s, index, readUnits, writeUnits))
  {
    if readUnits > 0 && writeUnits > 0 {
      match IndexPosition(s.globals, index)
      case Some(i) =>
        UpdateGlobalValid(s, i, s.globals[i].(throughput := Some(ProvisionedThroughput(readUnits, writeUnits))));
      case None =>
    }
  }
}
