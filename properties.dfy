/**
 * What the create-table request promises: every request the builder
 * yields is one the engine accepts, CreateTable alone yields the derived
 * schema with its defaults, and the overrides touch exactly what they name.
 */
module Properties {
  import opened Wrappers
  import opened Schema
  import opened FirstSeen
  import opened Inspect
  import opened Assembler
  import opened Builder

  // ---- a well-formed request ----

  predicate InKeySchema(ks: seq<KeySchemaElement>, x: string) {
    exists e :: e in ks && e.attributeName == x
  }

  /** A hash element first, then at most one range element. */
  predicate KeySchemaWellFormed(ks: seq<KeySchemaElement>) {
    && 1 <= |ks| <= 2
    && ks[0].keyType == "HASH"
    && (|ks| == 2 ==> ks[1].keyType == "RANGE")
  }

  /** x is named by the key schema of the table or of one of its indexes. */
  predicate RequestUses(inp: CreateTableInput, x: string) {
    || InKeySchema(inp.keySchema, x)
    || (exists g :: g in inp.globalSecondaryIndexes && InKeySchema(g.keySchema, x))
    || (exists l :: l in inp.localSecondaryIndexes && InKeySchema(l.keySchema, x))
  }

  predicate GlobalWellFormed(g: GlobalSecondaryIndex) {
    KeySchemaWellFormed(g.keySchema) && ProjectionWellFormed(g.projection) && Positive(g.provisionedThroughput)
  }

  predicate LocalWellFormed(l: LocalSecondaryIndex, tableKey: seq<KeySchemaElement>) {
    && KeySchemaWellFormed(l.keySchema) && |l.keySchema| == 2
    && |tableKey| > 0 && l.keySchema[0] == tableKey[0]
    && ProjectionWellFormed(l.projection)
  }

  /** No two indexes of the request share a name. */
  predicate IndexNamesDistinct(inp: CreateTableInput) {
    var gs, ls := inp.globalSecondaryIndexes, inp.localSecondaryIndexes;
    && (forall i, j :: 0 <= i < j < |gs| ==> gs[i].indexName != gs[j].indexName)
    && (forall i, j :: 0 <= i < j < |ls| ==> ls[i].indexName != ls[j].indexName)
    && (forall i, j :: 0 <= i < |gs| && 0 <= j < |ls| ==> gs[i].indexName != ls[j].indexName)
  }

  /**
   * The rules a create-table request must keep: each attribute defined
   * once and exactly when a key schema names it, key schemas hash-first,
   * capacities positive, projections consistent, local indexes on the
   * table's hash key, index names distinct.
   */
  ghost predicate RequestWellFormed(inp: CreateTableInput) {
    && NoDup(Names(inp.attributeDefinitions))
    && (forall x :: x in Names(inp.attributeDefinitions) <==> RequestUses(inp, x))
    && KeySchemaWellFormed(inp.keySchema)
    && Positive(inp.provisionedThroughput)
    && (forall g :: g in inp.globalSecondaryIndexes ==> GlobalWellFormed(g))
    && (forall l :: l in inp.localSecondaryIndexes ==> LocalWellFormed(l, inp.keySchema))
    && IndexNamesDistinct(inp)
  }

  lemma KeySchemaOfUses(hash: string, range: Option<string>, x: string)
    ensures InKeySchema(KeySchemaOf(hash, range), x) <==> hash == x || range == Some(x)
  {
    var ks := KeySchemaOf(hash, range);
    if hash == x { assert ks[0] in ks; }
    if range == Some(x) { assert ks[1] in ks; }
  }

  lemma GlobalOutUses(ix: IndexState, x: string)
    ensures (ix.key.hash == x || ix.key.range == Some(x)) <==> InKeySchema(GlobalOut(ix).keySchema, x)
  {
    KeySchemaOfUses(ix.key.hash, ix.key.range, x);
  }

  lemma LocalOutUses(ix: IndexState, x: string)
    ensures (ix.key.hash == x || ix.key.range == Some(x)) <==> InKeySchema(LocalOut(ix).keySchema, x)
  {
    KeySchemaOfUses(ix.key.hash, ix.key.range, x);
  }

  lemma GlobalsOutUsed(ixs: seq<IndexState>, x: string, ix: IndexState)
    requires ix in ixs && (ix.key.hash == x || ix.key.range == Some(x))
    ensures exists g :: g in GlobalsOut(ixs) && InKeySchema(g.keySchema, x)
  {
    var i :| 0 <= i < |ixs| && ixs[i] == ix;
    GlobalOutUses(ix, x);
    assert GlobalsOut(ixs)[i] in GlobalsOut(ixs);
  }

  lemma GlobalsOutUser(ixs: seq<IndexState>, x: string, g: GlobalSecondaryIndex)
    requires g in GlobalsOut(ixs) && InKeySchema(g.keySchema, x)
    ensures SomeKeyUses(ixs, x)
  {
    var i :| 0 <= i < |ixs| && GlobalsOut(ixs)[i] == g;
    GlobalOutUses(ixs[i], x);
    assert ixs[i] in ixs;
  }

  lemma GlobalsOutUses(ixs: seq<IndexState>, x: string)
    ensures SomeKeyUses(ixs, x) <==> exists g :: g in GlobalsOut(ixs) && InKeySchema(g.keySchema, x)
  {
    if SomeKeyUses(ixs, x) {
      var ix :| ix in ixs && (ix.key.hash == x || ix.key.range == Some(x));
      GlobalsOutUsed(ixs, x, ix);
    }
    if exists g :: g in GlobalsOut(ixs) && InKeySchema(g.keySchema, x) {
      var g :| g in GlobalsOut(ixs) && InKeySchema(g.keySchema, x);
      GlobalsOutUser(ixs, x, g);
    }
  }

  lemma LocalsOutUsed(ixs: seq<IndexState>, x: string, ix: IndexState)
    requires ix in ixs && (ix.key.hash == x || ix.key.range == Some(x))
    ensures exists l :: l in LocalsOut(ixs) && InKeySchema(l.keySchema, x)
  {
    var i :| 0 <= i < |ixs| && ixs[i] == ix;
    LocalOutUses(ix, x);
    assert LocalsOut(ixs)[i] in LocalsOut(ixs);
  }

  lemma LocalsOutUser(ixs: seq<IndexState>, x: string, l: LocalSecondaryIndex)
    requires l in LocalsOut(ixs) && InKeySchema(l.keySchema, x)
    ensures SomeKeyUses(ixs, x)
  {
    var i :| 0 <= i < |ixs| && LocalsOut(ixs)[i] == l;
    LocalOutUses(ixs[i], x);
    assert ixs[i] in ixs;
  }

  lemma LocalsOutUses(ixs: seq<IndexState>, x: string)
    ensures SomeKeyUses(ixs, x) <==> exists l :: l in LocalsOut(ixs) && InKeySchema(l.keySchema, x)
  {
    if SomeKeyUses(ixs, x) {
      var ix :| ix in ixs && (ix.key.hash == x || ix.key.range == Some(x));
      LocalsOutUsed(ixs, x, ix);
    }
    if exists l :: l in LocalsOut(ixs) && InKeySchema(l.keySchema, x) {
      var l :| l in LocalsOut(ixs) && InKeySchema(l.keySchema, x);
      LocalsOutUser(ixs, x, l);
    }
  }

  lemma GlobalsOutWellFormed(ixs: seq<IndexState>)
    requires forall ix :: ix in ixs && ix.throughput.Some? ==> Positive(ix.throughput.value)
    requires forall ix :: ix in ixs && ix.projection.Some? ==> ProjectionWellFormed(ix.projection.value)
    ensures forall g :: g in GlobalsOut(ixs) ==> GlobalWellFormed(g)
  {
    var out := GlobalsOut(ixs);
    forall g | g in out
      ensures GlobalWellFormed(g)
    {
      var i :| 0 <= i < |out| && out[i] == g;
      assert ixs[i] in ixs;
    }
  }

  lemma LocalsOutWellFormed(ixs: seq<IndexState>, key: KeyPair)
    requires forall ix :: ix in ixs ==> ix.key.hash == key.hash && ix.key.range.Some?
    requires forall ix :: ix in ixs && ix.projection.Some? ==> ProjectionWellFormed(ix.projection.value)
    ensures forall l :: l in LocalsOut(ixs) ==> LocalWellFormed(l, KeySchemaOf(key.hash, key.range))
  {
    var out := LocalsOut(ixs);
    forall l | l in out
      ensures LocalWellFormed(l, KeySchemaOf(key.hash, key.range))
    {
      var i :| 0 <= i < |out| && out[i] == l;
      assert ixs[i] in ixs;
    }
  }

  /** Every request a valid builder yields is well formed. */
  lemma InputWellFormed(s: BuilderState)
    requires ValidState(s) && InputOf(s).Success?
    ensures RequestWellFormed(InputOf(s).value)
  {
    var inp := InputOf(s).value;
    forall x
      ensures x in Names(inp.attributeDefinitions) <==> RequestUses(inp, x)
    {
      KeySchemaOfUses(s.key.hash, s.key.range, x);
      GlobalsOutUses(s.globals, x);
      LocalsOutUses(s.locals, x);
    }
    GlobalsOutWellFormed(s.globals);
    LocalsOutWellFormed(s.locals, s.key);
  }

  // ---- any chain of calls ----

  lemma StepValid(s: BuilderState, c: Override)
    requires ValidState(s)
    ensures ValidState(Step(s, c))
  {
    match c
    case ProjectCall(index, projection, attrs) => ProjectValid(s, index, projection, attrs);
    case ProvisionCall(r, w) => ProvisionValid(s, r, w);
    case ProvisionIndexCall(index, r, w) => ProvisionIndexValid(s, index, r, w);
  }

  lemma {:induction false} ApplyValid(s: BuilderState, calls: seq<Override>)
    requires ValidState(s)
    ensures ValidState(Apply(s, calls))
    decreases |calls|
  {
    if calls != [] {
      StepValid(s, calls[0]);
      ApplyValid(Step(s, calls[0]), calls[1..]);
    }
  }

  /** Whatever the struct and whatever overrides follow, a request that comes out is well formed. */
  lemma ChainWellFormed(name: string, from: seq<FieldDecl>, calls: seq<Override>)
    requires InputOf(Apply(NewState(name, from), calls)).Success?
    ensures RequestWellFormed(InputOf(Apply(NewState(name, from), calls)).value)
  {
    NewStateValid(name, from);
    ApplyValid(NewState(name, from), calls);
    InputWellFormed(Apply(NewState(name, from), calls));
  }

  /** The first error sticks through every later call. */
  lemma {:induction false} FirstErrorWins(s: BuilderState, calls: seq<Override>)
    requires s.err.Some?
    ensures Apply(s, calls).err == s.err
    decreases |calls|
  {
    if calls != [] {
      FirstErrorWins(Step(s, calls[0]), calls[1..]);
    }
  }

  /** A struct the schema rules refuse makes every chain after it fail with the same error. */
  lemma RefusedStructFails(name: string, from: seq<FieldDecl>, calls: seq<Override>)
    requires Assemble(Flatten(from)).Failure?
    ensures InputOf(Apply(NewState(name, from), calls)) == Failure(Assemble(Flatten(from)).error)
  {
    FirstErrorWins(NewState(name, from), calls);
  }

  // ---- CreateTable alone ----

  /**
   * CreateTable(name, from).input(): succeeds exactly when the flattened
   * struct meets the schema rules; then attributes are the key fields'
   * names in first-seen order, the table key is the primary hash (and
   * range) field, indexes come in first-declared order with projection
   * ALL, each keyed by its own hash member (a global index) or the table's
   * hash (a local index) and its range member, and all capacities are (1, 1).
   */
  lemma CreateTableDefaults(name: string, from: seq<FieldDecl>)
    ensures InputOf(NewState(name, from)).Success? <==> WellFormed(Flatten(from))
    ensures InputOf(NewState(name, from)).Success? ==>
      var inp, fields := InputOf(NewState(name, from)).value, Flatten(from);
      && inp.tableName == name
      && Names(inp.attributeDefinitions) == Dedup(KeyNames(fields))
      && TypesFollowFields(inp.attributeDefinitions, fields)
      && inp.keySchema == KeySchemaOf(Holders(fields, PrimarySlot, Hash)[0], FirstOf(Holders(fields, PrimarySlot, Range)))
      && inp.provisionedThroughput == DefaultThroughput
      && |inp.globalSecondaryIndexes| == |IndexNames(fields, Global)|
      && (forall i :: 0 <= i < |inp.globalSecondaryIndexes| ==>
            var n := IndexNames(fields, Global)[i];
            && inp.globalSecondaryIndexes[i].indexName == n
            && |Holders(fields, IndexSlot(n, Global), Hash)| == 1
            && inp.globalSecondaryIndexes[i].keySchema ==
                 KeySchemaOf(Holders(fields, IndexSlot(n, Global), Hash)[0],
                             FirstOf(Holders(fields, IndexSlot(n, Global), Range)))
            && inp.globalSecondaryIndexes[i].projection == DefaultProjection
            && inp.globalSecondaryIndexes[i].provisionedThroughput == DefaultThroughput)
      && |inp.localSecondaryIndexes| == |IndexNames(fields, Local)|
      && (forall i :: 0 <= i < |inp.localSecondaryIndexes| ==>
            var n := IndexNames(fields, Local)[i];
            && inp.localSecondaryIndexes[i].indexName == n
            && |Holders(fields, IndexSlot(n, Local), Range)| == 1
            && inp.localSecondaryIndexes[i].keySchema ==
                 KeySchemaOf(Holders(fields, PrimarySlot, Hash)[0],
                             Some(Holders(fields, IndexSlot(n, Local), Range)[0]))
            && inp.localSecondaryIndexes[i].projection == DefaultProjection)
  {
    var fields := Flatten(from);
    AssembleSucceedsIff(fields);
    if Assemble(fields).Success? {
      AssembleCorrect(fields);
      AssembleParts(fields);
    }
  }

  // ---- the overrides ----

  lemma {:induction false} IndexPositionUpdate(ixs: seq<IndexState>, i: nat, ix: IndexState, name: string)
    requires i < |ixs| && ix.name == ixs[i].name
    ensures IndexPosition(ixs[i := ix], name) == IndexPosition(ixs, name)
  {
    if i > 0 {
      assert ixs[i := ix][1..] == ixs[1..][i - 1 := ix];
      IndexPositionUpdate(ixs[1..], i - 1, ix, name);
    }
  }

  /** The call is one the builder takes: its arguments are consistent and its index exists. */
  predicate Accepted(s: BuilderState, c: Override) {
    match c
    case ProjectCall(index, projection, attrs) =>
      && (projection == IncludeProjection <==> attrs != [])
      && (IndexPosition(s.globals, index).Some? || IndexPosition(s.locals, index).Some?)
    case ProvisionCall(r, w) => r > 0 && w > 0
    case ProvisionIndexCall(index, r, w) => r > 0 && w > 0 && IndexPosition(s.globals, index).Some?
  }

  /** Both calls set the same thing: so the later one decides it. */
  predicate SameTarget(c1: Override, c2: Override) {
    || (c1.ProjectCall? && c2.ProjectCall? && c1.index == c2.index)
    || (c1.ProvisionCall? && c2.ProvisionCall?)
    || (c1.ProvisionIndexCall? && c2.ProvisionIndexCall? && c1.index == c2.index)
  }

  /** An accepted call keeps the table name, the keys and the error; a rejected one only records an error. */
  lemma StepOutcome(s: BuilderState, c: Override)
    ensures Accepted(s, c) ==> SameKeys(s, Step(s, c))
    ensures !Accepted(s, c) ==> Step(s, c).err.Some? && Step(s, c) == s.(err := Step(s, c).err)
    ensures s.err.Some? ==> Step(s, c).err == s.err
  {
  }

  /** After an accepted call the builder holds the same index names in the same places. */
  lemma StepKeepsPositions(s: BuilderState, c: Override, name: string)
    requires Accepted(s, c)
    ensures IndexPosition(Step(s, c).globals, name) == IndexPosition(s.globals, name)
    ensures IndexPosition(Step(s, c).locals, name) == IndexPosition(s.locals, name)
  {
    match c
    case ProjectCall(index, projection, attrs) =>
      var p := Projection(ProjectionCode(projection), attrs);
      match IndexPosition(s.globals, index) {
        case Some(i) => IndexPositionUpdate(s.globals, i, s.globals[i].(projection := Some(p)), name);
        case None =>
          var i := IndexPosition(s.locals, index).value;
          IndexPositionUpdate(s.locals, i, s.locals[i].(projection := Some(p)), name);
      }
    case ProvisionCall(r, w) =>
    case ProvisionIndexCall(index, r, w) =>
      var i := IndexPosition(s.globals, index).value;
      IndexPositionUpdate(s.globals, i, s.globals[i].(throughput := Some(ProvisionedThroughput(r, w))), name);
  }

  lemma AcceptedAfter(s: BuilderState, c1: Override, c2: Override)
    requires Accepted(s, c1)
    ensures Accepted(Step(s, c1), c2) <==> Accepted(s, c2)
  {
    if c2.ProjectCall? || c2.ProvisionIndexCall? {
      StepKeepsPositions(s, c1, c2.index);
    }
  }

  /** Repeating a call changes nothing more. */
  lemma StepIdempotent(s: BuilderState, c: Override)
    ensures Step(Step(s, c), c) == Step(s, c)
  {
    if Accepted(s, c) {
      match c
      case ProjectCall(index, projection, attrs) =>
        StepKeepsPositions(s, c, index);
      case ProvisionCall(r, w) =>
      case ProvisionIndexCall(index, r, w) =>
        StepKeepsPositions(s, c, index);
    } else {
      StepOutcome(s, c);
    }
  }

  /** Of two accepted calls setting the same thing, the later one wins. */
  lemma LastWriteWins(s: BuilderState, c1: Override, c2: Override)
    requires SameTarget(c1, c2) && Accepted(s, c1) && Accepted(s, c2)
    ensures Step(Step(s, c1), c2) == Step(s, c2)
  {
    if !c1.ProvisionCall? {
      StepKeepsPositions(s, c1, c1.index);
    }
  }

  /** Updates at two different positions can be made in either order. */
  lemma UpdatesCommute<T>(q: seq<T>, i: nat, j: nat, a: T, b: T)
    requires i < |q| && j < |q| && i != j
    ensures q[i := a][j := b] == q[j := b][i := a]
  {
  }

  lemma ProjectionsCommute(s: BuilderState, c1: Override, c2: Override)
    requires c1.ProjectCall? && c2.ProjectCall? && c1.index != c2.index && Accepted(s, c1) && Accepted(s, c2)
    ensures Step(Step(s, c1), c2) == Step(Step(s, c2), c1)
  {
    StepKeepsPositions(s, c2, c1.index);
    StepKeepsPositions(s, c1, c2.index);
    var p1 := Projection(ProjectionCode(c1.projection), c1.includeAttribs);
    var p2 := Projection(ProjectionCode(c2.projection), c2.includeAttribs);
    var g1, g2 := IndexPosition(s.globals, c1.index), IndexPosition(s.globals, c2.index);
    var l1, l2 := IndexPosition(s.locals, c1.index), IndexPosition(s.locals, c2.index);
    if g1.Some? && g2.Some? {
      UpdatesCommute(s.globals, g1.value, g2.value,
                     s.globals[g1.value].(projection := Some(p1)), s.globals[g2.value].(projection := Some(p2)));
    } else if g1.None? && g2.None? {
      UpdatesCommute(s.locals, l1.value, l2.value,
                     s.locals[l1.value].(projection := Some(p1)), s.locals[l2.value].(projection := Some(p2)));
    }
  }

  lemma ProjectionAndCapacityCommute(s: BuilderState, c1: Override, c2: Override)
    requires c1.ProjectCall? && c2.ProvisionIndexCall? && Accepted(s, c1) && Accepted(s, c2)
    ensures Step(Step(s, c1), c2) == Step(Step(s, c2), c1)
  {
    StepKeepsPositions(s, c2, c1.index);
    StepKeepsPositions(s, c1, c2.index);
  }

  lemma CapacitiesCommute(s: BuilderState, c1: Override, c2: Override)
    requires c1.ProvisionIndexCall? && c2.ProvisionIndexCall? && c1.index != c2.index && Accepted(s, c1) && Accepted(s, c2)
    ensures Step(Step(s, c1), c2) == Step(Step(s, c2), c1)
  {
    StepKeepsPositions(s, c2, c1.index);
    StepKeepsPositions(s, c1, c2.index);
  }

  /** Accepted calls setting different things can come in either order. */
  lemma OverridesCommute(s: BuilderState, c1: Override, c2: Override)
    requires !SameTarget(c1, c2) && Accepted(s, c1) && Accepted(s, c2)
    ensures Step(Step(s, c1), c2) == Step(Step(s, c2), c1)
  {
    if c1.ProjectCall? && c2.ProjectCall? {
      ProjectionsCommute(s, c1, c2);
    } else if c1.ProjectCall? && c2.ProvisionIndexCall? {
      ProjectionAndCapacityCommute(s, c1, c2);
    } else if c1.ProvisionIndexCall? && c2.ProjectCall? {
      ProjectionAndCapacityCommute(s, c2, c1);
    } else if c1.ProvisionIndexCall? && c2.ProvisionIndexCall? {
      CapacitiesCommute(s, c1, c2);
    }
  }

  // ---- what each override does to the request ----

  lemma GlobalsOutUpdate(ixs: seq<IndexState>, i: nat, ix: IndexState)
    requires i < |ixs|
    ensures GlobalsOut(ixs[i := ix]) == GlobalsOut(ixs)[i := GlobalOut(ix)]
  {
    var a, b := GlobalsOut(ixs[i := ix]), GlobalsOut(ixs)[i := GlobalOut(ix)];
    forall k | 0 <= k < |ixs|
      ensures a[k] == b[k]
    {
    }
  }

  lemma LocalsOutUpdate(ixs: seq<IndexState>, i: nat, ix: IndexState)
    requires i < |ixs|
    ensures LocalsOut(ixs[i := ix]) == LocalsOut(ixs)[i := LocalOut(ix)]
  {
    var a, b := LocalsOut(ixs[i := ix]), LocalsOut(ixs)[i := LocalOut(ix)];
    forall k | 0 <= k < |ixs|
      ensures a[k] == b[k]
    {
    }
  }

  /** Project on a global index replaces that index's projection, by exactly the given list, and nothing else. */
  lemma ProjectGlobalEffect(s: BuilderState, index: string, projection: ProjectionType, attrs: seq<string>, i: nat)
    requires s.err.None? && DistinctNames(s.globals) && i < |s.globals| && s.globals[i].name == index
    requires projection == IncludeProjection <==> attrs != []
    ensures var before := InputOf(s).value;
      var gs := before.globalSecondaryIndexes;
      InputOf(ProjectState(s, index, projection, attrs)) ==
        Success(before.(globalSecondaryIndexes := gs[i := gs[i].(projection := Projection(ProjectionCode(projection), attrs))]))
  {
    IndexPositionOfDistinct(s.globals, i);
    var p := Projection(ProjectionCode(projection), attrs);
    GlobalsOutUpdate(s.globals, i, s.globals[i].(projection := Some(p)));
  }

  /** Project on a local index replaces that index's projection and nothing else. */
  lemma ProjectLocalEffect(s: BuilderState, index: string, projection: ProjectionType, attrs: seq<string>, i: nat)
    requires ValidState(s) && s.err.None? && i < |s.locals| && s.locals[i].name == index
    requires projection == IncludeProjection <==> attrs != []
    ensures var before := InputOf(s).value;
      var ls := before.localSecondaryIndexes;
      InputOf(ProjectState(s, index, projection, attrs)) ==
        Success(before.(localSecondaryIndexes := ls[i := ls[i].(projection := Projection(ProjectionCode(projection), attrs))]))
  {
    assert IndexPosition(s.globals, index).None?;
    IndexPositionOfDistinct(s.locals, i);
    var p := Projection(ProjectionCode(projection), attrs);
    LocalsOutUpdate(s.locals, i, s.locals[i].(projection := Some(p)));
  }

  /** Provision replaces the table's capacity and nothing else. */
  lemma ProvisionEffect(s: BuilderState, r: int64, w: int64)
    requires s.err.None? && r > 0 && w > 0
    ensures InputOf(ProvisionState(s, r, w)) ==
      Success(InputOf(s).value.(provisionedThroughput := ProvisionedThroughput(r, w)))
  {
  }

  /** ProvisionIndex on a global index replaces that index's capacity and nothing else. */
  lemma ProvisionIndexEffect(s: BuilderState, index: string, r: int64, w: int64, i: nat)
    requires s.err.None? && DistinctNames(s.globals) && i < |s.globals| && s.globals[i].name == index
    requires r > 0 && w > 0
    ensures var before := InputOf(s).value;
      var gs := before.globalSecondaryIndexes;
      InputOf(ProvisionIndexState(s, index, r, w)) ==
        Success(before.(globalSecondaryIndexes := gs[i := gs[i].(provisionedThroughput := ProvisionedThroughput(r, w))]))
  {
    IndexPositionOfDistinct(s.globals, i);
    GlobalsOutUpdate(s.globals, i, s.globals[i].(throughput := Some(ProvisionedThroughput(r, w))));
  }

  // ---- what each override refuses ----

  /** Only global indexes have their own capacity. */
  lemma ProvisionIndexOnLocalFails(s: BuilderState, index: string, r: int64, w: int64, j: nat)
    requires ValidState(s) && s.err.None? && j < |s.locals| && s.locals[j].name == index
    requires r > 0 && w > 0
    ensures InputOf(ProvisionIndexState(s, index, r, w)) == Failure(NotGlobalIndex(index))
  {
    assert IndexPosition(s.globals, index).None?;
    assert IndexPosition(s.locals, index).Some?;
  }

  /** An index the struct does not declare cannot be overridden. */
  lemma UnknownIndexFails(s: BuilderState, c: Override)
    requires s.err.None? && (c.ProjectCall? || c.ProvisionIndexCall?)
    requires forall ix :: ix in s.globals ==> ix.name != c.index
    requires forall ix :: ix in s.locals ==> ix.name != c.index
    requires c.ProjectCall? ==> (c.projection == IncludeProjection <==> c.includeAttribs != [])
    requires c.ProvisionIndexCall? ==> c.readUnits > 0 && c.writeUnits > 0
    ensures InputOf(Step(s, c)) == Failure(UnknownIndex(c.index))
  {
  }

  /** INCLUDE needs non-key attributes, and only INCLUDE takes them. */
  lemma InconsistentProjectionFails(s: BuilderState, index: string, projection: ProjectionType, attrs: seq<string>)
    requires s.err.None? && (projection == IncludeProjection <==> attrs == [])
    ensures InputOf(ProjectState(s, index, projection, attrs)) ==
      Failure(if attrs == [] then IncludeWithoutAttributes(index) else AttributesWithoutInclude(index))
  {
  }

  /** Capacities must be positive, for the table and for an index. */
  lemma NonPositiveUnitsFail(s: BuilderState, c: Override)
    requires s.err.None? && (c.ProvisionCall? || c.ProvisionIndexCall?)
    requires c.readUnits <= 0 || c.writeUnits <= 0
    ensures InputOf(Step(s, c)) == Failure(NonPositiveUnits)
  {
  }
}
