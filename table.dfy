/**
 * The CreateTable builder as an object: CreateTable compiles the struct
 * into the builder's fields, each override updates them in place, and
 * Input reads them back out as the create-table request.
 */
module Table {
  import opened Wrappers
  import opened Schema
  import opened Inspect
  import opened Assembler
  import opened Builder
  import opened Properties

  class CreateTable {
    var tableName: string
    var attribs: seq<AttributeDefinition>
    var key: KeyPair
    var globalIndices: seq<IndexState>
    var localIndices: seq<IndexState>
    var throughput: ProvisionedThroughput
    var err: Option<BuildError>

    function State(): BuilderState
      reads this
    {
      BuilderState(tableName, attribs, key, globalIndices, localIndices, throughput, err)
    }

    ghost predicate Valid()
      reads this
    {
      ValidState(State())
    }

    /** CreateTable(name, from). */
    constructor(name: string, from: seq<FieldDecl>)
      ensures Valid() && State() == NewState(name, from)
    {
      tableName := name;
      throughput := DefaultThroughput;
      match Assemble(Flatten(from)) {
        case Success(a) =>
          attribs, key := a.attribs, a.key;
          globalIndices, localIndices := Unset(a.globals), Unset(a.locals);
          err := None;
        case Failure(e) =>
          attribs, key := [], KeyPair("", None);
          globalIndices, localIndices := [], [];
          err := Some(e);
      }
      NewStateValid(name, from);
    }

    /** setError: keeps the first error. */
    method RecordError(e: BuildError)
      requires Valid()
      modifies this
      ensures Valid() && State() == SetError(old(State()), e)
    {
      if err.None? {
        err := Some(e);
      }
    }

    /** Project(index, projection, includeAttribs...). */
    method Project(index: string, projection: ProjectionType, includeAttribs: seq<string>)
      requires Valid()
      modifies this
      ensures Valid() && State() == ProjectState(old(State()), index, projection, includeAttribs)
    {
      ghost var s := State();
      ProjectValid(s, index, projection, includeAttribs);
      if projection == IncludeProjection && includeAttribs == [] {
        RecordError(IncludeWithoutAttributes(index));
        return;
      }
      if projection != IncludeProjection && includeAttribs != [] {
        RecordError(AttributesWithoutInclude(index));
        return;
      }
      var p := Projection(ProjectionCode(projection), includeAttribs);
      var g := IndexPosition(globalIndices, index);
      if g.Some? {
        globalIndices := globalIndices[g.value := globalIndices[g.value].(projection := Some(p))];
        return;
      }
      var l := IndexPosition(localIndices, index);
      if l.Some? {
        localIndices := localIndices[l.value := localIndices[l.value].(projection := Some(p))];
        return;
      }
      RecordError(UnknownIndex(index));
    }

    /** Provision(readUnits, writeUnits). */
    method Provision(readUnits: int64, writeUnits: int64)
      requires Valid()
      modifies this
      ensures Valid() && State() == ProvisionState(old(State()), readUnits, writeUnits)
    {
      ghost var s := State();
      ProvisionValid(s, readUnits, writeUnits);
      if readUnits <= 0 || writeUnits <= 0 {
        RecordError(NonPositiveUnits);
        return;
      }
      throughput := ProvisionedThroughput(readUnits, writeUnits);
    }

    /** ProvisionIndex(index, readUnits, writeUnits). */
    method ProvisionIndex(index: string, readUnits: int64, writeUnits: int64)
      requires Valid()
      modifies this
      ensures Valid() && State() == ProvisionIndexState(old(State()), index, readUnits, writeUnits)
    {
      ghost var s := State();
      ProvisionIndexValid(s, index, readUnits, writeUnits);
      if readUnits <= 0 || writeUnits <= 0 {
        RecordError(NonPositiveUnits);
        return;
      }
      var g := IndexPosition(globalIndices, index);
      if g.Some? {
        var t := ProvisionedThroughput(readUnits, writeUnits);
        globalIndices := globalIndices[g.value := globalIndices[g.value].(throughput := Some(t))];
        return;
      }
      if IndexPosition(localIndices, index).Some? {
        RecordError(NotGlobalIndex(index));
      } else {
        RecordError(UnknownIndex(index));
      }
    }

    /** input(): the request, built index by index, or the first error. */
    method Input() returns (r: Result<CreateTableInput, BuildError>)
      requires Valid()
      ensures r == InputOf(State())
      ensures r.Success? ==> RequestWellFormed(r.value)
    {
      if err.Some? {
        return Failure(err.value);
      }
      var gsis: seq<GlobalSecondaryIndex> := [];
      var i := 0;
      while i < |globalIndices|
        invariant 0 <= i <= |globalIndices|
        invariant |gsis| == i && forall k :: 0 <= k < i ==> gsis[k] == GlobalOut(globalIndices[k])
      {
        gsis := gsis + [GlobalOut(globalIndices[i])];
        i := i + 1;
      }
      var lsis: seq<LocalSecondaryIndex> := [];
      var j := 0;
      while j < |localIndices|
        invariant 0 <= j <= |localIndices|
        invariant |lsis| == j && forall k :: 0 <= k < j ==> lsis[k] == LocalOut(localIndices[k])
      {
        lsis := lsis + [LocalOut(localIndices[j])];
        j := j + 1;
      }
      assert gsis == GlobalsOut(globalIndices);
      assert lsis == LocalsOut(localIndices);
      r := Success(CreateTableInput(attribs, gsis, KeySchemaOf(key.hash, key.range), lsis, throughput, tableName));
      InputWellFormed(State());
    }
  }
}
