# dynamo CreateTable: the table-schema compiler

This project models the table-schema compiler of the `dynamo` Go library.
`db.CreateTable(name, Struct{})` reads an annotated struct and derives a
DynamoDB create-table request:

- the attribute definitions;
- the hash-then-range key schema of the table;
- the global and local secondary indexes.

The fluent calls `Project`, `Provision` and `ProvisionIndex` then override
the defaults. `input()` yields the finished `CreateTableInput`.

The project has these modules:

- `Schema`: the data model. It holds:
  - the struct description as a tree of already-parsed fields (`FieldDecl`), where an anonymous embedded struct is a node of its own;
  - the Go types that decide an attribute's type;
  - the errors;
  - the request with its wire codes: "S"/"N"/"B", "HASH"/"RANGE" and "ALL"/"KEYS_ONLY"/"INCLUDE".
- `Inspect`: flattens the struct. Embedded fields are promoted in place. A field or an embedded struct tagged `-` is dropped. An empty tag name falls back to the Go field name.
- `FirstSeen`: first-encounter deduplication. It is the ordering rule for attribute definitions and for index lists.
- `Assembler`: refuses a struct in which two flattened fields carry the same attribute name, then derives four things from the flattened fields:
  - the attribute definitions (one per distinct key attribute, in first-encounter order, typed after the field's Go type);
  - the table key;
  - the index lists, each in first-declared order;
  - a validated key for each index.
- `Builder`: the builder state as a value (`BuilderState`), the overrides as functions on it, the invariant every reachable state satisfies (`ValidState`), and the request finalizer `InputOf`.
- `Table`: the builder as the object the caller chains on. It is class `CreateTable`, whose methods update its fields in place. Each method is proved to move the object's state exactly as the matching `Builder` function does, and to keep the invariant.
- `Properties`: what the whole pipeline guarantees. This covers:
  - the defaults `CreateTable` produces;
  - well-formedness of every request a builder yields;
  - the algebra of overrides (idempotence, last write wins, commutation of independent overrides);
  - the exact effect of each override on the request;
  - the error cases.
- `Fixture`: the `UserAction` struct and the call chain of `TestCreateTable`. It proves that the chain yields exactly the expected request, both through the functions and through the class.

The model reproduces the request that `TestCreateTable` expects
(`createtable_test.go`). The ordering rules are these:

- Attribute definitions are an ordered list, one per distinct key attribute, in first-encounter order over the flattened fields.
- Global indexes and local indexes each come in the order their names are first declared over the flattened fields.
- A global index key takes its hash and range from the fields that declare those roles for it. A local index key takes the table's hash plus its own range field. One field may hold different roles in different indexes, as `Seq` and `ID` do. `UUID-index` has a hash key only.

An ambiguous attribute name is reported before any other error. Two key
fields of one name are therefore always refused as `AmbiguousName` by
`Assemble`. `Attributes` on its own still reports `ConflictingTypes` for
such fields.

## Model

| member | source | states |
|---|---|---|
| Inspect.EmbeddedFieldsPromoted | createtable_test.go:12-22 | an anonymous embedded struct flattens exactly as if its fields were declared at the embedding point |
| Inspect.FlattenPlain | createtable_test.go:13-16 | a declaration without embedding or ignored fields flattens field by field, in order; each field is named by its tag name, or by its Go name when the tag name is empty |
| Inspect.IgnoredFieldDropped | createtable_test.go:12-18 | a field tagged `-` contributes nothing to the flattened field list |
| Inspect.IgnoredEmbeddedDropped | createtable_test.go:12-22 | an embedded struct tagged `-` contributes none of its fields, wherever it sits |
| Inspect.FlattenAppend | createtable_test.go:12-22 | flattening distributes over concatenation of declarations |
| FirstSeen.Dedup | createtable_test.go:37-58 | the deduplicated list has no repetition and holds exactly the elements of the input |
| FirstSeen.DedupFirstSeenOrder | createtable_test.go:37-58 | the deduplicated list keeps elements in the order of their first occurrence |
| FirstSeen.DedupOfDistinct | createtable_test.go:37-58 | a list without repetitions is left exactly as it is by deduplication |
| FirstSeen.DedupIdempotent | createtable_test.go:37-58 | deduplicating twice gives the same list as deduplicating once |
| FirstSeen.FirstRepeated | createtable_test.go:12-22 | no repeated element is found exactly when the list has no repetitions; a found element occurs at two different positions |
| Schema.KeySchemaOf | createtable_test.go:61-67 | a key schema has the HASH element first, then a RANGE element exactly when a range attribute exists |
| Assembler.AttributesCorrect | createtable_test.go:37-58 | attribute definitions succeed exactly when every key field's Go type is supported and same-named key fields agree on it; they then name each distinct key attribute once, in first-encounter order, typed after every field of that name |
| Assembler.AttributesMeetSpecAll | createtable_test.go:37-58 | the attribute-definition specification holds for every field list (induction over appended fields) |
| Assembler.KeyPairOf | createtable_test.go:103-109 | a key is built exactly when there is one hash member and at most one range member; it is then that hash and that range |
| Assembler.DeclaredIndexes | createtable_test.go:59-102 | the index names declared over the fields are exactly the names some field's tags declare with that kind |
| Assembler.BuildIndexes | createtable_test.go:59-122 | the indexes are built exactly when every named index has a valid key; they then keep the names' order, each with its key |
| Assembler.FirstShared | createtable_test.go:59-122 | no name is shared between the lists exactly when the result is None; otherwise it returns a shared name |
| Assembler.AssembleSucceedsIff | createtable_test.go:12-22 | assembly succeeds exactly on well-formed structs: no two flattened fields with one attribute name; supported and agreeing key types; one table hash and at most one table range; no index name both global and local; every global index with one hash and at most one range; every local index with one range and no foreign hash |
| Assembler.AssembleCorrect | createtable_test.go:37-122 | a successful assembly has distinct field names and lists attributes first-seen; each attribute is used by some key schema and each used name has a definition; the table hash is the primary hash field; indexes are in first-declared order with distinct global and local names; each global index is keyed by its one hash member and its range member if any; each local index by the table hash and its one range member |
| Assembler.GlobalKeysFromMembers | createtable_test.go:59-102 | every built global index has exactly one hash member and at most one range member, and its key is that hash member plus the range member if there is one |
| Assembler.LocalKeysFromMembers | createtable_test.go:110-118 | every built local index has exactly one range member, and its key is the table's hash plus that range member |
| Assembler.UsedIsKeyName | createtable_test.go:37-58 | every attribute some key schema of the assembly uses is the name of a key field |
| Assembler.KeyFieldUsed | createtable_test.go:37-58 | every key field's name is used by the table key or by some index key |
| Assembler.LocalsShareTableHash | createtable_test.go:110-118 | every local index is keyed by the table's hash attribute plus a range attribute of its own |
| Assembler.GlobalAndLocalNamesDisjoint | createtable_test.go:59-122 | no global index shares its name with a local index |
| Assembler.IndexKeyOfSucceeds | createtable_test.go:59-122 | an index key is built exactly when the index's members satisfy the global or local key rule |
| Builder.NewStateValid | createtable_test.go:30 | the builder that `CreateTable` returns satisfies the builder invariant, for every struct |
| Builder.ProjectValid | createtable_test.go:31 | `Project` keeps the builder invariant |
| Builder.ProvisionValid | createtable_test.go:32 | `Provision` keeps the builder invariant |
| Builder.ProvisionIndexValid | createtable_test.go:33 | `ProvisionIndex` keeps the builder invariant |
| Builder.IndexPosition | createtable_test.go:31-33 | the position found holds the named index, and no index has that name when none is found |
| Builder.Unset | createtable_test.go:59-122 | freshly assembled indexes keep their names and keys and carry no override |
| Properties.CreateTableDefaults | createtable_test.go:30-128 | `CreateTable(name, s).input()` succeeds exactly when the flattened struct is well formed. The request then has: the given table name; attributes first-seen and typed after their fields; the table key from the primary hash and range fields; capacity (1,1); global indexes in first-declared order, each with the key schema of its one hash member and its range member if any, projection ALL and capacity (1,1); local indexes in first-declared order, each with the key schema of the table's hash and its one range member, and projection ALL |
| Properties.InputWellFormed | createtable_test.go:36-128 | every request a valid builder yields defines each attribute exactly once, exactly when some key schema uses it. Every key schema is hash-first. Every capacity is positive. Every projection lists attributes exactly when it is INCLUDE. Index names are distinct. Every local index is led by the table's hash key |
| Properties.ApplyValid | createtable_test.go:30-34 | any chain of override calls keeps the builder invariant |
| Properties.ChainWellFormed | createtable_test.go:30-34 | any `CreateTable` followed by any chain of overrides yields, when it succeeds, a well-formed request |
| Properties.FirstErrorWins | createtable_test.go:30-34 | once the builder holds an error, no further call changes it |
| Properties.RefusedStructFails | createtable_test.go:30-34 | a struct that cannot be assembled makes `input()` fail with the assembly's error, whatever overrides follow |
| Properties.StepOutcome | createtable_test.go:31-33 | an accepted override changes only projections and capacities; a refused one only records an error; an earlier error is kept |
| Properties.StepIdempotent | createtable_test.go:31-33 | repeating an override changes nothing |
| Properties.LastWriteWins | createtable_test.go:31-33 | of two accepted overrides of the same target, the later one alone decides the result |
| Properties.OverridesCommute | createtable_test.go:31-33 | accepted overrides of different targets give the same builder in either order |
| Properties.AcceptedAfter | createtable_test.go:31-33 | an accepted override does not change whether a later one is accepted |
| Properties.ProjectGlobalEffect | createtable_test.go:68-71 | `Project` on a global index changes the request in that index's projection only, to the given type and exactly the given list |
| Properties.ProjectLocalEffect | createtable_test.go:119-121 | `Project` on a local index changes the request in that index's projection only |
| Properties.ProvisionEffect | createtable_test.go:123-126 | `Provision(r, w)` with positive units changes the request in the table capacity only, to (r, w) |
| Properties.ProvisionIndexEffect | createtable_test.go:72-75 | `ProvisionIndex(name, r, w)` changes the request in that global index's capacity only, to (r, w) |
| Properties.ProvisionIndexOnLocalFails | createtable_test.go:110-122 | `ProvisionIndex` on a local index makes `input()` fail with NotGlobalIndex |
| Properties.UnknownIndexFails | createtable_test.go:31-33 | `Project` or `ProvisionIndex` on a name no index has makes `input()` fail with UnknownIndex |
| Properties.InconsistentProjectionFails | createtable_test.go:31 | INCLUDE without attributes, or attributes with another projection type, makes `input()` fail |
| Properties.NonPositiveUnitsFail | createtable_test.go:32-33 | a capacity override with a non-positive unit makes `input()` fail with NonPositiveUnits |
| Table.CreateTable.constructor | createtable_test.go:30 | the new builder holds the compiled struct, or the assembly error, and satisfies the invariant |
| Table.CreateTable.Project | createtable_test.go:31 | updates the object exactly as `Builder.ProjectState` does and keeps the invariant |
| Table.CreateTable.Provision | createtable_test.go:32 | updates the object exactly as `Builder.ProvisionState` does and keeps the invariant |
| Table.CreateTable.ProvisionIndex | createtable_test.go:33 | updates the object exactly as `Builder.ProvisionIndexState` does and keeps the invariant |
| Table.CreateTable.RecordError | createtable_test.go:30-34 | records an error only when none is held yet |
| Table.CreateTable.Input | createtable_test.go:34 | builds the request index by index; it equals `Builder.InputOf` of the object's state and is well formed whenever it succeeds |
| Fixture.UserActionFlattens | createtable_test.go:12-22 | `UserAction` flattens to ID, Time, Seq, UUID, Embedded, with the embedded field promoted last |
| Fixture.UserNamesDistinct | createtable_test.go:12-22 | the flattened names of `UserAction` are ID, Time, Seq, UUID, Embedded, and none repeats |
| Fixture.UserAttributes | createtable_test.go:37-58 | the attribute definitions of `UserAction` are ID:S, Time:S, Seq:N, UUID:S, Embedded:S |
| Fixture.UserPrimaryKey | createtable_test.go:13-14 | the table's hash member is ID (renamed from UserID) and its range member is Time (named after the field) |
| Fixture.UserIndexNames | createtable_test.go:59-122 | the global indexes are Seq-ID-index, UUID-index, Embedded-index in that order; the local index is ID-Seq-index |
| Fixture.UserIndexes | createtable_test.go:59-102 | Seq-ID-index is keyed Seq/ID; UUID-index and Embedded-index are hash-only |
| Fixture.IDSeqKey | createtable_test.go:110-118 | ID-Seq-index is keyed by the table hash ID plus Seq |
| Fixture.UserActionCompiles | createtable_test.go:30 | `CreateTable("UserActions", UserAction{})` yields the expected builder with no override set |
| Fixture.TestCallsApplied | createtable_test.go:31-33 | the three overrides set Seq-ID-index's projection and capacity and the table capacity, and nothing else |
| Fixture.UserActionsInput | createtable_test.go:30-128 | the whole chain yields exactly the expected `CreateTableInput` |
| Fixture.TestCreateTable | createtable_test.go:24-133 | running the chain on the `CreateTable` object returns exactly the expected request |

## Left out

- Go reflection and struct-tag parsing are not modelled: each field arrives with its tags already parsed (`Schema.FieldDecl`). A malformed tag is therefore not an error case here.
- The AWS SDK wrappers (`aws.String`, `aws.Int64`, the `dynamodb` structs) are replaced by plain values. This means the model does not tell an absent list from an empty one, such as the `NonKeyAttributes` of an ALL projection.
- `reflect.DeepEqual` is replaced by Dafny structural equality.
- The `testDB` handle, the network `CreateTable` call, `Run`, waiting for the table and stream settings are outside the compiler and are left out.
- The `time.Time` serialisation format is left out; only its attribute type "S" matters here.
- Capacity units are Go `int64` (`Schema.int64`). The compiler only copies them, so no arithmetic and no overflow is modelled.
- Errors are the generic failures of `Schema.BuildError`, not the library's message texts. They are:
  - an ambiguous attribute name after flattening;
  - an unsupported key type;
  - conflicting attribute types;
  - a missing or repeated hash key;
  - a repeated range key;
  - a local index without a range key or with a foreign hash key;
  - a name used for both a global and a local index;
  - an unknown index;
  - `ProvisionIndex` on a local index;
  - an inconsistent projection;
  - non-positive units.
- An embedded struct is either flattened or, tagged `-`, dropped. A name given to an embedded struct in its tag has no meaning of its own here.
- The Go methods return the builder so that calls can be chained. The methods here return nothing, and a chain is successive calls on one object.
- Properties.OverridesCommute: the claim that override order never matters is proved only for accepted overrides of different targets. Overrides of the same target are covered by Properties.LastWriteWins instead, and a refused override records the first error.
