/**
 * The index assembler: from the flattened fields, derives the attribute
 * definitions, the table's key, and the global and local secondary
 * indexes, validating every key schema on the way.
 */
module Assembler {
  import opened Wrappers
  import opened Schema
  import opened FirstSeen

  /** A field takes part in some key schema: the table's or an index's. */
  predicate IsKey(f: KeyField) {
    f.primary.Some? || |f.memberships| > 0
  }

  /** A key schema a field can take part in. */
  datatype Slot = PrimarySlot | IndexSlot(name: string, kind: IndexKind)

  /** Field f has the given role in the given key schema. */
  predicate Holds(f: KeyField, slot: Slot, role: KeyRole) {
    match slot
    case PrimarySlot => f.primary == Some(role)
    case IndexSlot(n, k) => Membership(n, k, role) in f.memberships
  }

  lemma HoldsIsKey(f: KeyField, slot: Slot, role: KeyRole)
    requires Holds(f, slot, role)
    ensures IsKey(f)
  {
    if slot.IndexSlot? {
      assert Membership(slot.name, slot.kind, role) in f.memberships;
    }
  }

  /** Names of the key fields, in field order, with repetitions. */
  function KeyNames(fields: seq<KeyField>): (names: seq<string>)
    ensures forall x :: x in names <==> exists f :: f in fields && IsKey(f) && f.name == x
    decreases |fields|
  {
    if fields == [] then []
    else
      var p := fields[..|fields| - 1];
      var f := fields[|fields| - 1];
      assert fields == p + [f];
      KeyNames(p) + (if IsKey(f) then [f.name] else [])
  }

  /** Names of the fields that have `role` in `slot`, one per field, in field order. */
  function Holders(fields: seq<KeyField>, slot: Slot, role: KeyRole): (names: seq<string>)
    ensures forall x :: x in names <==> exists f :: f in fields && Holds(f, slot, role) && f.name == x
    decreases |fields|
  {
    if fields == [] then []
    else
      var p := fields[..|fields| - 1];
      var f := fields[|fields| - 1];
      assert fields == p + [f];
      Holders(p, slot, role) + (if Holds(f, slot, role) then [f.name] else [])
  }

  /** The attribute names of all fields, key fields or not, in field order. */
  function FieldNames(fields: seq<KeyField>): (names: seq<string>)
    ensures |names| == |fields|
    ensures forall i :: 0 <= i < |fields| ==> names[i] == fields[i].name
  {
    if fields == [] then [] else [fields[0].name] + FieldNames(fields[1..])
  }

  /** The attribute names of a list of definitions. */
  function Names(defs: seq<AttributeDefinition>): (names: seq<string>)
    ensures |names| == |defs|
    ensures forall i :: 0 <= i < |defs| ==> names[i] == defs[i].attributeName
  {
    if defs == [] then [] else [defs[0].attributeName] + Names(defs[1..])
  }

  lemma NamesAppend(defs: seq<AttributeDefinition>, a: AttributeDefinition)
    ensures Names(defs + [a]) == Names(defs) + [a.attributeName]
  {
  }

  // ---- attribute definitions ----

  /** Every key field has a Go type that maps to an attribute type. */
  predicate KeyTypesSupported(fields: seq<KeyField>) {
    forall f :: f in fields && IsKey(f) ==> KindOf(f.goType).Some?
  }

  /** Key fields that share an attribute name map to the same attribute type. */
  predicate KindsAgree(fields: seq<KeyField>) {
    forall f, g :: f in fields && g in fields && IsKey(f) && IsKey(g) && f.name == g.name ==>
      KindOf(f.goType) == KindOf(g.goType)
  }

  /**
   * One definition per key attribute, added when its name is first met;
   * a later field of the same name must agree on the type.
   */
  function Attributes(fields: seq<KeyField>): Result<seq<AttributeDefinition>, BuildError>
    decreases |fields|
  {
    if fields == [] then Success([])
    else
      var prev :- Attributes(fields[..|fields| - 1]);
      var f := fields[|fields| - 1];
      if !IsKey(f) then Success(prev)
      else if KindOf(f.goType).None? then Failure(UnsupportedKeyType(f.name))
      else
        var def := AttributeDefinition(f.name, KindCode(KindOf(f.goType).value));
        if f.name !in Names(prev) then Success(prev + [def])
        else if def in prev then Success(prev)
        else Failure(ConflictingTypes(f.name))
  }

  lemma KindCodeInjective(a: AttrKind, b: AttrKind)
    requires KindCode(a) == KindCode(b)
    ensures a == b
  {
  }

  /** Each definition's type is the attribute type of every key field of that name. */
  predicate TypesFollowFields(defs: seq<AttributeDefinition>, fields: seq<KeyField>) {
    forall a, f :: a in defs && f in fields && IsKey(f) && f.name == a.attributeName ==>
      KindOf(f.goType).Some? && a.attributeType == KindCode(KindOf(f.goType).value)
  }

  /** The specification of attribute definitions over a field list. */
  predicate AttributesMeetSpec(fields: seq<KeyField>) {
    && (Attributes(fields).Success? <==> KeyTypesSupported(fields) && KindsAgree(fields))
    && (Attributes(fields).Success? ==>
          Names(Attributes(fields).value) == Dedup(KeyNames(fields))
          && TypesFollowFields(Attributes(fields).value, fields))
  }

  /** One step of Attributes: the definitions after appending field f. */
  function AddAttribute(prev: seq<AttributeDefinition>, f: KeyField): Result<seq<AttributeDefinition>, BuildError> {
    if !IsKey(f) then Success(prev)
    else if KindOf(f.goType).None? then Failure(UnsupportedKeyType(f.name))
    else
      var def := AttributeDefinition(f.name, KindCode(KindOf(f.goType).value));
      if f.name !in Names(prev) then Success(prev + [def])
      else if def in prev then Success(prev)
      else Failure(ConflictingTypes(f.name))
  }

  lemma AttributesSnoc(p: seq<KeyField>, f: KeyField)
    ensures Attributes(p + [f]) ==
              if Attributes(p).Failure? then Attributes(p) else AddAttribute(Attributes(p).value, f)
    ensures KeyNames(p + [f]) == KeyNames(p) + (if IsKey(f) then [f.name] else [])
  {
    assert (p + [f])[..|p|] == p;
  }

  lemma HoldersSnoc(p: seq<KeyField>, f: KeyField, slot: Slot, role: KeyRole)
    ensures Holders(p + [f], slot, role) == Holders(p, slot, role) + (if Holds(f, slot, role) then [f.name] else [])
  {
    assert (p + [f])[..|p|] == p;
  }

  lemma MembersSnoc(p: seq<KeyField>, f: KeyField)
    ensures forall g :: g in p + [f] <==> g in p || g == f
  {
  }

  lemma SupportedSnoc(p: seq<KeyField>, f: KeyField)
    ensures KeyTypesSupported(p + [f]) <==>
              KeyTypesSupported(p) && (IsKey(f) ==> KindOf(f.goType).Some?)
  {
    MembersSnoc(p, f);
  }

  lemma AgreeSnoc(p: seq<KeyField>, f: KeyField)
    ensures KindsAgree(p + [f]) <==>
              KindsAgree(p)
              && (IsKey(f) ==> forall g :: g in p && IsKey(g) && g.name == f.name ==> KindOf(g.goType) == KindOf(f.goType))
  {
    MembersSnoc(p, f);
  }

  lemma TypesSnocNew(prev: seq<AttributeDefinition>, p: seq<KeyField>, f: KeyField)
    requires TypesFollowFields(prev, p) && IsKey(f) && KindOf(f.goType).Some?
    requires forall a :: a in prev ==> a.attributeName != f.name
    requires forall g :: g in p && IsKey(g) ==> g.name != f.name
    ensures TypesFollowFields(prev + [AttributeDefinition(f.name, KindCode(KindOf(f.goType).value))], p + [f])
  {
    MembersSnoc(p, f);
  }

  lemma TypesSnocSeen(prev: seq<AttributeDefinition>, p: seq<KeyField>, f: KeyField)
    requires TypesFollowFields(prev, p) && IsKey(f) && KindOf(f.goType).Some?
    requires NoDup(Names(prev))
    requires AttributeDefinition(f.name, KindCode(KindOf(f.goType).value)) in prev
    ensures TypesFollowFields(prev, p + [f])
  {
    MembersSnoc(p, f);
    forall a | a in prev && a.attributeName == f.name
      ensures a.attributeType == KindCode(KindOf(f.goType).value)
    {
      NoDupNamesUnique(prev, a, AttributeDefinition(f.name, KindCode(KindOf(f.goType).value)));
    }
  }

  lemma NameInNames(defs: seq<AttributeDefinition>, x: string)
    ensures x in Names(defs) <==> exists a :: a in defs && a.attributeName == x
  {
    if x in Names(defs) {
      var i :| 0 <= i < |defs| && Names(defs)[i] == x;
      assert defs[i] in defs;
    }
    if exists a :: a in defs && a.attributeName == x {
      var a :| a in defs && a.attributeName == x;
      var i :| 0 <= i < |defs| && defs[i] == a;
      assert Names(defs)[i] == x;
    }
  }

  /** The two definitions held for one name are the same one. */
  lemma NoDupNamesUnique(defs: seq<AttributeDefinition>, a: AttributeDefinition, b: AttributeDefinition)
    requires NoDup(Names(defs)) && a in defs && b in defs && a.attributeName == b.attributeName
    ensures a == b
  {
    var i :| 0 <= i < |defs| && defs[i] == a;
    var j :| 0 <= j < |defs| && defs[j] == b;
    NoDupSamePosition(Names(defs), i, j);
  }

  lemma StepFailed(p: seq<KeyField>, f: KeyField)
    requires AttributesMeetSpec(p) && Attributes(p).Failure?
    ensures AttributesMeetSpec(p + [f])
  {
    AttributesSnoc(p, f);
    SupportedSnoc(p, f);
    AgreeSnoc(p, f);
  }

  lemma StepUnsupported(p: seq<KeyField>, f: KeyField)
    requires AttributesMeetSpec(p) && Attributes(p).Success? && IsKey(f) && KindOf(f.goType).None?
    ensures AttributesMeetSpec(p + [f])
  {
    AttributesSnoc(p, f);
    SupportedSnoc(p, f);
  }

  lemma TypesSnocNonKey(prev: seq<AttributeDefinition>, p: seq<KeyField>, f: KeyField)
    requires TypesFollowFields(prev, p) && !IsKey(f)
    ensures TypesFollowFields(prev, p + [f])
  {
    MembersSnoc(p, f);
  }

  lemma StepNonKey(p: seq<KeyField>, f: KeyField)
    requires AttributesMeetSpec(p) && Attributes(p).Success? && !IsKey(f)
    ensures AttributesMeetSpec(p + [f])
  {
    var prev := Attributes(p).value;
    AttributesSnoc(p, f);
    assert Attributes(p + [f]) == Success(prev);
    assert KeyNames(p + [f]) == KeyNames(p);
    SupportedSnoc(p, f);
    AgreeSnoc(p, f);
    assert KeyTypesSupported(p + [f]) && KindsAgree(p + [f]);
    TypesSnocNonKey(prev, p, f);
    assert Names(prev) == Dedup(KeyNames(p + [f]));
  }

  lemma StepNewName(p: seq<KeyField>, f: KeyField)
    requires AttributesMeetSpec(p) && Attributes(p).Success?
    requires IsKey(f) && KindOf(f.goType).Some?
    requires f.name !in Names(Attributes(p).value)
    ensures AttributesMeetSpec(p + [f])
  {
    var prev := Attributes(p).value;
    var def := AttributeDefinition(f.name, KindCode(KindOf(f.goType).value));
    AttributesSnoc(p, f);
    assert Attributes(p + [f]) == Success(prev + [def]);
    assert f.name !in KeyNames(p);
    assert forall g :: g in p && IsKey(g) ==> g.name != f.name;
    DedupSnoc(KeyNames(p), f.name);
    NamesAppend(prev, def);
    NameInNames(prev, f.name);
    TypesSnocNew(prev, p, f);
    SupportedSnoc(p, f);
    AgreeSnoc(p, f);
  }

  /** The definition already held for a key field's name, and a field of p it came from. */
  lemma SeenDefinition(p: seq<KeyField>, f: KeyField) returns (a: AttributeDefinition, g: KeyField)
    requires AttributesMeetSpec(p) && Attributes(p).Success?
    requires IsKey(f) && f.name in Names(Attributes(p).value)
    ensures a in Attributes(p).value && a.attributeName == f.name
    ensures g in p && IsKey(g) && g.name == f.name
    ensures KindOf(g.goType).Some? && a.attributeType == KindCode(KindOf(g.goType).value)
  {
    var prev := Attributes(p).value;
    NameInNames(prev, f.name);
    a :| a in prev && a.attributeName == f.name;
    assert a.attributeName in KeyNames(p);
    g :| g in p && IsKey(g) && g.name == a.attributeName;
  }

  lemma AgreesWithSeen(p: seq<KeyField>, f: KeyField)
    requires KeyTypesSupported(p) && KindsAgree(p) && Attributes(p).Success?
    requires TypesFollowFields(Attributes(p).value, p)
    requires IsKey(f) && KindOf(f.goType).Some?
    requires AttributeDefinition(f.name, KindCode(KindOf(f.goType).value)) in Attributes(p).value
    ensures KeyTypesSupported(p + [f]) && KindsAgree(p + [f])
  {
    SupportedSnoc(p, f);
    AgreeSnoc(p, f);
    forall g | g in p && IsKey(g) && g.name == f.name
      ensures KindOf(g.goType) == KindOf(f.goType)
    {
      KindCodeInjective(KindOf(g.goType).value, KindOf(f.goType).value);
    }
  }

  lemma StepSeenAgreeing(p: seq<KeyField>, f: KeyField)
    requires AttributesMeetSpec(p) && Attributes(p).Success?
    requires IsKey(f) && KindOf(f.goType).Some?
    requires f.name in Names(Attributes(p).value)
    requires AttributeDefinition(f.name, KindCode(KindOf(f.goType).value)) in Attributes(p).value
    ensures AttributesMeetSpec(p + [f])
  {
    var prev := Attributes(p).value;
    AttributesSnoc(p, f);
    assert Attributes(p + [f]) == Success(prev);
    DedupSnoc(KeyNames(p), f.name);
    AgreesWithSeen(p, f);
    TypesSnocSeen(prev, p, f);
  }

  lemma StepSeenConflicting(p: seq<KeyField>, f: KeyField)
    requires AttributesMeetSpec(p) && Attributes(p).Success?
    requires IsKey(f) && KindOf(f.goType).Some?
    requires f.name in Names(Attributes(p).value)
    requires AttributeDefinition(f.name, KindCode(KindOf(f.goType).value)) !in Attributes(p).value
    ensures AttributesMeetSpec(p + [f])
  {
    AttributesSnoc(p, f);
    AgreeSnoc(p, f);
    var a, g := SeenDefinition(p, f);
    assert KindOf(g.goType) != KindOf(f.goType);
  }

  lemma StepSeenName(p: seq<KeyField>, f: KeyField)
    requires AttributesMeetSpec(p) && Attributes(p).Success?
    requires IsKey(f) && KindOf(f.goType).Some?
    requires f.name in Names(Attributes(p).value)
    ensures AttributesMeetSpec(p + [f])
  {
    if AttributeDefinition(f.name, KindCode(KindOf(f.goType).value)) in Attributes(p).value {
      StepSeenAgreeing(p, f);
    } else {
      StepSeenConflicting(p, f);
    }
  }

  /**
   * Attribute definitions succeed exactly when every key type is supported
   * and same-named key fields agree; they then hold one entry per distinct
   * key attribute, in first-encounter order, typed after its field.
   */
  lemma AttributesCorrect(fields: seq<KeyField>)
    ensures Attributes(fields).Success? <==> KeyTypesSupported(fields) && KindsAgree(fields)
    ensures Attributes(fields).Success? ==>
              Names(Attributes(fields).value) == Dedup(KeyNames(fields))
              && TypesFollowFields(Attributes(fields).value, fields)
  {
    AttributesMeetSpecAll(fields);
  }

  lemma {:induction false} AttributesMeetSpecAll(fields: seq<KeyField>)
    ensures AttributesMeetSpec(fields)
    decreases |fields|
  {
    if fields != [] {
      var p := fields[..|fields| - 1];
      var f := fields[|fields| - 1];
      assert fields == p + [f];
      AttributesMeetSpecAll(p);
      if Attributes(p).Failure? {
        StepFailed(p, f);
      } else if !IsKey(f) {
        StepNonKey(p, f);
      } else if KindOf(f.goType).None? {
        StepUnsupported(p, f);
      } else if f.name !in Names(Attributes(p).value) {
        StepNewName(p, f);
      } else {
        StepSeenName(p, f);
      }
    }
  }

  // ---- key schemas ----

  /** A validated key: one hash attribute, at most one range attribute. */
  datatype KeyPair = KeyPair(hash: string, range: Option<string>)

  /** The first of a list of holders, if there is one. */
  function FirstOf(names: seq<string>): Option<string> {
    if names == [] then None else Some(names[0])
  }

  /** The key of a table or global index from its hash and range holders. */
  function KeyPairOf(schema: SchemaName, hashes: seq<string>, ranges: seq<string>): (r: Result<KeyPair, BuildError>)
    ensures r.Success? <==> |hashes| == 1 && |ranges| <= 1
    ensures r.Success? ==> r.value.hash == hashes[0]
    ensures r.Success? ==> r.value.range == (if ranges == [] then None else Some(ranges[0]))
  {
    if |hashes| == 0 then Failure(MissingHashKey(schema))
    else if |hashes| > 1 then Failure(MultipleHashKeys(schema))
    else if |ranges| > 1 then Failure(MultipleRangeKeys(schema))
    else Success(KeyPair(hashes[0], if ranges == [] then None else Some(ranges[0])))
  }

  /** Index names of the given kind declared in one field's tags, in tag order. */
  function IndexNamesIn(ms: seq<Membership>, kind: IndexKind): (names: seq<string>)
    ensures forall x :: x in names <==> exists m :: m in ms && m.kind == kind && m.index == x
    decreases |ms|
  {
    if ms == [] then []
    else
      var p := ms[..|ms| - 1];
      var m := ms[|ms| - 1];
      assert ms == p + [m];
      IndexNamesIn(p, kind) + (if m.kind == kind then [m.index] else [])
  }

  /** Index names of the given kind, field by field, with repetitions. */
  function DeclaredIndexes(fields: seq<KeyField>, kind: IndexKind): (names: seq<string>)
    ensures forall x :: x in names <==>
              exists f, m :: f in fields && m in f.memberships && m.kind == kind && m.index == x
    decreases |fields|
  {
    if fields == [] then []
    else
      var p := fields[..|fields| - 1];
      var f := fields[|fields| - 1];
      assert fields == p + [f];
      DeclaredIndexes(p, kind) + IndexNamesIn(f.memberships, kind)
  }

  lemma DeclaredIndexesSnoc(p: seq<KeyField>, f: KeyField, kind: IndexKind)
    ensures DeclaredIndexes(p + [f], kind) == DeclaredIndexes(p, kind) + IndexNamesIn(f.memberships, kind)
  {
    assert (p + [f])[..|p|] == p;
  }

  /** The indexes of one kind, each once, in first-seen order over the fields. */
  function IndexNames(fields: seq<KeyField>, kind: IndexKind): seq<string> {
    Dedup(DeclaredIndexes(fields, kind))
  }

  /**
   * The key of one index. A global index needs one hash and at most one
   * range member; a local index shares the table's hash key and needs
   * exactly one range member of its own.
   */
  function IndexKeyOf(fields: seq<KeyField>, n: string, kind: IndexKind, tableHash: string): Result<KeyPair, BuildError> {
    var hashes := Holders(fields, IndexSlot(n, kind), Hash);
    var ranges := Holders(fields, IndexSlot(n, kind), Range);
    match kind
    case Global => KeyPairOf(IndexKey(n), hashes, ranges)
    case Local =>
      if |ranges| == 0 then Failure(MissingRangeKey(n))
      else if |ranges| > 1 then Failure(MultipleRangeKeys(IndexKey(n)))
      else if exists h :: h in hashes && h != tableHash then Failure(ForeignLocalHashKey(n))
      else Success(KeyPair(tableHash, Some(ranges[0])))
  }

  /** A named index with its validated key. */
  datatype IndexDef = IndexDef(name: string, key: KeyPair)

  /** The indexes named, in that order; the first invalid one stops the build. */
  function BuildIndexes(fields: seq<KeyField>, names: seq<string>, kind: IndexKind, tableHash: string)
    : (r: Result<seq<IndexDef>, BuildError>)
    ensures r.Success? <==> forall n :: n in names ==> IndexKeyOf(fields, n, kind, tableHash).Success?
    ensures r.Success? ==> |r.value| == |names|
    ensures r.Success? ==> forall i :: 0 <= i < |names| ==>
              r.value[i].name == names[i] && IndexKeyOf(fields, names[i], kind, tableHash) == Success(r.value[i].key)
    decreases |names|
  {
    if names == [] then Success([])
    else
      var key :- IndexKeyOf(fields, names[0], kind, tableHash);
      var rest :- BuildIndexes(fields, names[1..], kind, tableHash);
      Success([IndexDef(names[0], key)] + rest)
  }

  /** The first name of a that also occurs in b. */
  function FirstShared(a: seq<string>, b: seq<string>): (r: Option<string>)
    ensures r.None? <==> forall x :: x in a ==> x !in b
    ensures r.Some? ==> r.value in a && r.value in b
  {
    if a == [] then None
    else if a[0] in b then Some(a[0])
    else FirstShared(a[1..], b)
  }

  /** Everything the field list determines about the table. */
  datatype Assembled = Assembled(attribs: seq<AttributeDefinition>, key: KeyPair,
                                 globals: seq<IndexDef>, locals: seq<IndexDef>)

  /**
   * Two fields that carry one attribute name after flattening make the
   * struct ambiguous and are refused before anything else is derived.
   */
  function Assemble(fields: seq<KeyField>): Result<Assembled, BuildError> {
    var ambiguous := FirstRepeated(FieldNames(fields));
    if ambiguous.Some? then Failure(AmbiguousName(ambiguous.value))
    else
      var attribs :- Attributes(fields);
      var key :- KeyPairOf(TableKey, Holders(fields, PrimarySlot, Hash), Holders(fields, PrimarySlot, Range));
      var globalNames := IndexNames(fields, Global);
      var localNames := IndexNames(fields, Local);
      var shared := FirstShared(globalNames, localNames);
      if shared.Some? then Failure(MixedIndexKind(shared.value))
      else
        var globals :- BuildIndexes(fields, globalNames, Global, key.hash);
        var locals :- BuildIndexes(fields, localNames, Local, key.hash);
        Success(Assembled(attribs, key, globals, locals))
  }

  // ---- what a successful assembly guarantees ----

  /** A global index is keyed by exactly one hash member and at most one range member. */
  predicate GlobalKeyWellFormed(fields: seq<KeyField>, n: string) {
    |Holders(fields, IndexSlot(n, Global), Hash)| == 1 && |Holders(fields, IndexSlot(n, Global), Range)| <= 1
  }

  /** A local index has exactly one range member, and any hash member it declares is the table's. */
  predicate LocalKeyWellFormed(fields: seq<KeyField>, n: string, tableHash: string) {
    && |Holders(fields, IndexSlot(n, Local), Range)| == 1
    && forall h :: h in Holders(fields, IndexSlot(n, Local), Hash) ==> h == tableHash
  }

  /** The rules a field list must follow for a table to be built from it. */
  predicate WellFormed(fields: seq<KeyField>) {
    && NoDup(FieldNames(fields))
    && KeyTypesSupported(fields)
    && KindsAgree(fields)
    && |Holders(fields, PrimarySlot, Hash)| == 1
    && |Holders(fields, PrimarySlot, Range)| <= 1
    && (forall n :: n in DeclaredIndexes(fields, Global) ==> n !in DeclaredIndexes(fields, Local))
    && (forall n :: n in DeclaredIndexes(fields, Global) ==> GlobalKeyWellFormed(fields, n))
    && (forall n :: n in DeclaredIndexes(fields, Local) ==>
          LocalKeyWellFormed(fields, n, Holders(fields, PrimarySlot, Hash)[0]))
  }

  lemma IndexKeyOfSucceeds(fields: seq<KeyField>, n: string, kind: IndexKind, tableHash: string)
    ensures kind == Global ==> (IndexKeyOf(fields, n, kind, tableHash).Success? <==> GlobalKeyWellFormed(fields, n))
    ensures kind == Local ==> (IndexKeyOf(fields, n, kind, tableHash).Success? <==> LocalKeyWellFormed(fields, n, tableHash))
  {
  }

  lemma GlobalsBuildIff(fields: seq<KeyField>, tableHash: string)
    ensures BuildIndexes(fields, IndexNames(fields, Global), Global, tableHash).Success? <==>
      forall n :: n in DeclaredIndexes(fields, Global) ==> GlobalKeyWellFormed(fields, n)
  {
    assert forall n :: n in IndexNames(fields, Global) <==> n in DeclaredIndexes(fields, Global);
    forall n | true
      ensures IndexKeyOf(fields, n, Global, tableHash).Success? <==> GlobalKeyWellFormed(fields, n)
    {
      IndexKeyOfSucceeds(fields, n, Global, tableHash);
    }
  }

  lemma LocalsBuildIff(fields: seq<KeyField>, tableHash: string)
    ensures BuildIndexes(fields, IndexNames(fields, Local), Local, tableHash).Success? <==>
      forall n :: n in DeclaredIndexes(fields, Local) ==> LocalKeyWellFormed(fields, n, tableHash)
  {
    assert forall n :: n in IndexNames(fields, Local) <==> n in DeclaredIndexes(fields, Local);
    forall n | true
      ensures IndexKeyOf(fields, n, Local, tableHash).Success? <==> LocalKeyWellFormed(fields, n, tableHash)
    {
      IndexKeyOfSucceeds(fields, n, Local, tableHash);
    }
  }

  lemma NoSharedIff(fields: seq<KeyField>)
    ensures FirstShared(IndexNames(fields, Global), IndexNames(fields, Local)).None? <==>
      forall n :: n in DeclaredIndexes(fields, Global) ==> n !in DeclaredIndexes(fields, Local)
  {
    assert forall n :: n in IndexNames(fields, Global) <==> n in DeclaredIndexes(fields, Global);
    assert forall n :: n in IndexNames(fields, Local) <==> n in DeclaredIndexes(fields, Local);
  }

  /** Assembly succeeds exactly on well-formed field lists. */
  lemma AssembleSucceedsIff(fields: seq<KeyField>)
    ensures Assemble(fields).Success? <==> WellFormed(fields)
  {
    AttributesCorrect(fields);
    var hashes := Holders(fields, PrimarySlot, Hash);
    var ranges := Holders(fields, PrimarySlot, Range);
    if NoDup(FieldNames(fields)) && Attributes(fields).Success? && |hashes| == 1 && |ranges| <= 1 {
      NoSharedIff(fields);
      GlobalsBuildIff(fields, hashes[0]);
      LocalsBuildIff(fields, hashes[0]);
    }
  }

  /** x is an attribute of the table's key or of some index's key. */
  predicate UsedInKeys(key: KeyPair, globals: seq<IndexDef>, locals: seq<IndexDef>, x: string) {
    || key.hash == x || key.range == Some(x)
    || (exists d :: d in globals && (d.key.hash == x || d.key.range == Some(x)))
    || (exists d :: d in locals && (d.key.hash == x || d.key.range == Some(x)))
  }

  lemma HeldIsKeyName(fields: seq<KeyField>, slot: Slot, role: KeyRole, x: string)
    requires x in Holders(fields, slot, role)
    ensures x in KeyNames(fields)
  {
    var f :| f in fields && Holds(f, slot, role) && f.name == x;
    HoldsIsKey(f, slot, role);
  }

  lemma IndexKeyHeld(fields: seq<KeyField>, n: string, kind: IndexKind, tableHash: string, key: KeyPair)
    requires IndexKeyOf(fields, n, kind, tableHash) == Success(key)
    ensures kind == Global ==> key.hash in Holders(fields, IndexSlot(n, kind), Hash)
    ensures kind == Local ==> key.hash == tableHash
    ensures key.range.Some? ==> key.range.value in Holders(fields, IndexSlot(n, kind), Range)
    ensures kind == Local ==> key.range.Some?
  {
  }

  /** The parts of a successful assembly, each as the function that produced it. */
  predicate AssembledFrom(fields: seq<KeyField>, a: Assembled) {
    && NoDup(FieldNames(fields))
    && Attributes(fields) == Success(a.attribs)
    && KeyPairOf(TableKey, Holders(fields, PrimarySlot, Hash), Holders(fields, PrimarySlot, Range)) == Success(a.key)
    && FirstShared(IndexNames(fields, Global), IndexNames(fields, Local)).None?
    && BuildIndexes(fields, IndexNames(fields, Global), Global, a.key.hash) == Success(a.globals)
    && BuildIndexes(fields, IndexNames(fields, Local), Local, a.key.hash) == Success(a.locals)
  }

  lemma AssembleParts(fields: seq<KeyField>)
    requires Assemble(fields).Success?
    ensures AssembledFrom(fields, Assemble(fields).value)
  {
    assert FirstRepeated(FieldNames(fields)).None?;
    assert Attributes(fields).Success?;
    var hashes := Holders(fields, PrimarySlot, Hash);
    var ranges := Holders(fields, PrimarySlot, Range);
    assert KeyPairOf(TableKey, hashes, ranges).Success?;
    var key := KeyPairOf(TableKey, hashes, ranges).value;
    var gn := IndexNames(fields, Global);
    var ln := IndexNames(fields, Local);
    assert FirstShared(gn, ln).None?;
    assert BuildIndexes(fields, gn, Global, key.hash).Success?;
    assert BuildIndexes(fields, ln, Local, key.hash).Success?;
  }

  lemma KeyFieldUsedPrimary(fields: seq<KeyField>, key: KeyPair, f: KeyField)
    requires KeyPairOf(TableKey, Holders(fields, PrimarySlot, Hash), Holders(fields, PrimarySlot, Range)) == Success(key)
    requires f in fields && f.primary.Some?
    ensures key.hash == f.name || key.range == Some(f.name)
  {
    var hashes := Holders(fields, PrimarySlot, Hash);
    var ranges := Holders(fields, PrimarySlot, Range);
    assert |hashes| == 1 && |ranges| <= 1;
    if f.primary.value == Hash {
      assert Holds(f, PrimarySlot, Hash);
      assert f.name in hashes;
    } else {
      assert Holds(f, PrimarySlot, Range);
      assert f.name in ranges;
      assert ranges[0] == f.name;
    }
  }

  lemma KeyFieldUsedIndex(fields: seq<KeyField>, a: Assembled, f: KeyField, m: Membership)
    requires AssembledFrom(fields, a)
    requires f in fields && m in f.memberships
    ensures UsedInKeys(a.key, a.globals, a.locals, f.name)
  {
    var x := f.name;
    var slot := IndexSlot(m.index, m.kind);
    var held := Holders(fields, slot, m.role);
    assert Holds(f, slot, m.role);
    assert x in held;
    DeclaredIndex(fields, f, m);
    var names := IndexNames(fields, m.kind);
    var i :| 0 <= i < |names| && names[i] == m.index;
    var defs := if m.kind == Global then a.globals else a.locals;
    assert BuildIndexes(fields, names, m.kind, a.key.hash) == Success(defs);
    var d := defs[i];
    assert d in defs;
    IndexKeyUses(fields, m.index, m.kind, m.role, a.key.hash, d.key, x);
  }

  lemma DeclaredIndex(fields: seq<KeyField>, f: KeyField, m: Membership)
    requires f in fields && m in f.memberships
    ensures m.index in IndexNames(fields, m.kind)
  {
    assert m.index in DeclaredIndexes(fields, m.kind);
  }

  /** Whoever holds a role in an index's key appears in that key (or, for a local hash, in the table's). */
  lemma IndexKeyUses(fields: seq<KeyField>, n: string, kind: IndexKind, role: KeyRole, tableHash: string, key: KeyPair, x: string)
    requires IndexKeyOf(fields, n, kind, tableHash) == Success(key)
    requires x in Holders(fields, IndexSlot(n, kind), role)
    ensures key.hash == x || key.range == Some(x)
  {
    var held := Holders(fields, IndexSlot(n, kind), role);
    if kind == Global || role == Range {
      assert |held| <= 1;
      assert held[0] == x;
    }
  }

  /** Every key field takes part in some key schema of the assembly. */
  lemma KeyFieldUsed(fields: seq<KeyField>, a: Assembled, f: KeyField)
    requires AssembledFrom(fields, a)
    requires f in fields && IsKey(f)
    ensures UsedInKeys(a.key, a.globals, a.locals, f.name)
  {
    if f.primary.Some? {
      KeyFieldUsedPrimary(fields, a.key, f);
    } else {
      KeyFieldUsedIndex(fields, a, f, f.memberships[0]);
    }
  }

  lemma IndexUserIsKeyName(fields: seq<KeyField>, names: seq<string>, kind: IndexKind, tableHash: string,
                           defs: seq<IndexDef>, x: string)
    requires BuildIndexes(fields, names, kind, tableHash) == Success(defs)
    requires exists d :: d in defs && (d.key.hash == x || d.key.range == Some(x))
    requires kind == Local ==> tableHash in Holders(fields, PrimarySlot, Hash)
    ensures x in KeyNames(fields)
  {
    var d :| d in defs && (d.key.hash == x || d.key.range == Some(x));
    var i :| 0 <= i < |defs| && defs[i] == d;
    IndexKeyHeld(fields, names[i], kind, tableHash, d.key);
    if d.key.hash == x && kind == Global {
      HeldIsKeyName(fields, IndexSlot(names[i], kind), Hash, x);
    } else if d.key.hash == x {
      HeldIsKeyName(fields, PrimarySlot, Hash, x);
    } else {
      HeldIsKeyName(fields, IndexSlot(names[i], kind), Range, x);
    }
  }

  /** Every attribute some key schema of the assembly uses is a key name. */
  lemma UsedIsKeyName(fields: seq<KeyField>, a: Assembled, x: string)
    requires AssembledFrom(fields, a)
    requires UsedInKeys(a.key, a.globals, a.locals, x)
    ensures x in KeyNames(fields)
  {
    var hashes := Holders(fields, PrimarySlot, Hash);
    assert a.key.hash == hashes[0] && hashes[0] in hashes;
    if a.key.hash == x {
      HeldIsKeyName(fields, PrimarySlot, Hash, x);
    } else if a.key.range == Some(x) {
      HeldIsKeyName(fields, PrimarySlot, Range, x);
    } else if exists d :: d in a.globals && (d.key.hash == x || d.key.range == Some(x)) {
      IndexUserIsKeyName(fields, IndexNames(fields, Global), Global, a.key.hash, a.globals, x);
    } else {
      IndexUserIsKeyName(fields, IndexNames(fields, Local), Local, a.key.hash, a.locals, x);
    }
  }

  lemma LocalsShareTableHash(fields: seq<KeyField>, a: Assembled)
    requires AssembledFrom(fields, a)
    ensures forall d :: d in a.locals ==> d.key.hash == a.key.hash && d.key.range.Some?
  {
    var ln := IndexNames(fields, Local);
    forall d | d in a.locals
      ensures d.key.hash == a.key.hash && d.key.range.Some?
    {
      var i :| 0 <= i < |a.locals| && a.locals[i] == d;
      IndexKeyHeld(fields, ln[i], Local, a.key.hash, d.key);
    }
  }

  lemma GlobalAndLocalNamesDisjoint(fields: seq<KeyField>, a: Assembled)
    requires AssembledFrom(fields, a)
    ensures forall i, j :: 0 <= i < |a.globals| && 0 <= j < |a.locals| ==> a.globals[i].name != a.locals[j].name
  {
    var gn := IndexNames(fields, Global);
    var ln := IndexNames(fields, Local);
    forall i, j | 0 <= i < |a.globals| && 0 <= j < |a.locals|
      ensures a.globals[i].name != a.locals[j].name
    {
      assert gn[i] in gn && ln[j] in ln;
    }
  }

  /**
   * Each global index is keyed by its one hash member and its range member
   * if any; each local index by the table's hash and its one range member.
   * One field may hold different roles in different indexes.
   */
  lemma GlobalKeysFromMembers(fields: seq<KeyField>, names: seq<string>, tableHash: string, defs: seq<IndexDef>)
    requires BuildIndexes(fields, names, Global, tableHash) == Success(defs)
    ensures forall i :: 0 <= i < |defs| ==>
      && |Holders(fields, IndexSlot(names[i], Global), Hash)| == 1
      && |Holders(fields, IndexSlot(names[i], Global), Range)| <= 1
      && defs[i].key == KeyPair(Holders(fields, IndexSlot(names[i], Global), Hash)[0],
                                FirstOf(Holders(fields, IndexSlot(names[i], Global), Range)))
  {
    forall i | 0 <= i < |defs|
      ensures IndexKeyOf(fields, names[i], Global, tableHash) == Success(defs[i].key)
    {
    }
  }

  lemma LocalKeysFromMembers(fields: seq<KeyField>, names: seq<string>, tableHash: string, defs: seq<IndexDef>)
    requires BuildIndexes(fields, names, Local, tableHash) == Success(defs)
    ensures forall i :: 0 <= i < |defs| ==>
      && |Holders(fields, IndexSlot(names[i], Local), Range)| == 1
      && defs[i].key == KeyPair(tableHash, Some(Holders(fields, IndexSlot(names[i], Local), Range)[0]))
  {
    forall i | 0 <= i < |defs|
      ensures IndexKeyOf(fields, names[i], Local, tableHash) == Success(defs[i].key)
    {
    }
  }

  /**
   * On success: no two fields share an attribute name; the attribute definitions are the deduplicated key names,
   * typed after their fields; an attribute is defined exactly when some key
   * schema uses it; the global and local indexes are the declared ones in
   * first-seen order, no name of both kinds; every local index shares the
   * table's hash key and has its own range key.
   */
  lemma AssembleCorrect(fields: seq<KeyField>)
    requires Assemble(fields).Success?
    ensures var a := Assemble(fields).value;
      && NoDup(FieldNames(fields))
      && Names(a.attribs) == Dedup(KeyNames(fields))
      && TypesFollowFields(a.attribs, fields)
      && (forall x :: x in Names(a.attribs) <==> UsedInKeys(a.key, a.globals, a.locals, x))
      && a.key.hash == Holders(fields, PrimarySlot, Hash)[0]
      && |a.globals| == |IndexNames(fields, Global)|
      && (forall i :: 0 <= i < |a.globals| ==> a.globals[i].name == IndexNames(fields, Global)[i])
      && |a.locals| == |IndexNames(fields, Local)|
      && (forall i :: 0 <= i < |a.locals| ==> a.locals[i].name == IndexNames(fields, Local)[i])
      && (forall i, j :: 0 <= i < |a.globals| && 0 <= j < |a.locals| ==> a.globals[i].name != a.locals[j].name)
      && (forall d :: d in a.locals ==> d.key.hash == a.key.hash && d.key.range.Some?)
      && (forall i :: 0 <= i < |a.globals| ==>
            var n := IndexNames(fields, Global)[i];
            && |Holders(fields, IndexSlot(n, Global), Hash)| == 1
            && |Holders(fields, IndexSlot(n, Global), Range)| <= 1
            && a.globals[i].key == KeyPair(Holders(fields, IndexSlot(n, Global), Hash)[0],
                                           FirstOf(Holders(fields, IndexSlot(n, Global), Range))))
      && (forall i :: 0 <= i < |a.locals| ==>
            var n := IndexNames(fields, Local)[i];
            && |Holders(fields, IndexSlot(n, Local), Range)| == 1
            && a.locals[i].key == KeyPair(a.key.hash, Some(Holders(fields, IndexSlot(n, Local), Range)[0])))
  {
    var a := Assemble(fields).value;
    AssembleParts(fields);
    AttributesCorrect(fields);
    forall x
      ensures x in Names(a.attribs) <==> UsedInKeys(a.key, a.globals, a.locals, x)
    {
      if x in Names(a.attribs) {
        assert x in KeyNames(fields);
        var f :| f in fields && IsKey(f) && f.name == x;
        KeyFieldUsed(fields, a, f);
      }
      if UsedInKeys(a.key, a.globals, a.locals, x) {
        UsedIsKeyName(fields, a, x);
      }
    }
    LocalsShareTableHash(fields, a);
    GlobalAndLocalNamesDisjoint(fields, a);
    GlobalKeysFromMembers(fields, IndexNames(fields, Global), a.key.hash, a.globals);
    LocalKeysFromMembers(fields, IndexNames(fields, Local), a.key.hash, a.locals);
  }
}
