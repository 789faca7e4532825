/**
 * The UserAction table: the struct of createtable_test.go, the builder
 * chain run on it, and the exact request it must yield.
 */
module Fixture {
  import opened Wrappers
  import opened Schema
  import opened FirstSeen
  import opened Inspect
  import opened Assembler
  import opened Builder
  import opened Properties
  import opened Table

  /** embeddedWithKeys: one string field, hash key of Embedded-index. */
  function EmbeddedWithKeys(): seq<FieldDecl> {
    [Field("Embedded", "", GoString, None, [Membership("Embedded-index", Global, Hash)])]
  }

  /** UserAction, with embeddedWithKeys embedded last. */
  function UserAction(): seq<FieldDecl> {
    [ Field("UserID", "ID", GoString, Some(Hash), [Membership("Seq-ID-index", Global, Range)]),
      Field("Time", "", GoTime, Some(Range), []),
      Field("Seq", "", GoInteger, None,
            [Membership("ID-Seq-index", Local, Range), Membership("Seq-ID-index", Global, Hash)]),
      Field("UUID", "", GoString, None, [Membership("UUID-index", Global, Hash)]),
      Embedded(false, EmbeddedWithKeys()) ]
  }

  /** The chain of the test after CreateTable("UserActions", UserAction{}). */
  function TestCalls(): seq<Override> {
    [ ProjectCall("Seq-ID-index", IncludeProjection, ["UUID"]),
      ProvisionCall(4, 2),
      ProvisionIndexCall("Seq-ID-index", 1, 2) ]
  }

  /** The request the test expects. */
  function Expected(): CreateTableInput {
    CreateTableInput(
      [ AttributeDefinition("ID", "S"),
        AttributeDefinition("Time", "S"),
        AttributeDefinition("Seq", "N"),
        AttributeDefinition("UUID", "S"),
        AttributeDefinition("Embedded", "S") ],
      [ GlobalSecondaryIndex("Seq-ID-index",
          [KeySchemaElement("Seq", "HASH"), KeySchemaElement("ID", "RANGE")],
          Projection("INCLUDE", ["UUID"]),
          ProvisionedThroughput(1, 2)),
        GlobalSecondaryIndex("UUID-index",
          [KeySchemaElement("UUID", "HASH")],
          Projection("ALL", []),
          ProvisionedThroughput(1, 1)),
        GlobalSecondaryIndex("Embedded-index",
          [KeySchemaElement("Embedded", "HASH")],
          Projection("ALL", []),
          ProvisionedThroughput(1, 1)) ],
      [KeySchemaElement("ID", "HASH"), KeySchemaElement("Time", "RANGE")],
      [ LocalSecondaryIndex("ID-Seq-index",
          [KeySchemaElement("ID", "HASH"), KeySchemaElement("Seq", "RANGE")],
          Projection("ALL", [])) ],
      ProvisionedThroughput(4, 2),
      "UserActions")
  }

  /** What CreateTable derives from UserAction before any override. */
  function Compiled(): BuilderState {
    BuilderState(
      "UserActions",
      Expected().attributeDefinitions,
      KeyPair("ID", Some("Time")),
      [ IndexState("Seq-ID-index", KeyPair("Seq", Some("ID")), None, None),
        IndexState("UUID-index", KeyPair("UUID", None), None, None),
        IndexState("Embedded-index", KeyPair("Embedded", None), None, None) ],
      [ IndexState("ID-Seq-index", KeyPair("ID", Some("Seq")), None, None) ],
      DefaultThroughput,
      None)
  }

  // ---- UserAction, field by field ----

  const FieldID := KeyField("ID", GoString, Some(Hash), [Membership("Seq-ID-index", Global, Range)])
  const FieldTime := KeyField("Time", GoTime, Some(Range), [])
  const FieldSeq := KeyField("Seq", GoInteger, None,
                             [Membership("ID-Seq-index", Local, Range), Membership("Seq-ID-index", Global, Hash)])
  const FieldUUID := KeyField("UUID", GoString, None, [Membership("UUID-index", Global, Hash)])
  const FieldEmbedded := KeyField("Embedded", GoString, None, [Membership("Embedded-index", Global, Hash)])

  function UserFields(): seq<KeyField> {
    [FieldID, FieldTime, FieldSeq, FieldUUID, FieldEmbedded]
  }

  /** The embedded struct's field is promoted after UUID; Time keeps its Go name. */
  lemma UserActionFlattens()
    ensures Flatten(UserAction()) == UserFields()
  {
    EmbeddedFieldsPromoted(UserAction()[..4], EmbeddedWithKeys(), []);
    assert UserAction() == UserAction()[..4] + [Embedded(false, EmbeddedWithKeys())] + [];
    var d := UserAction()[..4];
    assert Flatten(d[3..]) == [FieldUUID];
    assert Flatten(d[2..]) == [FieldSeq, FieldUUID];
    assert Flatten(d[1..]) == [FieldTime, FieldSeq, FieldUUID];
    assert Flatten(d) == [FieldID, FieldTime, FieldSeq, FieldUUID];
    assert Flatten(EmbeddedWithKeys()) == [FieldEmbedded];
  }

  // ---- five fields, each added in turn ----

  lemma Snoc5<T>(a: T, b: T, c: T, d: T, e: T)
    ensures [] + [a] == [a] && [a] + [b] == [a, b] && [a, b] + [c] == [a, b, c]
    ensures [a, b, c] + [d] == [a, b, c, d] && [a, b, c, d] + [e] == [a, b, c, d, e]
  {
  }

  lemma AddNewAttribute(prev: seq<AttributeDefinition>, p: seq<KeyField>, f: KeyField, kind: AttrKind)
    requires Attributes(p) == Success(prev)
    requires IsKey(f) && KindOf(f.goType) == Some(kind) && f.name !in Names(prev)
    ensures Attributes(p + [f]) == Success(prev + [AttributeDefinition(f.name, KindCode(kind))])
  {
    AttributesSnoc(p, f);
  }

  function Def(f: KeyField, kind: AttrKind): AttributeDefinition {
    AttributeDefinition(f.name, KindCode(kind))
  }

  /** Five key fields with distinct names define five attributes, in field order. */
  lemma AttributesOfFive(f1: KeyField, f2: KeyField, f3: KeyField, f4: KeyField, f5: KeyField,
                         k1: AttrKind, k2: AttrKind, k3: AttrKind, k4: AttrKind, k5: AttrKind)
    requires IsKey(f1) && IsKey(f2) && IsKey(f3) && IsKey(f4) && IsKey(f5)
    requires KindOf(f1.goType) == Some(k1) && KindOf(f2.goType) == Some(k2) && KindOf(f3.goType) == Some(k3)
    requires KindOf(f4.goType) == Some(k4) && KindOf(f5.goType) == Some(k5)
    requires f2.name != f1.name
    requires f3.name != f1.name && f3.name != f2.name
    requires f4.name != f1.name && f4.name != f2.name && f4.name != f3.name
    requires f5.name != f1.name && f5.name != f2.name && f5.name != f3.name && f5.name != f4.name
    ensures Attributes([f1, f2, f3, f4, f5]) ==
      Success([Def(f1, k1), Def(f2, k2), Def(f3, k3), Def(f4, k4), Def(f5, k5)])
  {
    var d1, d2, d3, d4, d5 := Def(f1, k1), Def(f2, k2), Def(f3, k3), Def(f4, k4), Def(f5, k5);
    Snoc5(f1, f2, f3, f4, f5);
    Snoc5(d1, d2, d3, d4, d5);
    assert Attributes([]) == Success([]);
    AddNewAttribute([], [], f1, k1);
    assert Names([d1]) == [f1.name];
    AddNewAttribute([d1], [f1], f2, k2);
    assert Names([d1, d2]) == [f1.name, f2.name];
    AddNewAttribute([d1, d2], [f1, f2], f3, k3);
    assert Names([d1, d2, d3]) == [f1.name, f2.name, f3.name];
    AddNewAttribute([d1, d2, d3], [f1, f2, f3], f4, k4);
    assert Names([d1, d2, d3, d4]) == [f1.name, f2.name, f3.name, f4.name];
    AddNewAttribute([d1, d2, d3, d4], [f1, f2, f3, f4], f5, k5);
  }

  function HeldName(f: KeyField, slot: Slot, role: KeyRole): seq<string> {
    if Holds(f, slot, role) then [f.name] else []
  }

  lemma HoldersOfFive(f1: KeyField, f2: KeyField, f3: KeyField, f4: KeyField, f5: KeyField, slot: Slot, role: KeyRole)
    ensures Holders([f1, f2, f3, f4, f5], slot, role) ==
      HeldName(f1, slot, role) + HeldName(f2, slot, role) + HeldName(f3, slot, role)
      + HeldName(f4, slot, role) + HeldName(f5, slot, role)
  {
    Snoc5(f1, f2, f3, f4, f5);
    HoldersSnoc([], f1, slot, role);
    HoldersSnoc([f1], f2, slot, role);
    HoldersSnoc([f1, f2], f3, slot, role);
    HoldersSnoc([f1, f2, f3], f4, slot, role);
    HoldersSnoc([f1, f2, f3, f4], f5, slot, role);
  }

  lemma DeclaredOfTwo(f1: KeyField, f2: KeyField, kind: IndexKind)
    ensures DeclaredIndexes([f1, f2], kind) == IndexNamesIn(f1.memberships, kind) + IndexNamesIn(f2.memberships, kind)
  {
    assert [] + [f1] == [f1] && [f1] + [f2] == [f1, f2];
    DeclaredIndexesSnoc([], f1, kind);
    DeclaredIndexesSnoc([f1], f2, kind);
  }

  lemma DeclaredOfThree(f1: KeyField, f2: KeyField, f3: KeyField, kind: IndexKind)
    ensures DeclaredIndexes([f1, f2, f3], kind) ==
      IndexNamesIn(f1.memberships, kind) + IndexNamesIn(f2.memberships, kind) + IndexNamesIn(f3.memberships, kind)
  {
    assert [f1, f2] + [f3] == [f1, f2, f3];
    DeclaredOfTwo(f1, f2, kind);
    DeclaredIndexesSnoc([f1, f2], f3, kind);
  }

  lemma DeclaredOfFive(f1: KeyField, f2: KeyField, f3: KeyField, f4: KeyField, f5: KeyField, kind: IndexKind)
    ensures DeclaredIndexes([f1, f2, f3, f4, f5], kind) ==
      IndexNamesIn(f1.memberships, kind) + IndexNamesIn(f2.memberships, kind) + IndexNamesIn(f3.memberships, kind)
      + IndexNamesIn(f4.memberships, kind) + IndexNamesIn(f5.memberships, kind)
  {
    assert [f1, f2, f3] + [f4] == [f1, f2, f3, f4] && [f1, f2, f3, f4] + [f5] == [f1, f2, f3, f4, f5];
    DeclaredOfThree(f1, f2, f3, kind);
    DeclaredIndexesSnoc([f1, f2, f3], f4, kind);
    DeclaredIndexesSnoc([f1, f2, f3, f4], f5, kind);
  }

  // ---- UserAction's derived schema ----

  lemma UserAttributes()
    ensures Attributes(UserFields()) == Success(Expected().attributeDefinitions)
  {
    AttributesOfFive(FieldID, FieldTime, FieldSeq, FieldUUID, FieldEmbedded,
                     StringKind, StringKind, NumberKind, StringKind, StringKind);
  }

  lemma UserHolders(slot: Slot, role: KeyRole)
    ensures Holders(UserFields(), slot, role) ==
      HeldName(FieldID, slot, role) + HeldName(FieldTime, slot, role) + HeldName(FieldSeq, slot, role)
      + HeldName(FieldUUID, slot, role) + HeldName(FieldEmbedded, slot, role)
  {
    HoldersOfFive(FieldID, FieldTime, FieldSeq, FieldUUID, FieldEmbedded, slot, role);
  }

  lemma OneMembership(m: Membership, kind: IndexKind)
    ensures IndexNamesIn([m], kind) == if m.kind == kind then [m.index] else []
  {
    assert [m][..0] == [];
  }

  lemma UserDeclared(kind: IndexKind)
    ensures DeclaredIndexes(UserFields(), kind) ==
      IndexNamesIn(FieldID.memberships, kind) + IndexNamesIn(FieldTime.memberships, kind)
      + IndexNamesIn(FieldSeq.memberships, kind) + IndexNamesIn(FieldUUID.memberships, kind)
      + IndexNamesIn(FieldEmbedded.memberships, kind)
  {
    DeclaredOfFive(FieldID, FieldTime, FieldSeq, FieldUUID, FieldEmbedded, kind);
  }

  lemma UserMemberships(kind: IndexKind)
    ensures IndexNamesIn(FieldID.memberships, kind) == if kind == Global then ["Seq-ID-index"] else []
    ensures IndexNamesIn(FieldTime.memberships, kind) == []
    ensures IndexNamesIn(FieldSeq.memberships, kind) == if kind == Global then ["Seq-ID-index"] else ["ID-Seq-index"]
    ensures IndexNamesIn(FieldUUID.memberships, kind) == if kind == Global then ["UUID-index"] else []
    ensures IndexNamesIn(FieldEmbedded.memberships, kind) == if kind == Global then ["Embedded-index"] else []
  {
    OneMembership(FieldID.memberships[0], kind);
    OneMembership(FieldUUID.memberships[0], kind);
    OneMembership(FieldEmbedded.memberships[0], kind);
    var ms := FieldSeq.memberships;
    OneMembership(ms[0], kind);
    assert ms[..1] == [ms[0]];
  }

  lemma UserDeclaredGlobal()
    ensures DeclaredIndexes(UserFields(), Global) == ["Seq-ID-index"] + ["Seq-ID-index"] + ["UUID-index"] + ["Embedded-index"]
  {
    UserDeclared(Global);
    UserMemberships(Global);
  }

  lemma UserDeclaredLocal()
    ensures DeclaredIndexes(UserFields(), Local) == ["ID-Seq-index"]
  {
    UserDeclared(Local);
    UserMemberships(Local);
  }

  /** A name declared first by two fields in a row is kept once, in its first place. */
  lemma DedupRepeatFirst<T>(a: T, b: T, c: T)
    requires a != b && a != c && b != c
    ensures Dedup([a] + [a] + [b] + [c]) == [a, b, c]
  {
    DedupSnoc([a], a);
    DedupSnoc([a] + [a], b);
    DedupSnoc([a] + [a] + [b], c);
  }

  lemma UserIndexNames()
    ensures IndexNames(UserFields(), Global) == ["Seq-ID-index", "UUID-index", "Embedded-index"]
    ensures IndexNames(UserFields(), Local) == ["ID-Seq-index"]
  {
    UserDeclaredGlobal();
    UserDeclaredLocal();
    DedupRepeatFirst("Seq-ID-index", "UUID-index", "Embedded-index");
    DedupSnoc([], "ID-Seq-index");
    assert [] + ["ID-Seq-index"] == ["ID-Seq-index"];
  }

  lemma BuildOne(fields: seq<KeyField>, a: string, kind: IndexKind, tableHash: string, ka: KeyPair)
    requires IndexKeyOf(fields, a, kind, tableHash) == Success(ka)
    ensures BuildIndexes(fields, [a], kind, tableHash) == Success([IndexDef(a, ka)])
  {
    assert [a][1..] == [];
    assert BuildIndexes(fields, [], kind, tableHash) == Success([]);
    assert [IndexDef(a, ka)] + [] == [IndexDef(a, ka)];
  }

  lemma BuildThree(fields: seq<KeyField>, a: string, b: string, c: string, kind: IndexKind, tableHash: string,
                   ka: KeyPair, kb: KeyPair, kc: KeyPair)
    requires IndexKeyOf(fields, a, kind, tableHash) == Success(ka)
    requires IndexKeyOf(fields, b, kind, tableHash) == Success(kb)
    requires IndexKeyOf(fields, c, kind, tableHash) == Success(kc)
    ensures BuildIndexes(fields, [a, b, c], kind, tableHash) ==
      Success([IndexDef(a, ka), IndexDef(b, kb), IndexDef(c, kc)])
  {
    BuildOne(fields, c, kind, tableHash, kc);
    assert [b, c][1..] == [c];
    assert [IndexDef(b, kb)] + [IndexDef(c, kc)] == [IndexDef(b, kb), IndexDef(c, kc)];
    assert BuildIndexes(fields, [b, c], kind, tableHash) == Success([IndexDef(b, kb), IndexDef(c, kc)]);
    assert [a, b, c][1..] == [b, c];
    assert [IndexDef(a, ka)] + [IndexDef(b, kb), IndexDef(c, kc)] == [IndexDef(a, ka), IndexDef(b, kb), IndexDef(c, kc)];
  }

  lemma SeqIDKey()
    ensures IndexKeyOf(UserFields(), "Seq-ID-index", Global, "ID") == Success(KeyPair("Seq", Some("ID")))
  {
    UserHolders(IndexSlot("Seq-ID-index", Global), Hash);
    UserHolders(IndexSlot("Seq-ID-index", Global), Range);
  }

  lemma UUIDKey()
    ensures IndexKeyOf(UserFields(), "UUID-index", Global, "ID") == Success(KeyPair("UUID", None))
  {
    UserHolders(IndexSlot("UUID-index", Global), Hash);
    UserHolders(IndexSlot("UUID-index", Global), Range);
  }

  lemma EmbeddedKey()
    ensures IndexKeyOf(UserFields(), "Embedded-index", Global, "ID") == Success(KeyPair("Embedded", None))
  {
    UserHolders(IndexSlot("Embedded-index", Global), Hash);
    UserHolders(IndexSlot("Embedded-index", Global), Range);
  }

  lemma IDSeqKey()
    ensures IndexKeyOf(UserFields(), "ID-Seq-index", Local, "ID") == Success(KeyPair("ID", Some("Seq")))
  {
    UserHolders(IndexSlot("ID-Seq-index", Local), Hash);
    UserHolders(IndexSlot("ID-Seq-index", Local), Range);
  }

  lemma UserIndexes()
    ensures BuildIndexes(UserFields(), ["Seq-ID-index", "UUID-index", "Embedded-index"], Global, "ID") ==
      Success([ IndexDef("Seq-ID-index", KeyPair("Seq", Some("ID"))),
                IndexDef("UUID-index", KeyPair("UUID", None)),
                IndexDef("Embedded-index", KeyPair("Embedded", None)) ])
    ensures BuildIndexes(UserFields(), ["ID-Seq-index"], Local, "ID") ==
      Success([IndexDef("ID-Seq-index", KeyPair("ID", Some("Seq")))])
  {
    SeqIDKey();
    UUIDKey();
    EmbeddedKey();
    IDSeqKey();
    BuildThree(UserFields(), "Seq-ID-index", "UUID-index", "Embedded-index", Global, "ID",
               KeyPair("Seq", Some("ID")), KeyPair("UUID", None), KeyPair("Embedded", None));
    BuildOne(UserFields(), "ID-Seq-index", Local, "ID", KeyPair("ID", Some("Seq")));
  }

  lemma UserPrimaryKey()
    ensures Holders(UserFields(), PrimarySlot, Hash) == ["ID"]
    ensures Holders(UserFields(), PrimarySlot, Range) == ["Time"]
  {
    UserHolders(PrimarySlot, Hash);
    UserHolders(PrimarySlot, Range);
  }

  function UserAssembled(): Assembled {
    Assembled(Expected().attributeDefinitions, KeyPair("ID", Some("Time")),
      [ IndexDef("Seq-ID-index", KeyPair("Seq", Some("ID"))),
        IndexDef("UUID-index", KeyPair("UUID", None)),
        IndexDef("Embedded-index", KeyPair("Embedded", None)) ],
      [IndexDef("ID-Seq-index", KeyPair("ID", Some("Seq")))])
  }

  lemma NoSharedName(a: string, b: string, c: string, d: string)
    requires d != a && d != b && d != c
    ensures FirstShared([a, b, c], [d]).None?
  {
  }

  lemma AssembleOf(fields: seq<KeyField>, a: Assembled, gn: seq<string>, ln: seq<string>)
    requires FirstRepeated(FieldNames(fields)) == None
    requires Attributes(fields) == Success(a.attribs)
    requires KeyPairOf(TableKey, Holders(fields, PrimarySlot, Hash), Holders(fields, PrimarySlot, Range)) == Success(a.key)
    requires IndexNames(fields, Global) == gn && IndexNames(fields, Local) == ln
    requires FirstShared(gn, ln).None?
    requires BuildIndexes(fields, gn, Global, a.key.hash) == Success(a.globals)
    requires BuildIndexes(fields, ln, Local, a.key.hash) == Success(a.locals)
    ensures Assemble(fields) == Success(a)
  {
  }

  lemma DistinctFive<T>(a: T, b: T, c: T, d: T, e: T)
    requires a != b && a != c && a != d && a != e
    requires b != c && b != d && b != e
    requires c != d && c != e && d != e
    ensures NoDup([a, b, c, d, e])
  {
  }

  /** No two fields of UserAction carry the same attribute name, so none is ambiguous. */
  lemma UserNamesDistinct()
    ensures FieldNames(UserFields()) == ["ID", "Time", "Seq", "UUID", "Embedded"]
    ensures FirstRepeated(FieldNames(UserFields())) == None
  {
    DistinctFive("ID", "Time", "Seq", "UUID", "Embedded");
  }

  lemma UserTableKey()
    ensures KeyPairOf(TableKey, Holders(UserFields(), PrimarySlot, Hash), Holders(UserFields(), PrimarySlot, Range))
      == Success(KeyPair("ID", Some("Time")))
  {
    UserPrimaryKey();
  }

  lemma UserAssembles()
    ensures Assemble(UserFields()) == Success(UserAssembled())
  {
    UserNamesDistinct();
    UserAttributes();
    UserTableKey();
    UserIndexNames();
    UserIndexes();
    NoSharedName("Seq-ID-index", "UUID-index", "Embedded-index", "ID-Seq-index");
    AssembleOf(UserFields(), UserAssembled(), ["Seq-ID-index", "UUID-index", "Embedded-index"], ["ID-Seq-index"]);
  }

  lemma UserUnset()
    ensures Unset(UserAssembled().globals) == Compiled().globals
    ensures Unset(UserAssembled().locals) == Compiled().locals
  {
    var g, u := UserAssembled().globals, Unset(UserAssembled().globals);
    assert u == [u[0], u[1], u[2]];
    var l, v := UserAssembled().locals, Unset(UserAssembled().locals);
    assert v == [v[0]];
  }

  lemma UserActionCompiles()
    ensures NewState("UserActions", UserAction()) == Compiled()
  {
    UserActionFlattens();
    UserAssembles();
    UserUnset();
  }

  lemma ApplyThree(s: BuilderState, a: Override, b: Override, c: Override)
    ensures Apply(s, [a, b, c]) == Step(Step(Step(s, a), b), c)
  {
    var s1 := Step(s, a);
    var s2 := Step(s1, b);
    var s3 := Step(s2, c);
    assert Apply(s3, []) == s3;
    assert [c][1..] == [];
    assert Apply(s2, [c]) == s3;
    assert [b, c][1..] == [c];
    assert Apply(s1, [b, c]) == s3;
    assert [a, b, c][1..] == [b, c];
  }

  /** The builder after the three overrides of the test. */
  function Overridden(): BuilderState {
    var c := Compiled();
    c.(globals := [ c.globals[0].(projection := Some(Projection("INCLUDE", ["UUID"])),
                                  throughput := Some(ProvisionedThroughput(1, 2))),
                    c.globals[1], c.globals[2] ],
       throughput := ProvisionedThroughput(4, 2))
  }

  lemma TestCallsApplied()
    ensures Apply(Compiled(), TestCalls()) == Overridden()
  {
    var calls := TestCalls();
    ApplyThree(Compiled(), calls[0], calls[1], calls[2]);
    var s1 := Step(Compiled(), calls[0]);
    assert IndexPosition(Compiled().globals, "Seq-ID-index") == Some(0);
    assert IndexPosition(s1.globals, "Seq-ID-index") == Some(0);
  }

  lemma OverriddenInput()
    ensures InputOf(Overridden()) == Success(Expected())
  {
    var e := Expected();
    var gs := Overridden().globals;
    var out := GlobalsOut(gs);
    assert GlobalOut(gs[0]) == e.globalSecondaryIndexes[0];
    assert GlobalOut(gs[1]) == e.globalSecondaryIndexes[1];
    assert GlobalOut(gs[2]) == e.globalSecondaryIndexes[2];
    assert out == e.globalSecondaryIndexes;
    var ls := Overridden().locals;
    assert LocalOut(ls[0]) == e.localSecondaryIndexes[0];
    assert LocalsOut(ls) == e.localSecondaryIndexes;
    assert KeySchemaOf("ID", Some("Time")) == e.keySchema;
  }

  /** The test's chain yields exactly the request the test expects. */
  lemma UserActionsInput()
    ensures InputOf(Apply(NewState("UserActions", UserAction()), TestCalls())) == Success(Expected())
  {
    UserActionCompiles();
    TestCallsApplied();
    OverriddenInput();
  }

  /** The three calls of the test, one after the other, are the chain TestCalls. */
  lemma TestChain(s0: BuilderState, s1: BuilderState, s2: BuilderState, s3: BuilderState)
    requires s1 == ProjectState(s0, "Seq-ID-index", IncludeProjection, ["UUID"])
    requires s2 == ProvisionState(s1, 4, 2)
    requires s3 == ProvisionIndexState(s2, "Seq-ID-index", 1, 2)
    ensures s3 == Apply(s0, TestCalls())
  {
    ApplyThree(s0, ProjectCall("Seq-ID-index", IncludeProjection, ["UUID"]), ProvisionCall(4, 2),
               ProvisionIndexCall("Seq-ID-index", 1, 2));
  }

  /** TestCreateTable, run on the builder object. */
  method TestCreateTable() returns (input: Result<CreateTableInput, BuildError>)
    ensures input == Success(Expected())
  {
    var ct := new CreateTable("UserActions", UserAction());
    ghost var s0 := ct.State();
    ct.Project("Seq-ID-index", IncludeProjection, ["UUID"]);
    ghost var s1 := ct.State();
    ct.Provision(4, 2);
    ghost var s2 := ct.State();
    ct.ProvisionIndex("Seq-ID-index", 1, 2);
    input := ct.Input();
    TestChain(s0, s1, s2, ct.State());
    UserActionsInput();
  }
}
