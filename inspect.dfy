/**
 * The type inspector: walks a struct declaration and yields its fields in
 * declaration order, with the fields of an anonymous embedded struct
 * spliced in where the struct is embedded and ignored fields dropped.
 */
module Inspect {
  import opened Wrappers
  import opened Schema

  /** The attribute name of a field: its tag name, or its Go name when the tag gives none. */
  function AttributeName(goName: string, tagName: string): string {
    if tagName == "" then goName else tagName
  }

  /** The fields of a declaration, embedded structs flattened depth-first. */
  function Flatten(decls: seq<FieldDecl>): seq<KeyField>
    decreases decls
  {
    if decls == [] then [] else FlattenOne(decls[0]) + Flatten(decls[1..])
  }

  function FlattenOne(d: FieldDecl): seq<KeyField>
    decreases d
  {
    match d
    case Field(goName, tagName, t, p, ms) =>
      if tagName == "-" then [] else [KeyField(AttributeName(goName, tagName), t, p, ms)]
    case Embedded(ignored, inner) => if ignored then [] else Flatten(inner)
  }

  /** A declaration with no embedded struct and no ignored field. */
  predicate Plain(decls: seq<FieldDecl>) {
    forall i :: 0 <= i < |decls| ==> decls[i].Field? && decls[i].tagName != "-"
  }

  lemma {:induction false} FlattenAppend(a: seq<FieldDecl>, b: seq<FieldDecl>)
    ensures Flatten(a + b) == Flatten(a) + Flatten(b)
    decreases |a|
  {
    if a != [] {
      assert (a + b)[0] == a[0];
      assert (a + b)[1..] == a[1..] + b;
      FlattenAppend(a[1..], b);
    } else {
      assert a + b == b;
    }
  }

  /**
   * Embedding promotes fields: a struct that embeds `inner` between `before`
   * and `after` flattens exactly as if inner's fields were declared there.
   */
  lemma EmbeddedFieldsPromoted(before: seq<FieldDecl>, inner: seq<FieldDecl>, after: seq<FieldDecl>)
    ensures Flatten(before + [Embedded(false, inner)] + after) == Flatten(before) + Flatten(inner) + Flatten(after)
    ensures Flatten(before + [Embedded(false, inner)] + after) == Flatten(before + inner + after)
  {
    FlattenAppend(before + [Embedded(false, inner)], after);
    FlattenAppend(before, [Embedded(false, inner)]);
    assert Flatten([Embedded(false, inner)]) == Flatten(inner) by {
      assert [Embedded(false, inner)][1..] == [];
    }
    FlattenAppend(before + inner, after);
    FlattenAppend(before, inner);
  }

  /** An ignored field contributes nothing. */
  lemma IgnoredFieldDropped(before: seq<FieldDecl>, goName: string, t: NativeType,
                            p: Option<KeyRole>, ms: seq<Membership>, after: seq<FieldDecl>)
    ensures Flatten(before + [Field(goName, "-", t, p, ms)] + after) == Flatten(before + after)
  {
    var d := Field(goName, "-", t, p, ms);
    FlattenAppend(before + [d], after);
    FlattenAppend(before, [d]);
    assert Flatten([d]) == [] by { assert [d][1..] == []; }
    FlattenAppend(before, after);
  }

  /** An embedded struct tagged `-` contributes none of its fields. */
  lemma IgnoredEmbeddedDropped(before: seq<FieldDecl>, inner: seq<FieldDecl>, after: seq<FieldDecl>)
    ensures Flatten(before + [Embedded(true, inner)] + after) == Flatten(before + after)
  {
    var d := Embedded(true, inner);
    FlattenAppend(before + [d], after);
    FlattenAppend(before, [d]);
    assert Flatten([d]) == [] by { assert [d][1..] == []; }
    FlattenAppend(before, after);
  }

  /**
   * A plain declaration flattens field by field: same order, each field named
   * by its tag name or, when that is empty, by its Go name.
   */
  lemma {:induction false} FlattenPlain(decls: seq<FieldDecl>)
    requires Plain(decls)
    ensures |Flatten(decls)| == |decls|
    ensures forall i :: 0 <= i < |decls| ==>
              Flatten(decls)[i] == KeyField(AttributeName(decls[i].goName, decls[i].tagName),
                                            decls[i].goType, decls[i].primary, decls[i].memberships)
    decreases |decls|
  {
    if decls != [] {
      FlattenPlain(decls[1..]);
    }
  }
}
