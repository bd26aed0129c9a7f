/**
 * The ALN document model (crates/morpheus-googolswarm/morpheus-spec-aln/src/aln.rs):
 * a document is an ordered list of key/value properties, and `get_values`
 * collects the values stored under one key.
 */
module Aln {
  datatype AlnKey =
    | Section
    | Role
    | Rights
    | Capabilities
    | Species
    | ReversalPolicy
    | Custom(name: string)

  datatype AlnProperty = AlnProperty(key: AlnKey, value: string)

  datatype AlnDocument = AlnDocument(properties: seq<AlnProperty>)

  /** The document with no properties (`AlnDocument::default`). */
  const EmptyDocument: AlnDocument := AlnDocument([])

  /** The values of the properties stored under `key`, in order. */
  function ValuesOf(properties: seq<AlnProperty>, key: AlnKey): (r: seq<string>)
    ensures |r| <= |properties|
    ensures forall v :: v in r <==> exists i :: 0 <= i < |properties| && properties[i] == AlnProperty(key, v)
    decreases |properties|
  {
    if |properties| == 0 then []
    else
      var rest := ValuesOf(properties[1..], key);
      assert forall i :: 0 < i < |properties| ==> properties[i] == properties[1..][i - 1];
      if properties[0].key == key then [properties[0].value] + rest else rest
  }

  /** `AlnDocument::get_values`. */
  function GetValues(doc: AlnDocument, key: AlnKey): (r: seq<string>)
    ensures |r| <= |doc.properties|
    ensures forall v :: v in r <==> AlnProperty(key, v) in doc.properties
  {
    ValuesOf(doc.properties, key)
  }

  /**
   * Order is preserved: the values of a concatenation are the values of the
   * first part followed by those of the second. Together with the
   * one-property case this fixes `ValuesOf` completely.
   */
  lemma {:induction false} ValuesOfAppend(a: seq<AlnProperty>, b: seq<AlnProperty>, key: AlnKey)
    ensures ValuesOf(a + b, key) == ValuesOf(a, key) + ValuesOf(b, key)
    decreases |a|
  {
    if |a| == 0 {
      assert a + b == b;
    } else {
      assert (a + b)[1..] == a[1..] + b;
      ValuesOfAppend(a[1..], b, key);
    }
  }

  lemma ValuesOfSingle(p: AlnProperty, key: AlnKey)
    ensures ValuesOf([p], key) == if p.key == key then [p.value] else []
  {
  }

  /** Custom keys are told apart by their text alone. */
  lemma CustomKeysCompareByName(a: string, b: string, p: AlnProperty)
    requires p.key == Custom(a)
    ensures ValuesOf([p], Custom(b)) == if a == b then [p.value] else []
  {
  }
}
