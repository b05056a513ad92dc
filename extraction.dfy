/**
  The model-extraction stage of the AutoRegister source generator: the record
  built for one field marked `[AutoRegistered]`, and the name of the property
  derived from the field's name.

  The compiler's symbol queries (containing namespace, containing type, the
  field's type in its fully qualified display form) are not modelled; their
  results are the string parameters of `Extract`.
*/
module Extraction {

  /** A lower-case ASCII letter. */
  predicate IsLower(c: char) {
    'a' <= c <= 'z'
  }

  /** An upper-case ASCII letter. */
  predicate IsUpper(c: char) {
    'A' <= c <= 'Z'
  }

  /**
    ASCII model of `char.ToUpperInvariant`: a lower-case letter becomes the
    corresponding upper-case letter, every other character is kept.
  */
  function ToUpperInvariant(c: char): (u: char)
    ensures IsLower(c) ==> IsUpper(u) && u as int - 'A' as int == c as int - 'a' as int
    ensures !IsLower(c) ==> u == c
    ensures !IsLower(u)
  {
    if IsLower(c) then (c as int - 'a' as int + 'A' as int) as char else c
  }

  /**
    The derived property name: the field name with its first character
    upper-cased and the rest (`Substring(1)`) kept as it is. The C# code
    indexes `[0]`, so the field name must not be empty.
  */
  function PropertyName(fieldName: string): (r: string)
    requires |fieldName| > 0
    ensures |r| == |fieldName|
    ensures r[0] == ToUpperInvariant(fieldName[0])
    ensures forall i :: 1 <= i < |r| ==> r[i] == fieldName[i]
  {
    [ToUpperInvariant(fieldName[0])] + fieldName[1..]
  }

  /** The record the generator builds for one annotated field. */
  datatype FieldModel = FieldModel(
    namespaceName: string,
    className: string,
    fieldName: string,
    fieldType: string,
    propertyName: string)

  /** What every record built by `Extract` satisfies. */
  predicate WellFormed(m: FieldModel) {
    |m.fieldName| > 0 && m.propertyName == PropertyName(m.fieldName)
  }

  /**
    The `transform` step: the four strings read from the field symbol are
    stored verbatim, and the property name is derived from the field name.
  */
  function Extract(namespaceName: string, className: string, fieldName: string, fieldType: string): (m: FieldModel)
    requires |fieldName| > 0
    ensures WellFormed(m)
    ensures m.namespaceName == namespaceName && m.className == className
    ensures m.fieldName == fieldName && m.fieldType == fieldType
  {
    FieldModel(namespaceName, className, fieldName, fieldType, PropertyName(fieldName))
  }

  /**
    The property name equals the field name exactly when the field name does
    not start with a lower-case letter (`Already`, `_x`): the generator then
    emits a property with the same name as the field.
  */
  lemma PropertyNameFixedPoint(fieldName: string)
    requires |fieldName| > 0
    ensures PropertyName(fieldName) == fieldName <==> !IsLower(fieldName[0])
  {
    var r := PropertyName(fieldName);
    if !IsLower(fieldName[0]) {
      assert forall i :: 0 <= i < |r| ==> r[i] == fieldName[i];
    } else {
      assert r[0] != fieldName[0];
    }
  }

  /** Deriving the property name twice gives the same name as deriving it once. */
  lemma PropertyNameIdempotent(fieldName: string)
    requires |fieldName| > 0
    ensures PropertyName(PropertyName(fieldName)) == PropertyName(fieldName)
  {
    var r := PropertyName(fieldName);
    PropertyNameFixedPoint(r);
  }

  /** Two field names give the same property name only if they agree after the first character. */
  lemma PropertyNameDeterminesTail(a: string, b: string)
    requires |a| > 0 && |b| > 0
    requires PropertyName(a) == PropertyName(b)
    ensures |a| == |b| && a[1..] == b[1..]
    ensures ToUpperInvariant(a[0]) == ToUpperInvariant(b[0])
  {
    assert PropertyName(a)[1..] == a[1..];
    assert PropertyName(b)[1..] == b[1..];
  }

  /** The field of the test fixture: `linear` gets the property `Linear`. */
  lemma PropertyNameExamples()
    ensures PropertyName("linear") == "Linear"
    ensures PropertyName("widget") == "Widget"
    ensures PropertyName("x1") == "X1"
    ensures PropertyName("Already") == "Already"
  {
    PropertyNameFixedPoint("Already");
  }
}
