/**
  `Initialize` of the generator: the constant declaration of the marker
  attribute, added once for every compilation, and one generated source per
  field that carries the attribute.
*/
module Generator {
  import Extraction
  import opened Template
  import Synthesis

  /** The metadata name the pipeline looks for (`ForAttributeWithMetadataName`). */
  const AttributeMetadataName: string := "TorchSharp.AutoRegister.AutoRegisteredAttribute"

  const AttributeNamespace: string := "TorchSharp.AutoRegister"

  const AttributeClassName: string := "AutoRegisteredAttribute"

  /** The hint name of the attribute's source. */
  const AttributeHintName: string := "AutoRegisteredAttribute.g.cs"

  /**
    The raw string literal of the attribute's declaration (its namespace and
    class name spelled through the constants above); the four spaces inside
    the namespace are one level of the writer's tab string.
  */
  const AttributeSource: seq<Line> := [
    Line(0, "using System;"),
    Line(0, "namespace " + AttributeNamespace),
    Line(0, "{"),
    Line(1, "[AttributeUsage(AttributeTargets.Field)]"),
    Line(1, "public sealed partial class " + AttributeClassName + " : Attribute"),
    Line(1, "{"),
    Line(1, "}"),
    Line(0, "}")
  ]

  /** A source added to the compilation. */
  datatype Source = Source(hintName: string, lines: seq<Line>)

  /** What the compiler's symbol queries give for one annotated field. */
  datatype FieldSymbol = FieldSymbol(
    containingNamespace: string,
    containingType: string,
    name: string,
    typeName: string)

  /** A field's declaration has a name (the compiler's syntax ensures that). */
  predicate Named(s: FieldSymbol) {
    |s.name| > 0
  }

  /** The hint name `{ClassName}_{FieldName}.g.cs` of a field's source. */
  function FieldHint(s: FieldSymbol): (h: string)
    requires Named(s)
    ensures h == s.containingType + "_" + s.name + ".g.cs"
  {
    Synthesis.HintName(Extraction.Extract(s.containingNamespace, s.containingType, s.name, s.typeName))
  }

  /**
    The `transform` and `RegisterSourceOutput` steps for one field: the
    record extracted from the field's symbol, rendered, under the field's
    hint name; the source declares `partial class <ClassName>` directly in
    the namespace (a nested or generic class is not re-opened).
  */
  function FieldSource(s: FieldSymbol): (src: Source)
    requires Named(s)
    ensures src.hintName == FieldHint(s)
    ensures src.lines == Rendered(Extraction.Extract(s.containingNamespace, s.containingType, s.name, s.typeName))
    ensures |src.lines| == 15 && src.lines[1].text == "partial class " + s.containingType
  {
    var m := Extraction.Extract(s.containingNamespace, s.containingType, s.name, s.typeName);
    Source(Synthesis.HintName(m), Rendered(m))
  }

  /**
    Every source of one compilation: first the attribute's declaration, then
    one source per annotated field, in the order the fields were found.
  */
  function Generate(symbols: seq<FieldSymbol>): (outs: seq<Source>)
    requires forall i :: 0 <= i < |symbols| ==> Named(symbols[i])
    ensures |outs| == |symbols| + 1
    ensures outs[0] == Source(AttributeHintName, AttributeSource)
    ensures forall k :: 0 <= k < |symbols| ==>
      outs[k + 1].hintName == FieldHint(symbols[k])
      && outs[k + 1].lines == Rendered(Extraction.Extract(
           symbols[k].containingNamespace, symbols[k].containingType, symbols[k].name, symbols[k].typeName))
  {
    [Source(AttributeHintName, AttributeSource)]
      + seq(|symbols|, i requires 0 <= i < |symbols| => FieldSource(symbols[i]))
  }

  /**
    The declared attribute is the one the pipeline looks for: class
    `AutoRegisteredAttribute` in namespace `TorchSharp.AutoRegister`, usable
    on fields.
  */
  lemma AttributeDeclaresFilteredName()
    ensures AttributeNamespace + "." + AttributeClassName == AttributeMetadataName
    ensures AttributeSource[1].text == "namespace " + AttributeNamespace
    ensures AttributeSource[3].text == "[AttributeUsage(AttributeTargets.Field)]"
    ensures AttributeSource[4].text == "public sealed partial class " + AttributeClassName + " : Attribute"
  {
  }

  /**
    The attribute's declaration opens two blocks (the namespace and the class
    body) and closes them, the closing braces at the levels of the opening ones.
  */
  lemma AttributeSourceBalanced()
    ensures Balanced(AttributeSource)
    ensures Matches(AttributeSource, 2, 7) && AttributeSource[2].level == AttributeSource[7].level
    ensures Matches(AttributeSource, 5, 6) && AttributeSource[5].level == AttributeSource[6].level
  {
    assert forall k :: 0 <= k < |AttributeSource| ==> (IsOpen(AttributeSource[k]) <==> k in {2, 5});
    assert forall k :: 0 <= k < |AttributeSource| ==> (IsClose(AttributeSource[k]) <==> k in {6, 7});
    BalancedByTable(AttributeSource, [0, 0, 0, 1, 1, 1, 2, 1, 0]);
    BalancedByTable(AttributeSource[3..7], [0, 0, 0, 1, 0]);
    BalancedByTable(AttributeSource[6..6], [0]);
  }

  /**
    The attribute's source is the same for every compilation, whatever fields
    are found; and the source for a field depends on that field's declaration
    alone, not on its position or on any other field.
  */
  lemma GenerateIndependent(a: seq<FieldSymbol>, b: seq<FieldSymbol>, i: nat, j: nat)
    requires forall k :: 0 <= k < |a| ==> Named(a[k])
    requires forall k :: 0 <= k < |b| ==> Named(b[k])
    requires i < |a| && j < |b| && a[i] == b[j]
    ensures Generate(a)[0] == Generate(b)[0]
    ensures Generate(a)[i + 1] == Generate(b)[j + 1]
  {
  }

  /** No field's source can take the hint name of the attribute's source. */
  lemma FieldHintIsNotAttributeHint(s: FieldSymbol)
    requires Named(s)
    ensures FieldHint(s) != AttributeHintName
  {
    var h := FieldHint(s);
    assert h[|s.containingType|] == '_';
    assert forall k :: 0 <= k < |AttributeHintName| ==> AttributeHintName[k] != '_';
  }

  /** The hint names under which one compilation's sources are added, in order. */
  function HintNames(symbols: seq<FieldSymbol>): (hs: seq<string>)
    requires forall k :: 0 <= k < |symbols| ==> Named(symbols[k])
    ensures |hs| == |symbols| + 1 && hs[0] == AttributeHintName
    ensures forall k :: 0 <= k < |symbols| ==> hs[k + 1] == FieldHint(symbols[k])
  {
    [AttributeHintName] + seq(|symbols|, k requires 0 <= k < |symbols| => FieldHint(symbols[k]))
  }

  /** The sources of one compilation carry the hint names `HintNames`, in order. */
  lemma GenerateHints(symbols: seq<FieldSymbol>)
    requires forall k :: 0 <= k < |symbols| ==> Named(symbols[k])
    ensures |Generate(symbols)| == |HintNames(symbols)|
    ensures forall k :: 0 <= k < |Generate(symbols)| ==> Generate(symbols)[k].hintName == HintNames(symbols)[k]
  {
    var outs, hs := Generate(symbols), HintNames(symbols);
    forall k | 0 <= k < |outs|
      ensures outs[k].hintName == hs[k]
    {
      if k > 0 {
        assert outs[(k - 1) + 1].hintName == hs[(k - 1) + 1];
      }
    }
  }

  /**
    When no containing class name has `_` in it, and no two fields share
    both their class and their field name, the hint names of one compilation
    are pairwise distinct.
  */
  lemma HintNamesDistinct(symbols: seq<FieldSymbol>)
    requires forall i :: 0 <= i < |symbols| ==> Named(symbols[i])
    requires forall i :: 0 <= i < |symbols| ==> '_' !in symbols[i].containingType
    requires forall i, j :: 0 <= i < j < |symbols| ==>
      symbols[i].containingType != symbols[j].containingType || symbols[i].name != symbols[j].name
    ensures forall i, j :: 0 <= i < j < |HintNames(symbols)| ==> HintNames(symbols)[i] != HintNames(symbols)[j]
  {
    var hs := HintNames(symbols);
    forall i, j | 0 <= i < j < |hs|
      ensures hs[i] != hs[j]
    {
      assert hs[(j - 1) + 1] == FieldHint(symbols[j - 1]);
      FieldHintIsNotAttributeHint(symbols[j - 1]);
      if i > 0 {
        assert hs[(i - 1) + 1] == FieldHint(symbols[i - 1]);
        DistinctFieldHints(symbols[i - 1], symbols[j - 1]);
      }
    }
  }

  /**
    Under the conditions of `HintNamesDistinct`, no two sources of the
    compilation have the same hint name, and none takes the attribute's
    (compared character by character; a comparison that ignores case is not
    covered).
  */
  lemma GenerateHintNamesDistinct(symbols: seq<FieldSymbol>)
    requires forall i :: 0 <= i < |symbols| ==> Named(symbols[i])
    requires forall i :: 0 <= i < |symbols| ==> '_' !in symbols[i].containingType
    requires forall i, j :: 0 <= i < j < |symbols| ==>
      symbols[i].containingType != symbols[j].containingType || symbols[i].name != symbols[j].name
    ensures forall i, j :: 0 <= i < j < |Generate(symbols)| ==>
      Generate(symbols)[i].hintName != Generate(symbols)[j].hintName
  {
    GenerateHints(symbols);
    HintNamesDistinct(symbols);
  }

  /** Two fields of `_`-free classes with distinct (class, field) names get distinct hint names. */
  lemma DistinctFieldHints(r: FieldSymbol, s: FieldSymbol)
    requires Named(r) && Named(s)
    requires '_' !in r.containingType && '_' !in s.containingType
    requires r.containingType != s.containingType || r.name != s.name
    ensures FieldHint(r) != FieldHint(s)
  {
    var mr := Extraction.Extract(r.containingNamespace, r.containingType, r.name, r.typeName);
    var ms := Extraction.Extract(s.containingNamespace, s.containingType, s.name, s.typeName);
    if Synthesis.HintName(mr) == Synthesis.HintName(ms) {
      Synthesis.HintNameSeparatesNames(mr, ms);
      assert false;
    }
  }
}
