/**
  The C# source the generator emits for one field: a partial declaration of
  the containing class with one property whose `init` accessor stores the
  value and re-registers it as a submodule under the field's name.

  A `Line(level, text)` stands for `level` copies of the writer's tab string
  followed by `text`; the platform newline that ends it is not modelled.
*/
module Template {
  import Extraction

  datatype Line = Line(level: nat, text: string)

  /**
    The fifteen lines the generator writes for one field record, at the
    indentation levels its writer is at when each line is written.
  */
  function Rendered(m: Extraction.FieldModel): (r: seq<Line>)
    ensures |r| == 15
  {
    [
      Line(0, "namespace " + m.namespaceName + ";"),
      Line(0, "partial class " + m.className),
      Line(0, "{"),
      Line(1, "public " + m.fieldType + " " + m.propertyName),
      Line(1, "{"),
      Line(2, "get => this." + m.fieldName + ";"),
      Line(2, "init"),
      Line(2, "{"),
      Line(3, "this." + m.fieldName + " = value;"),
      Line(3, "if (this._internal_submodules.ContainsKey(\"" + m.fieldName + "\"))"),
      Line(4, "_ = this._internal_submodules.Remove(\"" + m.fieldName + "\");"),
      Line(3, "this.register_module(\"" + m.fieldName + "\", this." + m.fieldName + ");"),
      Line(2, "}"),
      Line(1, "}"),
      Line(0, "}")]
  }

  // ---------------------------------------------------------------------------
  // Indentation

  /** The indentation level of each line of the generated source, in order. */
  const RenderedLevelTable: seq<nat> := [0, 0, 0, 1, 1, 2, 2, 2, 3, 3, 4, 3, 2, 1, 0]

  /**
    The rendered source has fifteen lines, at the levels the writer's
    `Indent++`/`Indent--` calls produce.
  */
  lemma RenderedLevels(m: Extraction.FieldModel)
    ensures |Rendered(m)| == |RenderedLevelTable|
    ensures forall k :: 0 <= k < |Rendered(m)| ==> Rendered(m)[k].level == RenderedLevelTable[k]
  {
  }

  /**
    The indentation starts and ends at level 0, never exceeds 4, and moves by
    at most one level from one line to the next.
  */
  lemma RenderedIndentBounds(m: Extraction.FieldModel)
    ensures |Rendered(m)| == 15
    ensures Rendered(m)[0].level == 0 && Rendered(m)[14].level == 0
    ensures forall k :: 0 <= k < |Rendered(m)| ==> Rendered(m)[k].level <= 4
    ensures forall k :: 0 < k < |Rendered(m)| ==>
      -1 <= Rendered(m)[k].level - Rendered(m)[k - 1].level <= 1
  {
    RenderedLevels(m);
  }

  // ---------------------------------------------------------------------------
  // Braces

  /** A line that is the single character `{`. */
  predicate IsOpen(l: Line) {
    |l.text| == 1 && l.text[0] == '{'
  }

  /** A line that is the single character `}`. */
  predicate IsClose(l: Line) {
    |l.text| == 1 && l.text[0] == '}'
  }

  /** `{` opens a block, `}` closes one; any other line leaves the nesting alone. */
  function Delta(l: Line): int {
    if IsOpen(l) then 1 else if IsClose(l) then -1 else 0
  }

  /** Blocks opened and not yet closed after the lines `ls`. */
  function Depth(ls: seq<Line>): int
    decreases |ls|
  {
    if |ls| == 0 then 0 else Depth(ls[..|ls| - 1]) + Delta(ls[|ls| - 1])
  }

  /** No prefix closes more blocks than it opened, and the whole closes them all. */
  predicate Balanced(ls: seq<Line>) {
    Depth(ls) == 0 && forall k :: 0 <= k <= |ls| ==> Depth(ls[..k]) >= 0
  }

  /** Line `i` opens the block that line `j` closes. */
  predicate Matches(ls: seq<Line>, i: int, j: int) {
    0 <= i < j < |ls| && IsOpen(ls[i]) && IsClose(ls[j]) && Balanced(ls[i + 1..j])
  }

  lemma DepthSnoc(ls: seq<Line>, k: nat)
    requires k < |ls|
    ensures Depth(ls[..k + 1]) == Depth(ls[..k]) + Delta(ls[k])
  {
    assert ls[..k + 1][..k] == ls[..k];
  }

  /** The depths after each prefix are those of a table that follows `Delta` step by step. */
  lemma {:induction false} DepthByTable(ls: seq<Line>, ds: seq<int>, k: nat)
    requires |ds| == |ls| + 1 && ds[0] == 0
    requires forall i :: 0 <= i < |ls| ==> ds[i + 1] == ds[i] + Delta(ls[i])
    requires k <= |ls|
    ensures Depth(ls[..k]) == ds[k]
  {
    if k > 0 {
      DepthByTable(ls, ds, k - 1);
      DepthSnoc(ls, k - 1);
    } else {
      assert ls[..0] == [];
    }
  }

  /** A table of depths that starts at 0, never goes negative and ends at 0 shows balance. */
  lemma BalancedByTable(ls: seq<Line>, ds: seq<int>)
    requires |ds| == |ls| + 1 && ds[0] == 0 && ds[|ls|] == 0
    requires forall i :: 0 <= i < |ls| ==> ds[i + 1] == ds[i] + Delta(ls[i])
    requires forall i :: 0 <= i < |ds| ==> ds[i] >= 0
    ensures Balanced(ls)
  {
    forall k | 0 <= k <= |ls| ensures Depth(ls[..k]) >= 0 {
      DepthByTable(ls, ds, k);
    }
    DepthByTable(ls, ds, |ls|);
    assert ls[..|ls|] == ls;
  }

  /**
    The rendered source has three opening-brace lines (lines 3, 5 and 8,
    counting from 1) and three closing-brace lines (13, 14 and 15).
  */
  lemma RenderedBraceLines(m: Extraction.FieldModel)
    ensures forall k :: 0 <= k < |Rendered(m)| ==> (IsOpen(Rendered(m)[k]) <==> k in {2, 4, 7})
    ensures forall k :: 0 <= k < |Rendered(m)| ==> (IsClose(Rendered(m)[k]) <==> k in {12, 13, 14})
  {
  }

  /** The braces of the rendered source are balanced. */
  lemma RenderedBalanced(m: Extraction.FieldModel)
    ensures Balanced(Rendered(m))
  {
    RenderedBraceLines(m);
    BalancedByTable(Rendered(m), [0, 0, 0, 1, 1, 2, 2, 2, 3, 3, 3, 3, 3, 2, 1, 0]);
  }

  /**
    Each block's closing brace is at the indentation level of its opening
    brace: the class body (lines 3 to 15), the property body (5 to 14) and the
    `init` body (8 to 13).
  */
  lemma RenderedBlocks(m: Extraction.FieldModel)
    ensures Matches(Rendered(m), 2, 14) && Rendered(m)[2].level == Rendered(m)[14].level
    ensures Matches(Rendered(m), 4, 13) && Rendered(m)[4].level == Rendered(m)[13].level
    ensures Matches(Rendered(m), 7, 12) && Rendered(m)[7].level == Rendered(m)[12].level
  {
    var r := Rendered(m);
    RenderedBraceLines(m);
    BalancedByTable(r[3..14], [0, 0, 1, 1, 1, 2, 2, 2, 2, 2, 1, 0]);
    BalancedByTable(r[5..13], [0, 0, 0, 1, 1, 1, 1, 1, 0]);
    BalancedByTable(r[8..12], [0, 0, 0, 0, 0]);
  }

  // ---------------------------------------------------------------------------
  // Embedding of the record's strings

  /** `sub` occurs in `s`, with `before` in front of it and `after` behind it. */
  predicate Occurs(sub: string, s: string, before: string, after: string) {
    s == before + sub + after
  }

  /** Equal strings with a common prefix agree on equally long parts after it. */
  lemma CancelPrefix(a: string, x: string, y: string, b1: string, b2: string)
    requires a + x + b1 == a + y + b2 && |x| == |y|
    ensures x == y
  {
    assert x == (a + x + b1)[|a|..|a| + |x|];
    assert y == (a + y + b2)[|a|..|a| + |y|];
  }

  /** Strings that agree around a middle part agree in the middle part. */
  lemma CancelAround(a: string, x: string, y: string, b: string)
    requires a + x + b == a + y + b
    ensures x == y
  {
    assert |a + x + b| == |a + y + b|;
    CancelPrefix(a, x, y, b, b);
  }

  /**
    Every string of the record is copied verbatim into the output: the
    namespace into line 1, the class name into line 2, the field type and
    property name into line 4; the field name is read as `this.<field>` in
    the getter, the assignment and the registration call, and is the string
    literal `"<field>"` in the three calls on the registry.
  */
  lemma RenderedEmbedsRecord(m: Extraction.FieldModel)
    ensures Occurs(m.namespaceName, Rendered(m)[0].text, "namespace ", ";")
    ensures Occurs(m.className, Rendered(m)[1].text, "partial class ", "")
    ensures Occurs(m.fieldType + " " + m.propertyName, Rendered(m)[3].text, "public ", "")
    ensures Occurs("this." + m.fieldName, Rendered(m)[5].text, "get => ", ";")
    ensures Occurs("this." + m.fieldName, Rendered(m)[8].text, "", " = value;")
    ensures Occurs("\"" + m.fieldName + "\"", Rendered(m)[9].text, "if (this._internal_submodules.ContainsKey(", "))")
    ensures Occurs("\"" + m.fieldName + "\"", Rendered(m)[10].text, "_ = this._internal_submodules.Remove(", ");")
    ensures Occurs("\"" + m.fieldName + "\"" + ", " + "this." + m.fieldName, Rendered(m)[11].text, "this.register_module(", ");")
  {
  }

  /** The lines that no string of the record reaches: the braces and `init`. */
  lemma RenderedFixedLines(m1: Extraction.FieldModel, m2: Extraction.FieldModel)
    ensures forall k :: k in {2, 4, 6, 7, 12, 13, 14} ==> Rendered(m1)[k] == Rendered(m2)[k]
  {
  }

  /**
    Each line depends on exactly the strings it embeds: line 1 on the
    namespace, line 2 on the class name, line 4 on the field type (for a given
    property name), and lines 6 and 9 to 12 on the field name.
  */
  lemma RenderedDependsOnRecord(m1: Extraction.FieldModel, m2: Extraction.FieldModel)
    ensures Rendered(m1)[0] == Rendered(m2)[0] <==> m1.namespaceName == m2.namespaceName
    ensures Rendered(m1)[1] == Rendered(m2)[1] <==> m1.className == m2.className
    ensures m1.propertyName == m2.propertyName ==>
      (Rendered(m1)[3] == Rendered(m2)[3] <==> m1.fieldType == m2.fieldType)
    ensures forall k :: k in {5, 8, 9, 10, 11} ==>
      (Rendered(m1)[k] == Rendered(m2)[k] <==> m1.fieldName == m2.fieldName)
  {
    var r1, r2 := Rendered(m1), Rendered(m2);
    if r1[0] == r2[0] {
      CancelAround("namespace ", m1.namespaceName, m2.namespaceName, ";");
    }
    if r1[1] == r2[1] {
      CancelAround("partial class ", m1.className, m2.className, "");
    }
    if m1.propertyName == m2.propertyName && r1[3] == r2[3] {
      assert "public " + m1.fieldType + " " + m1.propertyName == "public " + m1.fieldType + (" " + m1.propertyName);
      assert "public " + m2.fieldType + " " + m1.propertyName == "public " + m2.fieldType + (" " + m1.propertyName);
      CancelAround("public ", m1.fieldType, m2.fieldType, " " + m1.propertyName);
    }
    forall k | k in {5, 8, 9, 10, 11} && r1[k] == r2[k]
      ensures m1.fieldName == m2.fieldName
    {
      if k == 5 {
        CancelAround("get => this.", m1.fieldName, m2.fieldName, ";");
      } else if k == 8 {
        CancelAround("this.", m1.fieldName, m2.fieldName, " = value;");
      } else if k == 9 {
        CancelAround("if (this._internal_submodules.ContainsKey(\"", m1.fieldName, m2.fieldName, "\"))");
      } else if k == 10 {
        CancelAround("_ = this._internal_submodules.Remove(\"", m1.fieldName, m2.fieldName, "\");");
      } else {
        var a := "this.register_module(\"";
        assert r1[11].text == a + m1.fieldName + ("\", this." + m1.fieldName + ");");
        assert r2[11].text == a + m2.fieldName + ("\", this." + m2.fieldName + ");");
        CancelPrefix(a, m1.fieldName, m2.fieldName, "\", this." + m1.fieldName + ");", "\", this." + m2.fieldName + ");");
      }
    }
  }

  /**
    Distinct field records give distinct output: the generated source
    determines every string of a record built by `Extract`.
  */
  lemma RenderedInjective(m1: Extraction.FieldModel, m2: Extraction.FieldModel)
    requires Extraction.WellFormed(m1) && Extraction.WellFormed(m2)
    requires Rendered(m1) == Rendered(m2)
    ensures m1 == m2
  {
    RenderedDependsOnRecord(m1, m2);
    assert Rendered(m1)[5] == Rendered(m2)[5];
    assert Rendered(m1)[0] == Rendered(m2)[0];
    assert Rendered(m1)[1] == Rendered(m2)[1];
    assert Rendered(m1)[3] == Rendered(m2)[3];
  }
}
