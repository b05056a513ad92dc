/**
  The source-output step of the generator: an indented text writer, the
  sequence of writes that produces the partial class for one field, and the
  hint name under which that source is added to the compilation.
*/
module Synthesis {
  import Extraction
  import opened Template

  /**
    The part of `System.CodeDom.Compiler.IndentedTextWriter` the generator
    uses: each written line is prefixed by the current indentation level, and
    the level is a counter that assignments never set below 0. (The library
    writer emits no tabs before the very first line after construction; the
    generator's first line is written at level 0, where the two agree, so
    `Render` is exact, while `RenderTo` from a deeper level describes this
    model writer, not the library's first line.)
  */
  class IndentedWriter {
    var lines: seq<Line>
    var indent: nat

    constructor ()
      ensures lines == [] && indent == 0
    {
      lines := [];
      indent := 0;
    }

    /** `WriteLine`: the line is written at the current level. */
    method WriteLine(text: string)
      modifies this
      ensures lines == old(lines) + [Line(old(indent), text)]
      ensures indent == old(indent)
    {
      lines := lines + [Line(indent, text)];
    }

    /** `Indent++`. */
    method IncreaseIndent()
      modifies this
      ensures indent == old(indent) + 1
      ensures lines == old(lines)
    {
      indent := indent + 1;
    }

    /** `Indent--`; the setter turns a negative level into 0. */
    method DecreaseIndent()
      modifies this
      ensures indent == if old(indent) == 0 then 0 else old(indent) - 1
      ensures lines == old(lines)
    {
      indent := if indent == 0 then 0 else indent - 1;
    }
  }

  /** The lines `ls`, each moved `depth` levels deeper. */
  function Shift(ls: seq<Line>, depth: nat): seq<Line> {
    seq(|ls|, k requires 0 <= k < |ls| => Line(ls[k].level + depth, ls[k].text))
  }

  /** The template shifted `depth` levels deeper, written out line by line. */
  lemma ShiftRendered(m: Extraction.FieldModel, depth: nat)
    ensures Shift(Rendered(m), depth) == [
      Line(depth, "namespace " + m.namespaceName + ";"),
      Line(depth, "partial class " + m.className),
      Line(depth, "{"),
      Line(depth + 1, "public " + m.fieldType + " " + m.propertyName),
      Line(depth + 1, "{"),
      Line(depth + 2, "get => this." + m.fieldName + ";"),
      Line(depth + 2, "init"),
      Line(depth + 2, "{"),
      Line(depth + 3, "this." + m.fieldName + " = value;"),
      Line(depth + 3, "if (this._internal_submodules.ContainsKey(\"" + m.fieldName + "\"))"),
      Line(depth + 4, "_ = this._internal_submodules.Remove(\"" + m.fieldName + "\");"),
      Line(depth + 3, "this.register_module(\"" + m.fieldName + "\", this." + m.fieldName + ");"),
      Line(depth + 2, "}"),
      Line(depth + 1, "}"),
      Line(depth, "}")]
  {
  }

  /** The statements of the `init` accessor (the innermost block). */
  method WriteInitBody(w: IndentedWriter, m: Extraction.FieldModel)
    modifies w
    ensures w.lines == old(w.lines) + [
      Line(old(w.indent), "this." + m.fieldName + " = value;"),
      Line(old(w.indent), "if (this._internal_submodules.ContainsKey(\"" + m.fieldName + "\"))"),
      Line(old(w.indent) + 1, "_ = this._internal_submodules.Remove(\"" + m.fieldName + "\");"),
      Line(old(w.indent), "this.register_module(\"" + m.fieldName + "\", this." + m.fieldName + ");")]
    ensures w.indent == old(w.indent)
  {
    w.WriteLine("this." + m.fieldName + " = value;");
    w.WriteLine("if (this._internal_submodules.ContainsKey(\"" + m.fieldName + "\"))");
    w.IncreaseIndent();
    w.WriteLine("_ = this._internal_submodules.Remove(\"" + m.fieldName + "\");");
    w.DecreaseIndent();
    w.WriteLine("this.register_module(\"" + m.fieldName + "\", this." + m.fieldName + ");");
  }

  /** The getter and the `init` accessor with its braces. */
  method WriteAccessors(w: IndentedWriter, m: Extraction.FieldModel)
    modifies w
    ensures w.lines == old(w.lines) + [
      Line(old(w.indent), "get => this." + m.fieldName + ";"),
      Line(old(w.indent), "init"),
      Line(old(w.indent), "{"),
      Line(old(w.indent) + 1, "this." + m.fieldName + " = value;"),
      Line(old(w.indent) + 1, "if (this._internal_submodules.ContainsKey(\"" + m.fieldName + "\"))"),
      Line(old(w.indent) + 2, "_ = this._internal_submodules.Remove(\"" + m.fieldName + "\");"),
      Line(old(w.indent) + 1, "this.register_module(\"" + m.fieldName + "\", this." + m.fieldName + ");"),
      Line(old(w.indent), "}")]
    ensures w.indent == old(w.indent)
  {
    w.WriteLine("get => this." + m.fieldName + ";");
    w.WriteLine("init");
    w.WriteLine("{");
    w.IncreaseIndent();
    WriteInitBody(w, m);
    w.DecreaseIndent();
    w.WriteLine("}");
  }

  /** The property declaration with its braces around the accessors. */
  method WriteProperty(w: IndentedWriter, m: Extraction.FieldModel)
    modifies w
    ensures w.lines == old(w.lines) + [
      Line(old(w.indent), "public " + m.fieldType + " " + m.propertyName),
      Line(old(w.indent), "{"),
      Line(old(w.indent) + 1, "get => this." + m.fieldName + ";"),
      Line(old(w.indent) + 1, "init"),
      Line(old(w.indent) + 1, "{"),
      Line(old(w.indent) + 2, "this." + m.fieldName + " = value;"),
      Line(old(w.indent) + 2, "if (this._internal_submodules.ContainsKey(\"" + m.fieldName + "\"))"),
      Line(old(w.indent) + 3, "_ = this._internal_submodules.Remove(\"" + m.fieldName + "\");"),
      Line(old(w.indent) + 2, "this.register_module(\"" + m.fieldName + "\", this." + m.fieldName + ");"),
      Line(old(w.indent) + 1, "}"),
      Line(old(w.indent), "}")]
    ensures w.indent == old(w.indent)
  {
    w.WriteLine("public " + m.fieldType + " " + m.propertyName);
    w.WriteLine("{");
    w.IncreaseIndent();
    WriteAccessors(w, m);
    w.DecreaseIndent();
    w.WriteLine("}");
  }

  /**
    Writes the partial class for `m`. Every `Indent--` is preceded by its
    `Indent++`, so the writer's clamping at 0 never takes effect: whatever the
    level the model writer starts at, the lines are the template shifted by
    that level, and the writer ends at the level it started at.
  */
  method RenderTo(w: IndentedWriter, m: Extraction.FieldModel)
    modifies w
    ensures w.lines == old(w.lines) + Shift(Rendered(m), old(w.indent))
    ensures w.indent == old(w.indent)
  {
    ShiftRendered(m, w.indent);
    w.WriteLine("namespace " + m.namespaceName + ";");
    w.WriteLine("partial class " + m.className);
    w.WriteLine("{");
    w.IncreaseIndent();
    WriteProperty(w, m);
    w.DecreaseIndent();
    w.WriteLine("}");
  }

  /** The source-output callback: a fresh writer, the writes above, its text. */
  method Render(m: Extraction.FieldModel) returns (lines: seq<Line>)
    ensures lines == Rendered(m)
  {
    var w := new IndentedWriter();
    RenderTo(w, m);
    lines := w.lines;
    assert Shift(Rendered(m), 0) == Rendered(m);
  }

  /** The hint name `{ClassName}_{FieldName}.g.cs` of the generated source. */
  function HintName(m: Extraction.FieldModel): (r: string)
    ensures |r| == |m.className| + |m.fieldName| + 6
    ensures r[..|m.className|] == m.className && r[|m.className|] == '_'
    ensures r[|m.className| + 1..|r| - 5] == m.fieldName
    ensures r[|r| - 5..] == ".g.cs"
  {
    m.className + "_" + m.fieldName + ".g.cs"
  }

  /** The hint name depends on the class and field names and on nothing else. */
  lemma HintNameDependsOnNames(m1: Extraction.FieldModel, m2: Extraction.FieldModel)
    requires m1.className == m2.className && m1.fieldName == m2.fieldName
    ensures HintName(m1) == HintName(m2)
  {
  }

  /**
    The hint name is not injective: a class `A_b` with a field `c` and a class
    `A` with a field `b_c` get the same hint name.
  */
  lemma HintNameCollision()
    ensures HintName(Extraction.FieldModel("N", "A_b", "c", "T", "C"))
         == HintName(Extraction.FieldModel("N", "A", "b_c", "T", "B_c"))
  {
  }

  /**
    When neither class name contains `_`, the hint name determines the class
    name and the field name: the first `_` separates them.
  */
  lemma HintNameSeparatesNames(m1: Extraction.FieldModel, m2: Extraction.FieldModel)
    requires '_' !in m1.className && '_' !in m2.className
    requires HintName(m1) == HintName(m2)
    ensures m1.className == m2.className && m1.fieldName == m2.fieldName
  {
  }
}
