# TorchSharp.AutoRegister source generator, modelled in Dafny

TorchSharp.AutoRegister is a C# incremental source generator. A field of a
TorchSharp module class marked `[AutoRegistered]` gets a generated public
property. The property's `init` accessor stores the value in the field and
registers it as a submodule under the field's name. On every compilation the
generator:

- adds the constant declaration of `AutoRegisteredAttribute` under the hint
  name `AutoRegisteredAttribute.g.cs`;
- for each annotated field, builds a record (namespace, class name, field
  name, field type, property name);
- renders that record through an `IndentedTextWriter` into a partial class
  with one property;
- adds that source under the hint name `{ClassName}_{FieldName}.g.cs`.

The model follows that structure, one module per stage:

| file | module | what it holds |
|---|---|---|
| `extraction.dfy` | `Extraction` | the record `FieldModel`, `Extract`, and how the property name is derived (`PropertyName`, with an ASCII `ToUpperInvariant`) |
| `template.dfy` | `Template` | a generated line `Line(level, text)`; the 15 lines written for one record (`Rendered`); brace depth and balance; lemmas on levels, braces, embedding and injectivity |
| `synthesis.dfy` | `Synthesis` | the writer as a class (`IndentedWriter`: a list of lines and a level counter clamped at 0); the write sequence (`RenderTo`, split along the source's nested `{ }` scopes), proved to produce `Rendered`; the hint name and its lemmas |
| `accessor.dfy` | `Accessor` | the run-time meaning of the emitted `init` on a module instance (`Owner`: its fields and its submodule registry as maps); the specification function `Reregistered` and its lemmas |
| `generator.dfy` | `Generator` | the attribute declaration as constant lines; the list of all sources of one compilation (`Generate`); uniqueness of hint names |

A `Line(level, text)` stands for `level` copies of the writer's tab string
followed by `text`. The attribute's raw string literal uses four spaces
inside the namespace, and that is modelled as level 1.

Two facts about the code are worth knowing before reading the model:

- Hint names can collide. The code builds them as `{ClassName}_{FieldName}.g.cs` (AutoRegisterSourceGenerator.cs line 89):
  - class `A_b` with field `c`, and class `A` with field `b_c`, get the same name (`Synthesis.HintNameCollision`);
  - classes with the same name in two namespaces get the same name (`Synthesis.HintNameDependsOnNames`).

  Hint names are proved distinct when no class name contains `_` and no two fields share both their class and field name (`Generator.GenerateHintNamesDistinct`).
- No diagnostic is emitted when the field name already starts with an upper-case letter (line 48). The generated property then has the same name as the field (`Extraction.PropertyNameFixedPoint`).
- The output declares `partial class <ClassName>` directly in the namespace (lines 57-58), where `ClassName` is the simple name of the containing type (line 45). A nested containing class (`N.Outer.Inner`) or a generic one (`M<T>`, whose simple name is `M`) is therefore not re-opened: the output declares a different top-level class.

## Model

| member | source | states |
|---|---|---|
| Extraction.ToUpperInvariant | TorchSharp.AutoRegister/TorchSharp.AutoRegister/AutoRegisterSourceGenerator.cs:48 | a lower-case letter maps to the upper-case letter at the same alphabet offset; every other character is unchanged; the result is never lower-case |
| Extraction.PropertyName | TorchSharp.AutoRegister/TorchSharp.AutoRegister/AutoRegisterSourceGenerator.cs:48 | the property name is as long as the field name; its first character is the field's first character upper-cased, and every later character equals the field's; it needs a non-empty name (the code indexes `[0]`) |
| Extraction.Extract | TorchSharp.AutoRegister/TorchSharp.AutoRegister/AutoRegisterSourceGenerator.cs:14-17 | the record stores namespace, class, field name and field type verbatim, and its property name is the one derived from the field name |
| Extraction.PropertyNameFixedPoint | TorchSharp.AutoRegister/TorchSharp.AutoRegister/AutoRegisterSourceGenerator.cs:48 | the property name equals the field name exactly when the field name does not start with a lower-case letter |
| Extraction.PropertyNameIdempotent | TorchSharp.AutoRegister/TorchSharp.AutoRegister/AutoRegisterSourceGenerator.cs:48 | deriving the property name of a property name changes nothing |
| Extraction.PropertyNameDeterminesTail | TorchSharp.AutoRegister/TorchSharp.AutoRegister/AutoRegisterSourceGenerator.cs:48 | two field names with the same property name have the same length and the same characters after the first, and their first characters upper-case alike |
| Extraction.PropertyNameExamples | TorchSharp.AutoRegister/Tests/MyModule.cs:16-20 | `linear` gives `Linear` (the fixture's field and property), `widget` gives `Widget`, `x1` gives `X1`, `Already` stays `Already` |
| Template.Rendered | TorchSharp.AutoRegister/TorchSharp.AutoRegister/AutoRegisterSourceGenerator.cs:57-85 | the fifteen (level, text) lines written for one record, in order; the lemmas below state their levels, braces and contents |
| Template.RenderedLevels | TorchSharp.AutoRegister/TorchSharp.AutoRegister/AutoRegisterSourceGenerator.cs:57-85 | there are exactly 15 lines, at levels 0,0,0,1,1,2,2,2,3,3,4,3,2,1,0 |
| Template.RenderedIndentBounds | TorchSharp.AutoRegister/TorchSharp.AutoRegister/AutoRegisterSourceGenerator.cs:57-85 | the first and last lines are at level 0, no line is deeper than 4, and adjacent lines differ by at most one level |
| Template.RenderedBraceLines | TorchSharp.AutoRegister/TorchSharp.AutoRegister/AutoRegisterSourceGenerator.cs:59-85 | a line is an opening brace if and only if it is line 3, 5 or 8, and a closing brace if and only if it is line 13, 14 or 15 |
| Template.RenderedBalanced | TorchSharp.AutoRegister/TorchSharp.AutoRegister/AutoRegisterSourceGenerator.cs:57-85 | the braces of the generated source are balanced: depth never goes negative on any prefix and ends at 0 |
| Template.RenderedBlocks | TorchSharp.AutoRegister/TorchSharp.AutoRegister/AutoRegisterSourceGenerator.cs:59-85 | the braces at lines 59/85, 63/82 and 68/79 of the writer code match (balanced in between) and sit at equal levels |
| Template.RenderedEmbedsRecord | TorchSharp.AutoRegister/TorchSharp.AutoRegister/AutoRegisterSourceGenerator.cs:57-76 | each string of the record appears literally in its line, with the fixed text around it: namespace, class, type and property name, `this.<field>` three times, `"<field>"` three times |
| Template.RenderedFixedLines | TorchSharp.AutoRegister/TorchSharp.AutoRegister/AutoRegisterSourceGenerator.cs:59-85 | the brace lines and `init` are the same for every record |
| Template.RenderedDependsOnRecord | TorchSharp.AutoRegister/TorchSharp.AutoRegister/AutoRegisterSourceGenerator.cs:57-76 | for two records: line 1 is equal if and only if the namespaces are; line 2 if and only if the class names are; line 4 (for one property name) if and only if the types are; lines 6 and 9-12 each if and only if the field names are |
| Template.RenderedInjective | TorchSharp.AutoRegister/TorchSharp.AutoRegister/AutoRegisterSourceGenerator.cs:42-48 | two records built by extraction with equal generated sources are equal |
| Synthesis.IndentedWriter.WriteLine | TorchSharp.AutoRegister/TorchSharp.AutoRegister/AutoRegisterSourceGenerator.cs:55 | appends the text at the current level and keeps the level |
| Synthesis.IndentedWriter.IncreaseIndent | TorchSharp.AutoRegister/TorchSharp.AutoRegister/AutoRegisterSourceGenerator.cs:60 | adds one to the level and writes nothing |
| Synthesis.IndentedWriter.DecreaseIndent | TorchSharp.AutoRegister/TorchSharp.AutoRegister/AutoRegisterSourceGenerator.cs:84 | subtracts one from the level but never goes below 0, and writes nothing |
| Synthesis.ShiftRendered | TorchSharp.AutoRegister/TorchSharp.AutoRegister/AutoRegisterSourceGenerator.cs:57-85 | the template moved `depth` levels deeper is the 15 lines with each level raised by `depth` |
| Synthesis.WriteInitBody | TorchSharp.AutoRegister/TorchSharp.AutoRegister/AutoRegisterSourceGenerator.cs:71-76 | writes the four statements of `init`, the `Remove` one level deeper, and ends at the starting level |
| Synthesis.WriteAccessors | TorchSharp.AutoRegister/TorchSharp.AutoRegister/AutoRegisterSourceGenerator.cs:66-79 | writes the getter, `init` and its braced body, and ends at the starting level |
| Synthesis.WriteProperty | TorchSharp.AutoRegister/TorchSharp.AutoRegister/AutoRegisterSourceGenerator.cs:62-82 | writes the property header and its braced accessors, and ends at the starting level |
| Synthesis.RenderTo | TorchSharp.AutoRegister/TorchSharp.AutoRegister/AutoRegisterSourceGenerator.cs:57-85 | from any starting level, appends exactly the template shifted by that level and returns to it: the clamp at 0 never takes effect |
| Synthesis.Render | TorchSharp.AutoRegister/TorchSharp.AutoRegister/AutoRegisterSourceGenerator.cs:52-87 | a fresh writer produces exactly the template's 15 lines |
| Synthesis.HintName | TorchSharp.AutoRegister/TorchSharp.AutoRegister/AutoRegisterSourceGenerator.cs:89 | the hint name is the class name, `_`, the field name and `.g.cs`, by position and length |
| Synthesis.HintNameDependsOnNames | TorchSharp.AutoRegister/TorchSharp.AutoRegister/AutoRegisterSourceGenerator.cs:89 | records with equal class and field names get equal hint names, whatever their namespaces, types and property names |
| Synthesis.HintNameCollision | TorchSharp.AutoRegister/TorchSharp.AutoRegister/AutoRegisterSourceGenerator.cs:89 | the hint name is not injective: (`A_b`, `c`) and (`A`, `b_c`) give `A_b_c.g.cs` |
| Synthesis.HintNameSeparatesNames | TorchSharp.AutoRegister/TorchSharp.AutoRegister/AutoRegisterSourceGenerator.cs:89 | when neither class name contains `_`, equal hint names mean equal class names and equal field names |
| Accessor.Reregistered | TorchSharp.AutoRegister/TorchSharp.AutoRegister/AutoRegisterSourceGenerator.cs:72-76 | after the accessor, the key is registered with the new value, the registered names are the old ones plus the key, and every other registration is kept |
| Accessor.ReregisteredTwice | TorchSharp.AutoRegister/TorchSharp.AutoRegister/AutoRegisterSourceGenerator.cs:71-76 | two assignments in a row leave the registry as if only the second had run |
| Accessor.ReregisteredSize | TorchSharp.AutoRegister/TorchSharp.AutoRegister/AutoRegisterSourceGenerator.cs:72-76 | re-registering a present name keeps the registry's size, and a new name adds exactly one entry |
| Accessor.ReregisteredCommutes | TorchSharp.AutoRegister/TorchSharp.AutoRegister/AutoRegisterSourceGenerator.cs:71-76 | assignments to two different fields give the same registry in either order |
| Accessor.Owner.RegisterModule | TorchSharp.AutoRegister/TorchSharp.AutoRegister/AutoRegisterSourceGenerator.cs:76 | adds the submodule under a name not yet registered; the fields are unchanged |
| Accessor.Owner.Get | TorchSharp.AutoRegister/TorchSharp.AutoRegister/AutoRegisterSourceGenerator.cs:66 | the getter returns the field's current value |
| Accessor.Owner.Init | TorchSharp.AutoRegister/TorchSharp.AutoRegister/AutoRegisterSourceGenerator.cs:71-76 | the field takes the value; the registry becomes `Reregistered` of the old one (so `register_module` runs only once the name is absent); the field is registered with its value; and every other field's registration is unchanged |
| Accessor.AssignTwice | TorchSharp.AutoRegister/TorchSharp.AutoRegister/AutoRegisterSourceGenerator.cs:71-76 | a field initialised twice ends with one registration, holding the second value, and the getter then returns the second value |
| Generator.FieldHint | TorchSharp.AutoRegister/TorchSharp.AutoRegister/AutoRegisterSourceGenerator.cs:89 | a field's hint name is its class name, `_`, its field name and `.g.cs` |
| Generator.FieldSource | TorchSharp.AutoRegister/TorchSharp.AutoRegister/AutoRegisterSourceGenerator.cs:37-89 | one field's source: the hint name of the field, and the rendering of the record extracted from the field's symbol, which declares `partial class <ClassName>` directly in the namespace |
| Generator.Generate | TorchSharp.AutoRegister/TorchSharp.AutoRegister/AutoRegisterSourceGenerator.cs:21-89 | one source more than there are annotated fields; the first is always the attribute's declaration under `AutoRegisteredAttribute.g.cs`, and source `k + 1` carries the `k`-th field's hint name and the rendering of its record |
| Generator.AttributeDeclaresFilteredName | TorchSharp.AutoRegister/TorchSharp.AutoRegister/AutoRegisterSourceGenerator.cs:23-35 | the declared namespace and class name join to the metadata name the pipeline filters on, and the class is declared as a field attribute |
| Generator.AttributeSourceBalanced | TorchSharp.AutoRegister/TorchSharp.AutoRegister/AutoRegisterSourceGenerator.cs:23-32 | the attribute's braces are balanced, and its namespace and class bodies match at equal levels |
| Generator.GenerateIndependent | TorchSharp.AutoRegister/TorchSharp.AutoRegister/AutoRegisterSourceGenerator.cs:37-50 | the attribute's source is the same in every compilation, and a field's source depends on that field alone, not on its position or on other fields |
| Generator.HintNames | TorchSharp.AutoRegister/TorchSharp.AutoRegister/AutoRegisterSourceGenerator.cs:22-89 | the hint names of one compilation: the attribute's first, then one per field in order |
| Generator.GenerateHints | TorchSharp.AutoRegister/TorchSharp.AutoRegister/AutoRegisterSourceGenerator.cs:22-89 | each source of the compilation carries the hint name at its position in `HintNames` |
| Generator.HintNamesDistinct | TorchSharp.AutoRegister/TorchSharp.AutoRegister/AutoRegisterSourceGenerator.cs:22-89 | when no class name contains `_` and the (class, field) pairs are distinct, the hint names are pairwise distinct |
| Generator.FieldHintIsNotAttributeHint | TorchSharp.AutoRegister/TorchSharp.AutoRegister/AutoRegisterSourceGenerator.cs:22 | no field's hint name equals the attribute's hint name |
| Generator.DistinctFieldHints | TorchSharp.AutoRegister/TorchSharp.AutoRegister/AutoRegisterSourceGenerator.cs:89 | fields of `_`-free classes with distinct (class, field) names get distinct hint names |
| Generator.GenerateHintNamesDistinct | TorchSharp.AutoRegister/TorchSharp.AutoRegister/AutoRegisterSourceGenerator.cs:21-89 | when no class name contains `_` and the (class, field) pairs are distinct, every source of the compilation has its own hint name |

## Left out

- The compiler's symbol queries (`ForAttributeWithMetadataName`, `TargetSymbol`, `ToDisplayString` with the `global::` format) are outside the model. Their results are the string parameters of `Extraction.Extract` and the fields of `Generator.FieldSymbol`.
- The namespace string is taken as given; how the compiler's symbol API names the global namespace is not modelled. A null namespace interpolates as the empty string at line 57, so it renders like the modelled empty namespace, `namespace ;`.
- Extraction.ToUpperInvariant: models ASCII letters only. Other Unicode letters that the invariant culture upper-cases are kept unchanged, because case mapping tables are not available here.
- Synthesis.IndentedWriter.WriteLine: always prefixes the current level. The library writer emits no tabs before the first line after construction. The generator's first line is at level 0, so `Synthesis.Render` is exact; `Synthesis.RenderTo` from a deeper starting level describes the model writer only.
- Generator.GenerateHintNamesDistinct: compares hint names character by character. The host may compare hint names ignoring case; the host is not part of this model, so classes such as `Ab` and `AB` with the same field are not shown to collide there.
- Output text is a list of `(level, text)` lines. The tab string, the platform newline, `StringWriter`, `SourceText` and the UTF-8 encoding are not modelled.
- TorchSharp's `register_module` is outside this generator. Only its rejection of a name that is already registered is modelled, as the precondition of `Accessor.Owner.RegisterModule`. Its other checks (for example a null module) are not modelled.
- Incremental caching and the host's handling of sources (`RegisterPostInitializationOutput`, `RegisterSourceOutput`, and the host's exception on a duplicate hint name) are not modelled. `Generator.Generate` lists the sources of one full run in order.
- Accessor.Owner.Init: the field and the registered submodule are one value of type `V`. Type conversion from the field's declared type to TorchSharp's module type is not modelled.
- The test fixture `MyModule.cs` is used only as an example (`Extraction.PropertyNameExamples`). The TorchSharp types it uses are not part of this model.
