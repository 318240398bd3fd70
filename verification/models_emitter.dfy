/**
 * `generate_models_code`: one Django model class per entry of `models_spec`, one attribute
 * line per field, field types copied verbatim. The reader `ParseModelsCode` recovers the
 * specification from the text, which pins down order, block count and field contents.
 */
module ModelsEmitter {
  import opened Results
  import opened PyStr
  import opened Spec

  const Header := "from django.db import models\n\n"

  /** `generate_models_code(models_spec)` */
  function GenerateModelsCode(models: seq<Model>): (code: string)
    ensures StartsWith(code, Header)
  {
    Header + ModelBlocks(models)
  }

  /** The text the loop appends, one block per model, in iteration order. */
  function ModelBlocks(models: seq<Model>): string {
    if models == [] then "" else ModelBlock(models[0]) + ModelBlocks(models[1..])
  }

  function ModelBlock(m: Model): string {
    "class " + m.name + "(models.Model):" + "\n" + FieldLines(m.fields) + "\n"
  }

  function FieldLine(f: Field): string {
    "    " + f.name + " = models." + f.typeExpr
  }

  function FieldLines(fields: seq<Field>): string {
    if fields == [] then "" else FieldLine(fields[0]) + "\n" + FieldLines(fields[1..])
  }

  // Reading a models file back.

  function ParseClassLine(line: string): Option<string> {
    match DropPrefix(line, "class ")
    case None => None
    case Some(t) => DropSuffix(t, "(models.Model):")
  }

  function ParseFieldLine(line: string): Option<Field> {
    match DropPrefix(line, "    ")
    case None => None
    case Some(t) =>
      match CutAt(t, ' ')
      case None => None
      case Some((name, u)) =>
        match DropPrefix(u, "= models.")
        case None => None
        case Some(typeExpr) => Some(Field(name, typeExpr))
  }

  /** Field lines up to and including the blank line that closes a class block. */
  function ParseFieldLines(s: string): (r: Option<(seq<Field>, string)>)
    ensures r.Some? ==> |r.value.1| < |s|
    decreases |s|
  {
    match TakeLine(s)
    case None => None
    case Some((line, rest)) =>
      if line == "" then Some(([], rest))
      else
        match ParseFieldLine(line)
        case None => None
        case Some(f) =>
          match ParseFieldLines(rest)
          case None => None
          case Some((fs, after)) => Some(([f] + fs, after))
  }

  function ParseModelBlocks(s: string): Option<seq<Model>>
    decreases |s|
  {
    if s == "" then Some([])
    else
      match TakeLine(s)
      case None => None
      case Some((line, rest)) =>
        match ParseClassLine(line)
        case None => None
        case Some(name) =>
          match ParseFieldLines(rest)
          case None => None
          case Some((fields, after)) =>
            match ParseModelBlocks(after)
            case None => None
            case Some(ms) => Some([Model(name, fields)] + ms)
  }

  /** The models a generated models file declares, in file order. */
  function ParseModelsCode(code: string): Option<seq<Model>> {
    match DropPrefix(code, Header)
    case None => None
    case Some(body) => ParseModelBlocks(body)
  }

  /** Names without the line break (and, for field names, the space) that delimit them in the text. */
  predicate FieldIsPlain(f: Field) {
    '\n' !in f.name && ' ' !in f.name && '\n' !in f.typeExpr
  }

  predicate FieldsArePlain(fields: seq<Field>) {
    forall j :: 0 <= j < |fields| ==> FieldIsPlain(fields[j])
  }

  predicate ModelIsPlain(m: Model) {
    '\n' !in m.name && FieldsArePlain(m.fields)
  }

  predicate ModelsArePlain(models: seq<Model>) {
    forall i :: 0 <= i < |models| ==> ModelIsPlain(models[i])
  }

  lemma PlainParts(models: seq<Model>)
    requires models != [] && ModelsArePlain(models)
    ensures ModelIsPlain(models[0]) && ModelsArePlain(models[1..])
  {
    assert forall i :: 0 <= i < |models[1..]| ==> models[1..][i] == models[i + 1];
  }

  lemma {:induction false} FieldLineRoundTrip(f: Field)
    requires FieldIsPlain(f)
    ensures '\n' !in FieldLine(f) && FieldLine(f) != ""
    ensures ParseFieldLine(FieldLine(f)) == Some(f)
  {
    assert '\n' !in "    " + f.name + " = models." + f.typeExpr by {
      AbsentFromConcat('\n', "    ", f.name, " = models.");
    }
    var u := "= models." + f.typeExpr;
    var t := f.name + [' '] + u;
    assert " = models." == [' '] + "= models.";
    assert "    " + f.name + " = models." + f.typeExpr == "    " + t;
    DropPrefixOf("    ", t);
    CutAtOf(f.name, ' ', u);
    DropPrefixOf("= models.", f.typeExpr);
    assert DropPrefix("    " + t, "    ") == Some(t);
    assert CutAt(t, ' ') == Some((f.name, u));
    assert DropPrefix(u, "= models.") == Some(f.typeExpr);
  }

  lemma {:induction false} FieldLinesRoundTrip(fields: seq<Field>, rest: string)
    requires FieldsArePlain(fields)
    ensures ParseFieldLines(FieldLines(fields) + "\n" + rest) == Some((fields, rest))
    decreases |fields|
  {
    if fields == [] {
      FieldLinesEnd(fields, rest);
    } else {
      FieldsPlainTail(fields);
      FieldLinesRoundTrip(fields[1..], rest);
      FieldLinesStep(fields, rest);
    }
  }

  lemma FieldLinesEnd(fields: seq<Field>, rest: string)
    requires fields == []
    ensures ParseFieldLines(FieldLines(fields) + "\n" + rest) == Some((fields, rest))
  {
    assert FieldLines(fields) + "\n" + rest == "" + "\n" + rest;
    TakeLineOf("", rest);
  }

  lemma FieldsPlainTail(fields: seq<Field>)
    requires fields != []
    requires FieldsArePlain(fields)
    ensures FieldIsPlain(fields[0]) && FieldsArePlain(fields[1..])
  {
    assert forall j :: 0 <= j < |fields[1..]| ==> fields[1..][j] == fields[j + 1];
  }

  lemma FieldLinesShape(fields: seq<Field>, rest: string)
    requires fields != []
    ensures FieldLines(fields) + "\n" + rest == FieldLine(fields[0]) + "\n" + (FieldLines(fields[1..]) + "\n" + rest)
  {
  }

  lemma FieldLinesStep(fields: seq<Field>, rest: string)
    requires fields != [] && FieldIsPlain(fields[0])
    requires ParseFieldLines(FieldLines(fields[1..]) + "\n" + rest) == Some((fields[1..], rest))
    ensures ParseFieldLines(FieldLines(fields) + "\n" + rest) == Some((fields, rest))
  {
    FieldLineRoundTrip(fields[0]);
    FieldLinesShape(fields, rest);
    ParseFieldLinesCons(FieldLine(fields[0]), FieldLines(fields[1..]) + "\n" + rest, fields[0], fields[1..], rest);
    assert [fields[0]] + fields[1..] == fields;
  }

  lemma ParseFieldLinesCons(line: string, body: string, f: Field, fs: seq<Field>, rest: string)
    requires '\n' !in line && line != ""
    requires ParseFieldLine(line) == Some(f)
    requires ParseFieldLines(body) == Some((fs, rest))
    ensures ParseFieldLines(line + "\n" + body) == Some(([f] + fs, rest))
  {
    TakeLineOf(line, body);
  }

  /** One class block is read back in front of whatever text follows it. */
  lemma ModelBlockRoundTrip(m: Model, tail: string, ms: seq<Model>)
    requires ModelIsPlain(m)
    requires ParseModelBlocks(tail) == Some(ms)
    ensures ParseModelBlocks(ModelBlock(m) + tail) == Some([m] + ms)
  {
    var line := "class " + m.name + "(models.Model):";
    var body := FieldLines(m.fields) + "\n" + tail;
    ModelBlockShape(m, tail);
    ClassLineRoundTrip(m.name);
    FieldLinesRoundTrip(m.fields, tail);
    ParseModelBlocksCons(line, body, m.name, m.fields, tail, ms);
  }

  lemma ModelBlockShape(m: Model, tail: string)
    ensures ModelBlock(m) + tail
         == ("class " + m.name + "(models.Model):") + "\n" + (FieldLines(m.fields) + "\n" + tail)
  {
  }

  lemma ClassLineRoundTrip(name: string)
    requires '\n' !in name
    ensures '\n' !in "class " + name + "(models.Model):"
    ensures ParseClassLine("class " + name + "(models.Model):") == Some(name)
  {
    AbsentFromConcat('\n', "class ", name, "(models.Model):");
    assert "class " + name + "(models.Model):" == "class " + (name + "(models.Model):");
    DropPrefixOf("class ", name + "(models.Model):");
    DropSuffixOf(name, "(models.Model):");
  }

  lemma ParseModelBlocksCons(
    line: string, body: string, name: string, fields: seq<Field>, tail: string, ms: seq<Model>)
    requires '\n' !in line
    requires ParseClassLine(line) == Some(name)
    requires ParseFieldLines(body) == Some((fields, tail))
    requires ParseModelBlocks(tail) == Some(ms)
    ensures ParseModelBlocks(line + "\n" + body) == Some([Model(name, fields)] + ms)
  {
    TakeLineOf(line, body);
  }

  lemma {:induction false} ModelBlocksRoundTrip(models: seq<Model>)
    requires ModelsArePlain(models)
    ensures ParseModelBlocks(ModelBlocks(models)) == Some(models)
    decreases |models|
  {
    if models != [] {
      PlainParts(models);
      ModelBlocksRoundTrip(models[1..]);
      ModelBlockRoundTrip(models[0], ModelBlocks(models[1..]), models[1..]);
      assert [models[0]] + models[1..] == models;
    }
  }

  /**
   * Reading the generated file gives back exactly the input: one class block per model,
   * in insertion order, each with its fields in order and their type text unchanged.
   */
  lemma ModelsRoundTrip(models: seq<Model>)
    requires ModelsArePlain(models)
    ensures ParseModelsCode(GenerateModelsCode(models)) == Some(models)
  {
    DropPrefixOf(Header, ModelBlocks(models));
    ModelBlocksRoundTrip(models);
  }

  /** Different model mappings never produce the same models file. */
  lemma ModelsCodeInjective(a: seq<Model>, b: seq<Model>)
    requires ModelsArePlain(a) && ModelsArePlain(b)
    requires GenerateModelsCode(a) == GenerateModelsCode(b)
    ensures a == b
  {
    ModelsRoundTrip(a);
    ModelsRoundTrip(b);
  }

  /**
   * Why type expressions must be one line: a type made of `x`, a line break and the field line
   * of `b` gives the same models file as the two fields `a` and `b`.
   */
  lemma MultiLineTypeCollides(name: string, a: string, x: string, b: string, y: string)
    ensures var one := [Model(name, [Field(a, x + "\n" + FieldLine(Field(b, y)))])];
      var two := [Model(name, [Field(a, x), Field(b, y)])];
      && one != two
      && GenerateModelsCode(one) == GenerateModelsCode(two)
  {
    var la := FieldLine(Field(a, x));
    var lb := FieldLine(Field(b, y));
    var f := Field(a, x + "\n" + lb);
    assert |f.typeExpr| > |x|;
    var p := "    " + a + " = models.";
    assert FieldLine(f) == p + (x + "\n" + lb) == (p + x) + "\n" + lb;
    assert FieldLines([f]) == (la + "\n" + lb) + "\n" + "";
    var fs := [Field(a, x), Field(b, y)];
    assert fs[1..] == [Field(b, y)];
    assert FieldLines(fs[1..]) == lb + "\n" + "";
    assert FieldLines(fs) == la + "\n" + (lb + "\n" + "");
    assert FieldLines([f]) == FieldLines(fs);
    var one := [Model(name, [f])];
    var two := [Model(name, fs)];
    assert ModelBlock(one[0]) == ModelBlock(two[0]);
    assert ModelBlocks(one) == ModelBlock(one[0]) + ModelBlocks(one[1..]);
    assert ModelBlocks(two) == ModelBlock(two[0]) + ModelBlocks(two[1..]);
  }

  lemma {:induction false} ModelBlocksAppend(a: seq<Model>, b: seq<Model>)
    ensures ModelBlocks(a + b) == ModelBlocks(a) + ModelBlocks(b)
    decreases |a|
  {
    if a == [] {
      assert a + b == b;
    } else {
      assert (a + b)[0] == a[0];
      assert (a + b)[1..] == a[1..] + b;
      ModelBlocksAppend(a[1..], b);
    }
  }

  /**
   * The loop only ever appends: the text built after the first `i` models is a prefix of
   * the final file, and what follows it is the blocks of the remaining models.
   */
  lemma ModelsCodeExtends(models: seq<Model>, i: nat)
    requires i <= |models|
    ensures GenerateModelsCode(models) == GenerateModelsCode(models[..i]) + ModelBlocks(models[i..])
  {
    assert models == models[..i] + models[i..];
    ModelBlocksAppend(models[..i], models[i..]);
  }
}
