/**
 * `generate_forms_code`: one `<Model>Form` class per model, in order, whose `Meta` names the
 * model and asks for every field.
 */
module FormsEmitter {
  import opened Results
  import opened PyStr
  import opened Spec

  const Header := "from django import forms\nfrom .models import *\n\n"
  const MetaLine := "    class Meta:"
  const FieldsLine := "        fields = '__all__'"

  /** `generate_forms_code(models_spec)`: the loop runs over `models_spec.keys()`. */
  function GenerateFormsCode(models: seq<Model>): (code: string)
    ensures StartsWith(code, Header)
  {
    Header + FormBlocks(ModelNames(models))
  }

  function ClassLine(name: string): string {
    "class " + name + "Form" + "(forms.ModelForm):"
  }

  function ModelLine(name: string): string {
    "        model = " + name
  }

  function FormBlock(name: string): string {
    ClassLine(name) + "\n" + MetaLine + "\n" + ModelLine(name) + "\n" + FieldsLine + "\n" + "\n"
  }

  function FormBlocks(names: seq<string>): string {
    if names == [] then "" else FormBlock(names[0]) + FormBlocks(names[1..])
  }

  // Reading a forms file back.

  /** A form class as declared: its class name, the model its `Meta` names and its field list. */
  datatype FormDecl = FormDecl(className: string, model: string, fields: string)

  function ParseClassLine(line: string): Option<string> {
    match DropPrefix(line, "class ")
    case None => None
    case Some(t) => DropSuffix(t, "(forms.ModelForm):")
  }

  /** The `model`, `fields` and closing blank lines of a form block, and the text after it. */
  function ParseMeta(s: string): (r: Option<(string, string, string)>)
    ensures r.Some? ==> |r.value.2| < |s|
  {
    match TakeLine(s)
    case None => None
    case Some((modelLine, s1)) =>
      match DropPrefix(modelLine, "        model = ")
      case None => None
      case Some(model) =>
        match TakeLine(s1)
        case None => None
        case Some((fieldsLine, s2)) =>
          match DropPrefix(fieldsLine, "        fields = ")
          case None => None
          case Some(fields) =>
            match TakeLine(s2)
            case None => None
            case Some((blank, rest)) => if blank != "" then None else Some((model, fields, rest))
  }

  function ParseFormBlocks(s: string): Option<seq<FormDecl>>
    decreases |s|
  {
    if s == "" then Some([])
    else
      match TakeLine(s)
      case None => None
      case Some((classLine, s1)) =>
        match ParseClassLine(classLine)
        case None => None
        case Some(className) =>
          match TakeLine(s1)
          case None => None
          case Some((metaLine, s2)) =>
            if metaLine != MetaLine then None
            else
              match ParseMeta(s2)
              case None => None
              case Some((model, fields, rest)) =>
                match ParseFormBlocks(rest)
                case None => None
                case Some(decls) => Some([FormDecl(className, model, fields)] + decls)
  }

  /** The form classes a forms file declares, in file order. */
  function ParseFormsCode(code: string): Option<seq<FormDecl>> {
    match DropPrefix(code, Header)
    case None => None
    case Some(body) => ParseFormBlocks(body)
  }

  /** The form each model is meant to get: `<Name>Form`, bound to `<Name>`, with all fields. */
  function ExpectedForms(names: seq<string>): seq<FormDecl> {
    seq(|names|, i requires 0 <= i < |names| => FormDecl(names[i] + "Form", names[i], "'__all__'"))
  }

  predicate NamesArePlain(names: seq<string>) {
    forall i :: 0 <= i < |names| ==> '\n' !in names[i]
  }

  lemma ConstantLines()
    ensures '\n' !in MetaLine && '\n' !in FieldsLine
    ensures DropPrefix(FieldsLine, "        fields = ") == Some("'__all__'")
  {
    DropPrefixOf("        fields = ", "'__all__'");
    assert FieldsLine == "        fields = " + "'__all__'";
  }

  lemma ClassLineRoundTrip(name: string)
    requires '\n' !in name
    ensures '\n' !in ClassLine(name)
    ensures ParseClassLine(ClassLine(name)) == Some(name + "Form")
  {
    AbsentFromConcat('\n', "class ", name, "Form");
    AbsentFromConcat('\n', "class " + name + "Form", "(forms.ModelForm):", "");
    assert ClassLine(name) == "class " + name + "Form" + "(forms.ModelForm):" + "";
    assert ClassLine(name) == "class " + ((name + "Form") + "(forms.ModelForm):");
    DropPrefixOf("class ", (name + "Form") + "(forms.ModelForm):");
    DropSuffixOf(name + "Form", "(forms.ModelForm):");
  }

  lemma ModelLineRoundTrip(name: string)
    requires '\n' !in name
    ensures '\n' !in ModelLine(name)
    ensures DropPrefix(ModelLine(name), "        model = ") == Some(name)
  {
    assert '\n' !in "        model = ";
    DropPrefixOf("        model = ", name);
  }

  lemma FormBlockShape(name: string, rest: string)
    ensures FormBlock(name) + rest
         == ClassLine(name) + "\n" + (MetaLine + "\n" + (ModelLine(name) + "\n" + (FieldsLine + "\n" + ("" + "\n" + rest))))
  {
  }

  lemma ParseMetaOf(modelLine: string, rest: string, model: string, fields: string)
    requires '\n' !in modelLine && '\n' !in FieldsLine
    requires DropPrefix(modelLine, "        model = ") == Some(model)
    requires DropPrefix(FieldsLine, "        fields = ") == Some(fields)
    ensures ParseMeta(modelLine + "\n" + (FieldsLine + "\n" + ("" + "\n" + rest))) == Some((model, fields, rest))
  {
    TakeLineOf("", rest);
    TakeLineOf(FieldsLine, "" + "\n" + rest);
    TakeLineOf(modelLine, FieldsLine + "\n" + ("" + "\n" + rest));
  }

  lemma ParseFormBlocksCons(classLine: string, body: string, rest: string, className: string, model: string, fields: string, decls: seq<FormDecl>)
    requires '\n' !in classLine && '\n' !in MetaLine
    requires ParseClassLine(classLine) == Some(className)
    requires ParseMeta(body) == Some((model, fields, rest))
    requires ParseFormBlocks(rest) == Some(decls)
    ensures ParseFormBlocks(classLine + "\n" + (MetaLine + "\n" + body)) == Some([FormDecl(className, model, fields)] + decls)
  {
    TakeLineOf(MetaLine, body);
    TakeLineOf(classLine, MetaLine + "\n" + body);
  }

  lemma FormBlockRoundTrip(name: string, rest: string, decls: seq<FormDecl>)
    requires '\n' !in name
    requires ParseFormBlocks(rest) == Some(decls)
    ensures ParseFormBlocks(FormBlock(name) + rest)
         == Some([FormDecl(name + "Form", name, "'__all__'")] + decls)
  {
    ConstantLines();
    ClassLineRoundTrip(name);
    ModelLineRoundTrip(name);
    FormBlockShape(name, rest);
    var body := ModelLine(name) + "\n" + (FieldsLine + "\n" + ("" + "\n" + rest));
    ParseMetaOf(ModelLine(name), rest, name, "'__all__'");
    ParseFormBlocksCons(ClassLine(name), body, rest, name + "Form", name, "'__all__'", decls);
  }

  lemma PlainTail(names: seq<string>)
    requires names != [] && NamesArePlain(names)
    ensures '\n' !in names[0] && NamesArePlain(names[1..])
  {
    assert forall i :: 0 <= i < |names[1..]| ==> names[1..][i] == names[i + 1];
  }

  lemma ExpectedFormsCons(names: seq<string>)
    requires names != []
    ensures ExpectedForms(names) == [FormDecl(names[0] + "Form", names[0], "'__all__'")] + ExpectedForms(names[1..])
  {
  }

  lemma {:induction false} FormBlocksRoundTrip(names: seq<string>)
    requires NamesArePlain(names)
    ensures ParseFormBlocks(FormBlocks(names)) == Some(ExpectedForms(names))
    decreases |names|
  {
    if names == [] {
      assert ExpectedForms(names) == [];
    } else {
      PlainTail(names);
      FormBlocksRoundTrip(names[1..]);
      FormBlockRoundTrip(names[0], FormBlocks(names[1..]), ExpectedForms(names[1..]));
      ExpectedFormsCons(names);
    }
  }

  /**
   * The forms file declares exactly one form per model, in order: `<Name>Form`, with
   * `model = <Name>` and `fields = '__all__'`.
   */
  lemma FormsRoundTrip(models: seq<Model>)
    requires NamesArePlain(ModelNames(models))
    ensures ParseFormsCode(GenerateFormsCode(models)) == Some(ExpectedForms(ModelNames(models)))
  {
    DropPrefixOf(Header, FormBlocks(ModelNames(models)));
    FormBlocksRoundTrip(ModelNames(models));
  }
}
