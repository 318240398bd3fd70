/**
 * `generate_admin_code`: one `admin.site.register(<Model>)` line per model, in order. Only the
 * model names are read; the field specifications play no part.
 */
module AdminEmitter {
  import opened Results
  import opened PyStr
  import opened Spec

  const Header := "from django.contrib import admin\nfrom .models import *\n\n"

  /** `generate_admin_code(models_spec)`: the loop runs over `models_spec.keys()`. */
  function GenerateAdminCode(models: seq<Model>): (code: string)
    ensures StartsWith(code, Header)
  {
    Header + RegisterLines(ModelNames(models))
  }

  function RegisterEntry(name: string): string {
    "admin.site.register(" + name + ")"
  }

  function RegisterLines(names: seq<string>): string {
    if names == [] then "" else RegisterEntry(names[0]) + "\n" + RegisterLines(names[1..])
  }

  // Reading an admin file back.

  function ParseRegisterLine(line: string): Option<string> {
    match DropPrefix(line, "admin.site.register(")
    case None => None
    case Some(t) => DropSuffix(t, ")")
  }

  function ParseRegisterLines(s: string): Option<seq<string>>
    decreases |s|
  {
    if s == "" then Some([])
    else
      match TakeLine(s)
      case None => None
      case Some((line, rest)) =>
        match ParseRegisterLine(line)
        case None => None
        case Some(name) =>
          match ParseRegisterLines(rest)
          case None => None
          case Some(names) => Some([name] + names)
  }

  /** The models an admin file registers, in file order. */
  function ParseAdminCode(code: string): Option<seq<string>> {
    match DropPrefix(code, Header)
    case None => None
    case Some(body) => ParseRegisterLines(body)
  }

  predicate NamesArePlain(names: seq<string>) {
    forall i :: 0 <= i < |names| ==> '\n' !in names[i]
  }

  lemma RegisterEntryRoundTrip(name: string)
    requires '\n' !in name
    ensures '\n' !in RegisterEntry(name)
    ensures ParseRegisterLine(RegisterEntry(name)) == Some(name)
  {
    AbsentFromConcat('\n', "admin.site.register(", name, ")");
    assert RegisterEntry(name) == "admin.site.register(" + (name + ")");
    DropPrefixOf("admin.site.register(", name + ")");
    DropSuffixOf(name, ")");
  }

  lemma ParseRegisterLinesCons(line: string, rest: string, name: string, names: seq<string>)
    requires '\n' !in line
    requires ParseRegisterLine(line) == Some(name)
    requires ParseRegisterLines(rest) == Some(names)
    ensures ParseRegisterLines(line + "\n" + rest) == Some([name] + names)
  {
    TakeLineOf(line, rest);
  }

  lemma {:induction false} RegisterLinesRoundTrip(names: seq<string>)
    requires NamesArePlain(names)
    ensures ParseRegisterLines(RegisterLines(names)) == Some(names)
    decreases |names|
  {
    if names != [] {
      assert NamesArePlain(names[1..]) by {
        assert forall i :: 0 <= i < |names[1..]| ==> names[1..][i] == names[i + 1];
      }
      RegisterLinesRoundTrip(names[1..]);
      RegisterEntryRoundTrip(names[0]);
      assert RegisterLines(names) == RegisterEntry(names[0]) + "\n" + RegisterLines(names[1..]);
      ParseRegisterLinesCons(RegisterEntry(names[0]), RegisterLines(names[1..]), names[0], names[1..]);
      assert [names[0]] + names[1..] == names;
    }
  }

  /** The admin file registers exactly the models of the specification, once each, in order. */
  lemma AdminRoundTrip(models: seq<Model>)
    requires NamesArePlain(ModelNames(models))
    ensures ParseAdminCode(GenerateAdminCode(models)) == Some(ModelNames(models))
  {
    DropPrefixOf(Header, RegisterLines(ModelNames(models)));
    RegisterLinesRoundTrip(ModelNames(models));
  }

  /** Two specifications with the same model names, in the same order, give the same admin file. */
  lemma AdminIgnoresFields(a: seq<Model>, b: seq<Model>)
    requires |a| == |b|
    requires forall i :: 0 <= i < |a| ==> a[i].name == b[i].name
    ensures GenerateAdminCode(a) == GenerateAdminCode(b)
  {
    assert ModelNames(a) == ModelNames(b);
  }
}
