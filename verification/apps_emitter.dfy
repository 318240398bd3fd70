/**
 * `generate_apps_code`: the app's `AppConfig` subclass. Path separators in the app name become
 * dots; the class name is the dot-separated pieces, each capitalised, run together, then `Config`.
 */
module AppsEmitter {
  import opened Results
  import opened PyStr

  const Header := "from django.apps import AppConfig\n\n\n"
  const AutoFieldLine := "    default_auto_field = " + "'django.db.models.BigAutoField'"

  /** `app_name.replace("\\", ".").replace("/", ".")` */
  function SanitizeAppName(app: string): (r: string)
    ensures |r| == |app|
    ensures '/' !in r && '\\' !in r
  {
    ReplaceChar(ReplaceChar(app, '\\', '.'), '/', '.')
  }

  /** `''.join(part.capitalize() for part in parts)` */
  function JoinCapitalized(parts: seq<string>): string {
    if parts == [] then "" else Capitalize(parts[0]) + JoinCapitalized(parts[1..])
  }

  /** The class name stem: the capitalised `.`-pieces of the sanitised name, concatenated. */
  function ClassStem(sanitized: string): string {
    JoinCapitalized(Split(sanitized, '.'))
  }

  function ClassLine(stem: string): string {
    "class " + stem + "Config(AppConfig):"
  }

  function NameLine(sanitized: string): string {
    "    name = '" + sanitized + "'"
  }

  /** `generate_apps_code(app_name)` */
  function GenerateAppsCode(app: string): (code: string)
    ensures StartsWith(code, Header)
  {
    var sanitized := SanitizeAppName(app);
    var code := Header + (ClassLine(ClassStem(sanitized)) + "\n" + (AutoFieldLine + "\n" + (NameLine(sanitized) + "\n")));
    assert code[..|Header|] == Header;
    code
  }

  // The class-name stem as one left-to-right scan: a letter is upper-cased right after the start
  // or a dot and lower-cased elsewhere, and dots are dropped.

  function ScanStem(s: string, atStart: bool): string {
    if s == [] then ""
    else if s[0] == '.' then ScanStem(s[1..], true)
    else [if atStart then Upper(s[0]) else Lower(s[0])] + ScanStem(s[1..], false)
  }

  lemma {:induction false} ScanLower(s: string)
    requires '.' !in s
    ensures ScanStem(s, false) == LowerAll(s)
  {
    if s != [] {
      assert forall x :: x in s[1..] ==> x in s;
      ScanLower(s[1..]);
    }
  }

  lemma ScanCapitalize(s: string)
    requires '.' !in s
    ensures ScanStem(s, true) == Capitalize(s)
  {
    if s != [] {
      assert forall x :: x in s[1..] ==> x in s;
      ScanLower(s[1..]);
    }
  }

  lemma {:induction false} ScanAcrossDot(a: string, b: string, atStart: bool)
    requires '.' !in a
    ensures ScanStem(a + ['.'] + b, atStart) == ScanStem(a, atStart) + ScanStem(b, true)
  {
    var s := a + ['.'] + b;
    if a == [] {
      assert s[0] == '.' && s[1..] == b;
    } else {
      assert s[0] == a[0] && s[1..] == a[1..] + ['.'] + b;
      NotInTail(a, '.');
      ScanAcrossDot(a[1..], b, false);
    }
  }

  lemma NotInTail(s: string, c: char)
    requires s != [] && c !in s
    ensures c !in s[1..]
  {
    assert forall i :: 0 <= i < |s[1..]| ==> s[1..][i] == s[i + 1];
  }

  /** The capitalise-and-join over `split('.')` is the single scan. */
  lemma {:induction false} StemIsScan(s: string)
    ensures ClassStem(s) == ScanStem(s, true)
    decreases |s|
  {
    var k := IndexOf(s, '.');
    if k == |s| {
      assert Split(s, '.') == [s];
      assert '.' !in s;
      ScanCapitalize(s);
      assert JoinCapitalized([s]) == Capitalize(s) + "";
    } else {
      var a, b := s[..k], s[k + 1..];
      assert s == a + ['.'] + b;
      assert '.' !in a;
      assert Split(s, '.') == [a] + Split(b, '.');
      StemIsScan(b);
      ScanAcrossDot(a, b, true);
      ScanCapitalize(a);
      assert ([a] + Split(b, '.'))[1..] == Split(b, '.');
    }
  }

  /** The scan keeps every character except the dots, and maps each through a case change. */
  lemma {:induction false} ScanShape(s: string, atStart: bool)
    ensures |ScanStem(s, atStart)| + Count(s, '.') == |s|
    ensures forall c :: !('a' <= c <= 'z') && !('A' <= c <= 'Z') && c !in s ==> c !in ScanStem(s, atStart)
  {
    if s != [] {
      assert forall x :: x in s[1..] ==> x in s;
      ScanShape(s[1..], true);
      ScanShape(s[1..], false);
    }
  }

  /**
   * The class-name stem has no dot, and it is exactly as long as the sanitised name without
   * its dots; characters other than letters appear in it only if they appear in the name.
   */
  lemma ClassStemShape(s: string)
    ensures '.' !in ClassStem(s)
    ensures |ClassStem(s)| + Count(s, '.') == |s|
    ensures forall c :: !('a' <= c <= 'z') && !('A' <= c <= 'Z') && c !in s ==> c !in ClassStem(s)
  {
    StemIsScan(s);
    ScanShape(s, true);
    assert forall c :: c in ScanStem(s, true) ==> c != '.' by {
      ScanNoDot(s, true);
    }
  }

  lemma {:induction false} ScanNoDot(s: string, atStart: bool)
    ensures '.' !in ScanStem(s, atStart)
  {
    if s != [] {
      ScanNoDot(s[1..], true);
      ScanNoDot(s[1..], false);
    }
  }

  /** Each character is replaced by `.` exactly when it is a path separator. */
  lemma SanitizeSpec(app: string)
    ensures forall i :: 0 <= i < |app| ==>
      SanitizeAppName(app)[i] == (if app[i] == '/' || app[i] == '\\' then '.' else app[i])
  {
  }

  /** The name is left alone exactly when it has no separators. */
  lemma SanitizeFixesPlain(app: string)
    ensures SanitizeAppName(app) == app <==> '/' !in app && '\\' !in app
  {
    SanitizeSpec(app);
    if '/' !in app && '\\' !in app {
      assert forall i :: 0 <= i < |app| ==> SanitizeAppName(app)[i] == app[i];
    }
  }

  /** Sanitising works piece by piece. */
  lemma SanitizeAppend(a: string, b: string)
    ensures SanitizeAppName(a + b) == SanitizeAppName(a) + SanitizeAppName(b)
  {
    SanitizeSpec(a);
    SanitizeSpec(b);
    SanitizeSpec(a + b);
    var l := SanitizeAppName(a + b);
    var r := SanitizeAppName(a) + SanitizeAppName(b);
    assert forall i :: 0 <= i < |a| ==> l[i] == r[i];
    assert forall i :: |a| <= i < |a + b| ==> l[i] == r[i];
  }

  /** Sanitising twice is sanitising once. */
  lemma SanitizeIdempotent(app: string)
    ensures SanitizeAppName(SanitizeAppName(app)) == SanitizeAppName(app)
  {
    SanitizeFixesPlain(SanitizeAppName(app));
  }

  // Reading an apps file back.

  function ParseClassLine(line: string): Option<string> {
    match DropPrefix(line, "class ")
    case None => None
    case Some(t) => DropSuffix(t, "Config(AppConfig):")
  }

  function ParseNameLine(line: string): Option<string> {
    match DropPrefix(line, "    name = '")
    case None => None
    case Some(t) => DropSuffix(t, "'")
  }

  /** The config class name stem and the `name` attribute an apps file declares. */
  function ParseAppsCode(code: string): Option<(string, string)> {
    match DropPrefix(code, Header)
    case None => None
    case Some(body) =>
      match TakeLine(body)
      case None => None
      case Some((classLine, s1)) =>
        match TakeLine(s1)
        case None => None
        case Some((autoLine, s2)) =>
          match TakeLine(s2)
          case None => None
          case Some((nameLine, rest)) =>
            if autoLine != AutoFieldLine || rest != "" then None
            else
              match (ParseClassLine(classLine), ParseNameLine(nameLine))
              case (Some(stem), Some(name)) => Some((stem, name))
              case _ => None
  }

  lemma ClassLineRoundTrip(stem: string)
    requires '\n' !in stem
    ensures '\n' !in ClassLine(stem)
    ensures ParseClassLine(ClassLine(stem)) == Some(stem)
  {
    AbsentFromConcat('\n', "class ", stem, "Config(AppConfig):");
    assert ClassLine(stem) == "class " + (stem + "Config(AppConfig):");
    DropPrefixOf("class ", stem + "Config(AppConfig):");
    DropSuffixOf(stem, "Config(AppConfig):");
  }

  lemma NameLineRoundTrip(name: string)
    requires '\n' !in name
    ensures '\n' !in NameLine(name)
    ensures ParseNameLine(NameLine(name)) == Some(name)
  {
    AbsentFromConcat('\n', "    name = '", name, "'");
    assert NameLine(name) == "    name = '" + (name + "'");
    DropPrefixOf("    name = '", name + "'");
    DropSuffixOf(name, "'");
  }

  lemma AutoFieldLineFree()
    ensures '\n' !in AutoFieldLine
  {
    assert '\n' !in "    default_auto_field = " && '\n' !in "'django.db.models.BigAutoField'";
  }

  lemma ParseAppsBody(classLine: string, nameLine: string, stem: string, name: string)
    requires '\n' !in classLine && '\n' !in AutoFieldLine && '\n' !in nameLine
    requires ParseClassLine(classLine) == Some(stem)
    requires ParseNameLine(nameLine) == Some(name)
    ensures ParseAppsCode(Header + (classLine + "\n" + (AutoFieldLine + "\n" + (nameLine + "\n" + ""))))
         == Some((stem, name))
  {
    TakeLineOf(nameLine, "");
    TakeLineOf(AutoFieldLine, nameLine + "\n" + "");
    TakeLineOf(classLine, AutoFieldLine + "\n" + (nameLine + "\n" + ""));
    DropPrefixOf(Header, classLine + "\n" + (AutoFieldLine + "\n" + (nameLine + "\n" + "")));
  }

  lemma NamesFree(app: string)
    requires '\n' !in app
    ensures '\n' !in SanitizeAppName(app)
    ensures '\n' !in ClassStem(SanitizeAppName(app))
  {
    SanitizeSpec(app);
    ClassStemShape(SanitizeAppName(app));
  }

  lemma AppsCodeShape(app: string)
    ensures var sanitized := SanitizeAppName(app);
      GenerateAppsCode(app)
      == Header + (ClassLine(ClassStem(sanitized)) + "\n" + (AutoFieldLine + "\n" + (NameLine(sanitized) + "\n" + "")))
  {
    var line := NameLine(SanitizeAppName(app));
    assert line + "\n" + "" == line + "\n";
  }

  /**
   * The apps file declares the class `<stem>Config` whose stem is the capitalised pieces of the
   * sanitised name, and sets `name` to the sanitised name.
   */
  lemma AppsRoundTrip(app: string)
    requires '\n' !in app
    ensures ParseAppsCode(GenerateAppsCode(app))
         == Some((ClassStem(SanitizeAppName(app)), SanitizeAppName(app)))
  {
    var sanitized := SanitizeAppName(app);
    var stem := ClassStem(sanitized);
    NamesFree(app);
    ClassLineRoundTrip(stem);
    NameLineRoundTrip(sanitized);
    AutoFieldLineFree();
    AppsCodeShape(app);
    ParseAppsBody(ClassLine(stem), NameLine(sanitized), stem, sanitized);
  }
}
