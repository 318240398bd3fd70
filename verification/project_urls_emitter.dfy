/**
 * `generate_urls_code`: the project-level route table, which mounts the admin site first and
 * then includes the app's own route table under the empty prefix.
 */
module ProjectUrlsEmitter {
  import opened Results
  import opened PyStr

  const Header := "from django.contrib import admin\nfrom django.urls import path, include\n\nurlpatterns = [\n"

  /** `app_name.split("/")[-1].split("\\")[-1]` */
  function UrlsAppLabel(app: string): (r: string)
    ensures |r| <= |app|
  {
    LastSegment(LastSegment(app, '/'), '\\')
  }

  /** One `path('<prefix>', <target>),` entry, without its line break. */
  function PathEntry(prefix: string, target: string): string {
    "    path('" + prefix + "', " + target + "),"
  }

  const AdminTarget := "admin.site.urls"

  function IncludeTarget(appLabel: string): string {
    "include('" + appLabel + ".urls')"
  }

  /** The two entries and the closing bracket. */
  function Entries(appLabel: string): string {
    PathEntry("admin/", AdminTarget) + "\n" + (PathEntry("", IncludeTarget(appLabel)) + "\n" + ("]" + "\n"))
  }

  /** `generate_urls_code(app_name)` */
  function GenerateUrlsCode(app: string): (code: string)
    ensures StartsWith(code, Header)
  {
    DropPrefixOf(Header, Entries(UrlsAppLabel(app)));
    Header + Entries(UrlsAppLabel(app))
  }

  lemma SuffixOfSuffix(a: string, b: string, c: string)
    requires |b| <= |a| && b == a[|a| - |b|..]
    requires |c| <= |b| && c == b[|b| - |c|..]
    ensures c == a[|a| - |c|..]
  {
    assert forall k :: 0 <= k < |c| ==> c[k] == a[|a| - |c| + k];
  }

  lemma SuffixFree(a: string, b: string, x: char)
    requires |b| <= |a| && b == a[|a| - |b|..] && x !in a
    ensures x !in b
  {
    assert forall k :: 0 <= k < |b| ==> b[k] == a[|a| - |b| + k];
  }

  /**
   * `r` is the longest separator-free suffix of `app`: it has neither separator, ends `app`,
   * and is either all of it or preceded by a separator (so it is `app` when `app` has none).
   */
  predicate IsLabelOf(app: string, r: string) {
    && '/' !in r && '\\' !in r
    && |r| <= |app| && r == app[|app| - |r|..]
    && (|r| < |app| ==> app[|app| - |r| - 1] == '/' || app[|app| - |r| - 1] == '\\')
    && ('/' !in app && '\\' !in app ==> r == app)
  }

  /**
   * The label facts for any `s` that is the last `/`-segment of `app` and any `r` that is the
   * last `\\`-segment of `s`.
   */
  lemma LabelOfSegments(app: string, s: string, r: string)
    requires IsLastSegment(app, '/', s)
    requires IsLastSegment(s, '\\', r)
    ensures IsLabelOf(app, r)
  {
    SuffixFree(s, r, '/');
    SuffixOfSuffix(app, s, r);
    if |r| < |s| {
      assert s[|s| - |r| - 1] == app[|app| - |r| - 1];
    }
    if '/' !in app && '\\' !in app {
      SuffixFree(app, s, '\\');
    }
  }

  /** The label is the longest separator-free suffix of the app name. */
  lemma UrlsAppLabelSpec(app: string)
    ensures IsLabelOf(app, UrlsAppLabel(app))
  {
    var s := LastSegment(app, '/');
    LastSegmentSpec(app, '/');
    LastSegmentSpec(s, '\\');
    LabelOfSegments(app, s, LastSegment(s, '\\'));
  }

  /** Taking the label of a label changes nothing. */
  lemma UrlsAppLabelIdempotent(app: string)
    ensures UrlsAppLabel(UrlsAppLabel(app)) == UrlsAppLabel(app)
  {
    UrlsAppLabelSpec(app);
    UrlsAppLabelSpec(UrlsAppLabel(app));
  }

  // Reading a project route table back.

  /** A route entry: its prefix and the view or include it points at. */
  datatype Entry = Entry(prefix: string, target: string)

  function ParseEntry(line: string): Option<Entry> {
    match DropPrefix(line, "    path('")
    case None => None
    case Some(t) =>
      match CutAt(t, '\'')
      case None => None
      case Some((prefix, u)) =>
        match DropPrefix(u, ", ")
        case None => None
        case Some(v) =>
          match DropSuffix(v, "),")
          case None => None
          case Some(target) => Some(Entry(prefix, target))
  }

  function ParseEntries(s: string): Option<seq<Entry>>
    decreases |s|
  {
    match TakeLine(s)
    case None => None
    case Some((line, rest)) =>
      if line == "]" then (if rest == "" then Some([]) else None)
      else
        match ParseEntry(line)
        case None => None
        case Some(e) =>
          match ParseEntries(rest)
          case None => None
          case Some(es) => Some([e] + es)
  }

  /** The entries of a project route table, in file order. */
  function ParseUrlsCode(code: string): Option<seq<Entry>> {
    match DropPrefix(code, Header)
    case None => None
    case Some(body) => ParseEntries(body)
  }

  /** The module an `include('<module>')` target names. */
  function IncludedModule(target: string): Option<string> {
    match DropPrefix(target, "include('")
    case None => None
    case Some(t) => DropSuffix(t, "')")
  }

  lemma PathEntryRoundTrip(prefix: string, target: string)
    requires '\'' !in prefix && '\n' !in prefix && '\n' !in target
    ensures '\n' !in PathEntry(prefix, target) && PathEntry(prefix, target) != "]"
    ensures ParseEntry(PathEntry(prefix, target)) == Some(Entry(prefix, target))
  {
    var line := PathEntry(prefix, target);
    AbsentFromConcat('\n', "    path('" + prefix, "', ", target + "),");
    assert line == "    path('" + prefix + "', " + (target + "),");
    assert line[0] == ' ';
    var v := target + "),";
    var u := ", " + v;
    assert line == "    path('" + (prefix + ['\''] + u);
    DropPrefixOf("    path('", prefix + ['\''] + u);
    CutAtOf(prefix, '\'', u);
    DropPrefixOf(", ", v);
    DropSuffixOf(target, "),");
  }

  lemma IncludeTargetRoundTrip(appLabel: string)
    requires '\n' !in appLabel
    ensures '\n' !in IncludeTarget(appLabel)
    ensures IncludedModule(IncludeTarget(appLabel)) == Some(appLabel + ".urls")
  {
    AbsentFromConcat('\n', "include('", appLabel, ".urls')");
    assert IncludeTarget(appLabel) == "include('" + ((appLabel + ".urls") + "')");
    DropPrefixOf("include('", (appLabel + ".urls") + "')");
    DropSuffixOf(appLabel + ".urls", "')");
  }

  lemma ParseEntriesCons(line: string, rest: string, e: Entry, es: seq<Entry>)
    requires '\n' !in line && line != "]"
    requires ParseEntry(line) == Some(e)
    requires ParseEntries(rest) == Some(es)
    ensures ParseEntries(line + "\n" + rest) == Some([e] + es)
  {
    TakeLineOf(line, rest);
  }

  lemma ParseEntriesEnd()
    ensures ParseEntries("]" + "\n") == Some([])
  {
    TakeLineOf("]", "");
    assert "]" + "\n" + "" == "]" + "\n";
  }

  lemma TwoEntriesRoundTrip(p1: string, t1: string, p2: string, t2: string)
    requires '\'' !in p1 && '\n' !in p1 && '\n' !in t1
    requires '\'' !in p2 && '\n' !in p2 && '\n' !in t2
    ensures ParseEntries(PathEntry(p1, t1) + "\n" + (PathEntry(p2, t2) + "\n" + ("]" + "\n")))
         == Some([Entry(p1, t1), Entry(p2, t2)])
  {
    var end := "]" + "\n";
    var l1, l2 := PathEntry(p1, t1), PathEntry(p2, t2);
    var e1, e2 := Entry(p1, t1), Entry(p2, t2);
    PathEntryRoundTrip(p1, t1);
    PathEntryRoundTrip(p2, t2);
    ParseEntriesEnd();
    ParseEntriesCons(l2, end, e2, []);
    assert [e2] + [] == [e2];
    ParseEntriesCons(l1, l2 + "\n" + end, e1, [e2]);
    assert [e1] + [e2] == [e1, e2];
  }

  lemma EntriesRoundTrip(appLabel: string)
    requires '\n' !in appLabel
    ensures ParseEntries(Entries(appLabel)) == Some([Entry("admin/", AdminTarget), Entry("", IncludeTarget(appLabel))])
  {
    IncludeTargetRoundTrip(appLabel);
    assert '\'' !in "admin/" && '\n' !in "admin/" && '\n' !in AdminTarget;
    TwoEntriesRoundTrip("admin/", AdminTarget, "", IncludeTarget(appLabel));
  }

  lemma LabelFree(app: string)
    requires '\n' !in app
    ensures '\n' !in UrlsAppLabel(app)
  {
    UrlsAppLabelSpec(app);
    SuffixFree(app, UrlsAppLabel(app), '\n');
  }

  /**
   * The project route table holds two entries: the admin site under `admin/` first, then the
   * include of `<label>.urls` under the empty prefix.
   */
  lemma UrlsRoundTrip(app: string)
    requires '\n' !in app
    ensures ParseUrlsCode(GenerateUrlsCode(app))
         == Some([Entry("admin/", AdminTarget), Entry("", IncludeTarget(UrlsAppLabel(app)))])
  {
    LabelFree(app);
    DropPrefixOf(Header, Entries(UrlsAppLabel(app)));
    EntriesRoundTrip(UrlsAppLabel(app));
  }

  /** The included module is `<label>.urls`, and the label carries no path separator. */
  lemma IncludeHasNoSeparator(app: string)
    requires '\n' !in app
    ensures ParseUrlsCode(GenerateUrlsCode(app)).Some?
    ensures var entries := ParseUrlsCode(GenerateUrlsCode(app)).value;
      && |entries| == 2
      && entries[0] == Entry("admin/", AdminTarget)
      && IncludedModule(entries[1].target) == Some(UrlsAppLabel(app) + ".urls")
      && '/' !in UrlsAppLabel(app) && '\\' !in UrlsAppLabel(app)
  {
    UrlsRoundTrip(app);
    UrlsAppLabelSpec(app);
    LabelFree(app);
    IncludeTargetRoundTrip(UrlsAppLabel(app));
  }
}
