/**
 * `add_app_to_installed_apps`: the settings file as the list of its lines (`readlines()`), and
 * the edit that appends `'<app>',` to the first line starting with `INSTALLED_APPS`.
 */
module SettingsPatcher {
  import opened Results
  import opened PyStr

  const Keyword := "INSTALLED_APPS"

  /** The characters `rstrip(",\n")` removes. */
  const Trailer: set<char> := {',', '\n'}

  predicate IsAppsLine(line: string) {
    StartsWith(line, Keyword)
  }

  /** The index the `for ... break` loop stops at, if any line starts with the keyword. */
  function FirstAppsLine(lines: seq<string>): (r: Option<nat>)
    ensures r.Some? ==> r.value < |lines| && IsAppsLine(lines[r.value])
    ensures r.Some? ==> forall j :: 0 <= j < r.value ==> !IsAppsLine(lines[j])
    ensures r.None? <==> forall j :: 0 <= j < |lines| ==> !IsAppsLine(lines[j])
  {
    if lines == [] then None
    else if IsAppsLine(lines[0]) then Some(0)
    else
      match FirstAppsLine(lines[1..])
      case None => None
      case Some(i) => Some(i + 1)
  }

  /** The line as it stands before the `rstrip`: itself if it ends in `,\n`, else stripped plus `,\n`. */
  function NormalizeLine(line: string): (r: string)
    ensures EndsWith(r, ",\n")
  {
    if EndsWith(line, ",\n") then line
    else
      var r := Strip(line) + ",\n";
      assert r[|r| - 2..] == ",\n";
      r
  }

  /** `installed_apps_code.rstrip(",\n") + f" '{app_name}',\n"` */
  function PatchLine(line: string, app: string): (r: string)
    ensures EndsWith(r, " '" + app + "',\n")
  {
    var head := RStrip(NormalizeLine(line), Trailer);
    EntryAppended(head, app);
    head + " '" + app + "',\n"
  }

  /** A line built as `head` plus the entry ends with the entry. */
  lemma EntryAppended(head: string, app: string)
    ensures EndsWith(head + " '" + app + "',\n", " '" + app + "',\n")
  {
    var entry := " '" + app + "',\n";
    assert head + " '" + app + "',\n" == head + entry;
    assert (head + entry)[|head|..] == entry;
  }

  /** `add_app_to_installed_apps`, on the lines of the settings file. */
  function AddAppToInstalledApps(lines: seq<string>, app: string): (r: seq<string>)
    ensures |r| == |lines|
    ensures FirstAppsLine(lines).None? ==> r == lines
    ensures FirstAppsLine(lines).Some? ==>
      var i := FirstAppsLine(lines).value;
      r[i] == PatchLine(lines[i], app) && forall k :: 0 <= k < |lines| && k != i ==> r[k] == lines[k]
  {
    match FirstAppsLine(lines)
    case None => lines
    case Some(i) => lines[i := PatchLine(lines[i], app)]
  }

  // What the patched line looks like.

  /**
   * The patched line is the normalised line with its trailing commas and line breaks removed,
   * then ` '<app>',` and a line break; when the line did not end in `,\n`, the part kept is the
   * stripped line without trailing commas.
   */
  lemma PatchLineShape(line: string, app: string)
    ensures var head := RStrip(NormalizeLine(line), Trailer);
      && PatchLine(line, app) == head + " '" + app + "',\n"
      && (head == "" || head[|head| - 1] !in Trailer)
      && (EndsWith(line, ",\n") ==>
            head == line[..|head|] && forall k :: |head| <= k < |line| ==> line[k] in Trailer)
      && (!EndsWith(line, ",\n") ==> head == RStrip(Strip(line), Trailer))
  {
    var n := NormalizeLine(line);
    assert PatchLine(line, app) == RStrip(n, Trailer) + " '" + app + "',\n";
    if EndsWith(line, ",\n") {
      assert n == line;
    } else {
      var t := ",\n";
      assert forall k :: 0 <= k < |t| ==> t[k] in Trailer;
      var st := Strip(line);
      assert n == st + t;
      RStripAppend(st, t, Trailer);
    }
  }

  /** A line that starts with the keyword still does after stripping. */
  lemma StripKeepsKeyword(line: string)
    requires IsAppsLine(line)
    ensures IsAppsLine(Strip(line))
  {
    var l := LStrip(line);
    assert !IsSpace(line[0]);
    assert l == line;
    var r := RStripSpace(l);
    assert !IsSpace(line[|Keyword| - 1]);
    assert |r| >= |Keyword|;
    assert r[..|Keyword|] == line[..|Keyword|];
  }

  /** Removing a tail of trailer characters keeps a prefix whose last character is not one. */
  lemma TrailerStripKeepsPrefix(s: string, p: string)
    requires StartsWith(s, p) && p != "" && p[|p| - 1] !in Trailer
    ensures StartsWith(RStrip(s, Trailer), p)
  {
    var head := RStrip(s, Trailer);
    assert s[|p| - 1] == p[|p| - 1];
    assert |head| >= |p|;
    assert head[..|p|] == s[..|p|];
  }

  lemma AppendKeepsPrefix(s: string, tail: string, p: string)
    requires StartsWith(s, p)
    ensures StartsWith(s + tail, p)
  {
    assert (s + tail)[..|p|] == s[..|p|];
  }

  lemma NormalizeKeepsKeyword(line: string)
    requires IsAppsLine(line)
    ensures IsAppsLine(NormalizeLine(line))
  {
    if !EndsWith(line, ",\n") {
      StripKeepsKeyword(line);
      AppendKeepsPrefix(Strip(line), ",\n", Keyword);
    }
  }

  lemma KeywordEnd()
    ensures Keyword != "" && Keyword[|Keyword| - 1] !in Trailer
  {
    assert Keyword[|Keyword| - 1] == 'S';
  }

  lemma PatchLineSplit(line: string, app: string)
    ensures PatchLine(line, app) == RStrip(NormalizeLine(line), Trailer) + (" '" + app + "',\n")
  {
  }

  /** The patched line still starts with the keyword, so a later patch finds the same line. */
  lemma PatchKeepsKeyword(line: string, app: string)
    requires IsAppsLine(line)
    ensures IsAppsLine(PatchLine(line, app))
  {
    NormalizeKeepsKeyword(line);
    KeywordEnd();
    TrailerStripKeepsPrefix(NormalizeLine(line), Keyword);
    var head := RStrip(NormalizeLine(line), Trailer);
    PatchLineSplit(line, app);
    AppendKeepsPrefix(head, " '" + app + "',\n", Keyword);
  }

  /** A line ending in `',` and a line break loses exactly the comma and the break. */
  lemma StripAfterQuote(s: string)
    requires |s| >= 3 && s[|s| - 3] == '\'' && s[|s| - 2..] == ",\n"
    ensures RStrip(s, Trailer) == s[..|s| - 2]
  {
    var kept := s[..|s| - 2];
    var t := ",\n";
    assert s == kept + t;
    assert forall k :: 0 <= k < |t| ==> t[k] in Trailer;
    RStripAppend(kept, t, Trailer);
    assert kept[|kept| - 1] == '\'';
  }

  lemma EntryEnd(head: string, app: string)
    ensures var r := head + " '" + app + "',\n";
      |r| >= 3 && r[|r| - 3] == '\'' && r[|r| - 2..] == ",\n" && |r| == |head| + |app| + 5
  {
  }

  lemma PatchEndsWithEntry(line: string, app: string)
    ensures var r := PatchLine(line, app);
      && |r| == |RStrip(NormalizeLine(line), Trailer)| + |app| + 5
      && r[|r| - 3] == '\'' && r[|r| - 2] == ',' && r[|r| - 1] == '\n'
      && EndsWith(r, " '" + app + "',\n")
  {
    PatchLineSplit(line, app);
    EntryEnd(RStrip(NormalizeLine(line), Trailer), app);
  }

  /** A line ending in `',` and a line break only grows. */
  lemma PatchGrowsQuotedLine(line: string, app: string)
    requires EndsWith(line, ",\n") && |line| >= 3 && line[|line| - 3] == '\''
    ensures |PatchLine(line, app)| > |line|
  {
    assert NormalizeLine(line) == line;
    StripAfterQuote(line);
    PatchEndsWithEntry(line, app);
  }

  /** Patching always changes the line. */
  lemma PatchChangesLine(line: string, app: string)
    ensures PatchLine(line, app) != line
  {
    PatchEndsWithEntry(line, app);
    if EndsWith(line, ",\n") && |line| >= 3 && line[|line| - 3] == '\'' {
      PatchGrowsQuotedLine(line, app);
    } else if EndsWith(line, ",\n") {
      assert |line| < 3 || line[|line| - 3] != '\'';
    } else {
      assert |line| < 2 || line[|line| - 2] != ',' || line[|line| - 1] != '\n';
    }
  }

  /** Exactly one line changes, the first that starts with the keyword, and no line when none does. */
  lemma AddAppChangesExactly(lines: seq<string>, app: string)
    ensures var r := AddAppToInstalledApps(lines, app);
      forall k :: 0 <= k < |lines| ==> (r[k] != lines[k] <==> FirstAppsLine(lines) == Some(k))
  {
    if FirstAppsLine(lines).Some? {
      PatchChangesLine(lines[FirstAppsLine(lines).value], app);
    }
  }

  /** The settings are left as they are exactly when no line starts with the keyword. */
  lemma NoMatchIffUnchanged(lines: seq<string>, app: string)
    ensures AddAppToInstalledApps(lines, app) == lines <==> FirstAppsLine(lines).None?
  {
    if FirstAppsLine(lines).Some? {
      var i := FirstAppsLine(lines).value;
      PatchChangesLine(lines[i], app);
      assert AddAppToInstalledApps(lines, app)[i] != lines[i];
    }
  }

  /**
   * Patching an already patched line drops the comma after the earlier entry: the two names
   * end up side by side, `'a' 'b',`, which Python reads as one concatenated string.
   */
  lemma PatchTwice(line: string, a: string, b: string)
    ensures PatchLine(PatchLine(line, a), b)
         == RStrip(NormalizeLine(line), Trailer) + " '" + a + "'" + " '" + b + "',\n"
  {
    var head := RStrip(NormalizeLine(line), Trailer);
    PatchLineShape(line, a);
    var p1 := PatchLine(line, a);
    var kept := head + " '" + a + "'";
    assert p1 == kept + ",\n";
    PatchLineShape(p1, b);
    assert NormalizeLine(p1) == p1;
    QuotedEntryStrip(kept);
  }

  /** Text ending in a quote, followed by `,` and a line break, loses exactly those two. */
  lemma QuotedEntryStrip(kept: string)
    requires kept != "" && kept[|kept| - 1] == '\''
    ensures RStrip(kept + ",\n", Trailer) == kept
  {
    var t := ",\n";
    assert forall k :: 0 <= k < |t| ==> t[k] in Trailer;
    RStripAppend(kept, t, Trailer);
  }

  /** Adding the same app twice does not give the same settings as adding it once. */
  lemma NotIdempotent(lines: seq<string>, app: string)
    requires FirstAppsLine(lines).Some?
    ensures AddAppToInstalledApps(AddAppToInstalledApps(lines, app), app) != AddAppToInstalledApps(lines, app)
  {
    var i := FirstAppsLine(lines).value;
    var once := AddAppToInstalledApps(lines, app);
    PatchKeepsKeyword(lines[i], app);
    assert FirstAppsLine(once) == Some(i) by {
      assert forall j :: 0 <= j < i ==> once[j] == lines[j];
      FirstAppsLineUnique(once, i);
    }
    PatchChangesLine(once[i], app);
    assert AddAppToInstalledApps(once, app)[i] != once[i];
  }

  /** An index where the keyword first appears is the one the loop stops at. */
  lemma FirstAppsLineUnique(lines: seq<string>, i: nat)
    requires i < |lines| && IsAppsLine(lines[i])
    requires forall j :: 0 <= j < i ==> !IsAppsLine(lines[j])
    ensures FirstAppsLine(lines) == Some(i)
  {
  }

  /**
   * A line with no surrounding whitespace and no trailing comma, such as the
   * `INSTALLED_APPS = [` line of a fresh Django project, gets the app appended in place.
   */
  lemma PatchOpeningLine(t: string, app: string)
    requires t != "" && !IsSpace(t[0]) && !IsSpace(t[|t| - 1]) && t[|t| - 1] != ','
    ensures PatchLine(t + "\n", app) == t + " '" + app + "',\n"
  {
    var line := t + "\n";
    assert line[|line| - 2] == t[|t| - 1];
    assert !EndsWith(line, ",\n");
    StripLine(t);
    PatchLineShape(line, app);
    assert RStrip(t, Trailer) == t;
  }

  lemma StripLine(t: string)
    requires t != "" && !IsSpace(t[0]) && !IsSpace(t[|t| - 1])
    ensures Strip(t + "\n") == t
  {
    var line := t + "\n";
    assert line[0] == t[0];
    assert SkipSpaces(line, 0) == 0;
    assert line[|t| - 1] == t[|t| - 1];
    assert SkipSpacesBack(line, 0, |line|) == SkipSpacesBack(line, 0, |t|) == |t|;
    assert line[..|t|] == t;
  }

  /** The project template's `INSTALLED_APPS = [` line becomes `INSTALLED_APPS = [ '<app>',`. */
  lemma DjangoTemplateExample(app: string)
    ensures PatchLine("INSTALLED_APPS = [" + "\n", app) == "INSTALLED_APPS = [" + " '" + app + "',\n"
  {
    var t := "INSTALLED_APPS = [";
    assert t[0] == 'I' && t[|t| - 1] == '[';
    PatchOpeningLine(t, app);
  }

  /**
   * A list written on one line, `INSTALLED_APPS = ['a']`, gets the entry after its closing
   * bracket: `INSTALLED_APPS = ['a'] '<app>',`, which is no longer valid Python.
   */
  lemma OneLineListExample(app: string)
    ensures PatchLine("INSTALLED_APPS = ['a']" + "\n", app) == "INSTALLED_APPS = ['a']" + " '" + app + "',\n"
  {
    var t := "INSTALLED_APPS = ['a']";
    assert t[0] == 'I' && t[|t| - 1] == ']';
    PatchOpeningLine(t, app);
  }
}
