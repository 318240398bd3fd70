/**
 * Where `generate_app_files` gets the name it hands to `generate_apps_code` and
 * `generate_urls_code`: the last `/`-segment of the app directory path.
 */
module Scaffold {
  import opened Results
  import opened PyStr
  import opened Spec
  import ModelsEmitter
  import ViewsEmitter
  import AdminEmitter
  import FormsEmitter
  import AppsEmitter
  import TestsEmitter
  import ProjectUrlsEmitter
  import SettingsPatcher

  /** POSIX `os.path.join(a, b)`. */
  function PathJoin(a: string, b: string): (r: string)
    ensures EndsWith(r, b)
  {
    if StartsWith(b, "/") then b
    else if a == "" || EndsWith(a, "/") then a + b
    else a + "/" + b
  }

  /** `os.path.join(base_path, project_name, app_name)` */
  function AppPath(basePath: string, project: string, app: string): string {
    PathJoin(PathJoin(basePath, project), app)
  }

  /** `f"generated_projects/{project_name}"` */
  function BasePath(project: string): string {
    "generated_projects/" + project
  }

  /** `app_path.split("/")[-1]`: the name handed to the apps and project-route emitters. */
  function AppDirName(appPath: string): (r: string)
    ensures '/' !in r && |r| <= |appPath| && r == appPath[|appPath| - |r|..]
    ensures '/' !in appPath ==> r == appPath
    ensures |r| < |appPath| ==> appPath[|appPath| - |r| - 1] == '/'
  {
    LastSegmentSpec(appPath, '/');
    LastSegment(appPath, '/')
  }

  /** Joining onto a directory does not change the last `/`-segment of the joined part. */
  lemma {:induction false} JoinLastSegment(a: string, b: string)
    ensures LastSegment(PathJoin(a, b), '/') == LastSegment(b, '/')
  {
    if !StartsWith(b, "/") {
      var p := if a == "" || EndsWith(a, "/") then a else a + "/";
      assert PathJoin(a, b) == p + b;
      assert p == "" || p[|p| - 1] == '/';
      AppendedLastSegment(p, b, '/');
    }
  }

  /**
   * The name the apps and project-route emitters receive is the app name's own last
   * `/`-segment; for an app name without `/` it is the app name itself.
   */
  lemma AppDirNameOfAppPath(basePath: string, project: string, app: string)
    ensures AppDirName(AppPath(basePath, project, app)) == LastSegment(app, '/')
    ensures '/' !in app ==> AppDirName(AppPath(basePath, project, app)) == app
  {
    JoinLastSegment(PathJoin(basePath, project), app);
    LastSegmentSpec(app, '/');
  }

  /**
   * For an app name with no `/`, `\` or `.`, the settings entry, the apps config `name` and the
   * project include all use the app name unchanged, and the config class is its capitalisation.
   */
  lemma NamesAgree(basePath: string, project: string, app: string)
    requires '/' !in app && '\\' !in app && '.' !in app
    ensures var name := AppDirName(AppPath(basePath, project, app));
      && name == app
      && AppsEmitter.SanitizeAppName(name) == app
      && AppsEmitter.ClassStem(AppsEmitter.SanitizeAppName(name)) == Capitalize(app)
      && ProjectUrlsEmitter.UrlsAppLabel(name) == app
  {
    AppDirNameOfAppPath(basePath, project, app);
    AppsEmitter.SanitizeFixesPlain(app);
    AppsEmitter.StemIsScan(app);
    AppsEmitter.ScanCapitalize(app);
    ProjectUrlsEmitter.UrlsAppLabelSpec(app);
  }

  /**
   * Where `\\` is the separator `os.path.join` inserts (Windows), the app path is
   * `generated_projects/<project>\\<project>\\<app>`; its last `/`-segment keeps both
   * `\\`-joined parts, so the apps config `name` becomes `<project>.<project>.<app>` while the
   * project route table includes `<app>.urls`.
   */
  lemma BackslashJoinNamesDisagree(project: string, app: string)
    requires project != ""
    requires '/' !in project && '\\' !in project && '/' !in app && '\\' !in app
    ensures var name := AppDirName(BasePath(project) + "\\" + project + "\\" + app);
      && name == project + "\\" + project + "\\" + app
      && AppsEmitter.SanitizeAppName(name) == project + "." + project + "." + app
      && ProjectUrlsEmitter.UrlsAppLabel(name) == app
      && AppsEmitter.SanitizeAppName(name) != ProjectUrlsEmitter.UrlsAppLabel(name)
  {
    var t := project + "\\" + project + "\\" + app;
    var head := project + "\\" + project + "\\";
    assert t == head + app;
    assert BasePath(project) + "\\" + project + "\\" + app == "generated_projects/" + t;
    assert '/' !in head;
    assert '/' !in t;
    AppendedLastSegment("generated_projects/", t, '/');
    LastSegmentSpec(t, '/');
    assert AppDirName("generated_projects/" + t) == t;
    assert app == t[|t| - |app|..];
    LastSegmentUnique(t, '\\', app);
    AppsEmitter.SanitizeAppend(head, app);
    AppsEmitter.SanitizeAppend(project + "\\" + project, "\\");
    AppsEmitter.SanitizeAppend(project + "\\", project);
    AppsEmitter.SanitizeAppend(project, "\\");
    AppsEmitter.SanitizeFixesPlain(project);
    AppsEmitter.SanitizeFixesPlain(app);
    AppsEmitter.SanitizeSpec("\\");
    assert AppsEmitter.SanitizeAppName("\\") == ".";
  }

  /** The texts `generate_app_files` writes, and the patched settings lines. */
  datatype AppFiles = AppFiles(
    models: string,
    views: string,
    urls: string,
    admin: string,
    forms: string,
    settings: seq<string>,
    apps: string,
    projectUrls: string,
    tests: string)

  /**
   * `generate_app_files` for the app directory `create_django_project` makes, with the file
   * writes left out: every emitted text, or the KeyError of a missing endpoint `path`.
   */
  function GenerateAppFiles(spec: Specification, settings: seq<string>): (r: Result<AppFiles>)
    ensures r.Err? <==> exists i :: 0 <= i < |spec.endpoints| && !ViewsEmitter.HasPath(spec.endpoints[i])
    ensures r.Err? ==> r.error == KeyError("path")
    ensures r.Ok? ==> |r.value.settings| == |settings|
  {
    match ViewsEmitter.GenerateViewsAndUrlsCode(spec.endpoints)
    case Err(err) => Err(err)
    case Ok((views, urls)) =>
      var name := AppDirName(AppPath(BasePath(spec.projectName), spec.projectName, spec.appName));
      Ok(AppFiles(
        ModelsEmitter.GenerateModelsCode(spec.models),
        views,
        urls,
        AdminEmitter.GenerateAdminCode(spec.models),
        FormsEmitter.GenerateFormsCode(spec.models),
        SettingsPatcher.AddAppToInstalledApps(settings, spec.appName),
        AppsEmitter.GenerateAppsCode(name),
        ProjectUrlsEmitter.GenerateUrlsCode(name),
        TestsEmitter.GenerateTestsCode()))
  }

  /**
   * For an app name without `/`, `\\`, `.` or a line break, the three files that name the app
   * agree: the settings entry is `'<app>'`, the apps config is `<App>Config` with `name = '<app>'`,
   * and the project route table includes `<app>.urls` after the admin site.
   */
  lemma AppFilesAgree(spec: Specification, settings: seq<string>)
    requires GenerateAppFiles(spec, settings).Ok?
    requires SettingsPatcher.FirstAppsLine(settings).Some?
    requires '/' !in spec.appName && '\\' !in spec.appName && '.' !in spec.appName && '\n' !in spec.appName
    ensures var files := GenerateAppFiles(spec, settings).value;
      var app := spec.appName;
      && EndsWith(files.settings[SettingsPatcher.FirstAppsLine(settings).value], " '" + app + "',\n")
      && AppsEmitter.ParseAppsCode(files.apps) == Some((Capitalize(app), app))
      && ProjectUrlsEmitter.ParseUrlsCode(files.projectUrls)
         == Some([ProjectUrlsEmitter.Entry("admin/", ProjectUrlsEmitter.AdminTarget),
                  ProjectUrlsEmitter.Entry("", ProjectUrlsEmitter.IncludeTarget(app))])
  {
    var app := spec.appName;
    NamesAgree(BasePath(spec.projectName), spec.projectName, app);
    AppsEmitter.AppsRoundTrip(app);
    ProjectUrlsEmitter.UrlsRoundTrip(app);
  }
}
