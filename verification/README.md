# Django scaffold generator — a Dafny model of `generator/utils.py`

The generator turns a project specification into a set of Django source files. The specification holds a project name, an app name, a mapping from model names to field mappings and a mapping from endpoint names to attribute mappings. This project models the text-producing core of that generator as pure Dafny functions:

- the seven emitters: `generate_models_code`, `generate_views_and_urls_code`, `generate_admin_code`, `generate_forms_code`, `generate_apps_code`, `generate_tests_code` and `generate_urls_code`;
- `add_app_to_installed_apps`, as a function from the lines of `settings.py` to the patched lines;
- the name handed to the apps and project-URL emitters: `create_django_project` builds `app_path` as `os.path.join(base_path, project_name, app_name)` (generator/utils.py:23), and `generate_app_files` takes `app_path.split("/")[-1]` of the path it is given (generator/utils.py:51, 56);
- `generate_app_files` itself, as a function from the decoded specification and the settings lines to every text it writes, given the app path that `create_django_project` joins, or the `KeyError` of a missing endpoint `path`.

Python dicts are modelled as sequences of entries in insertion order, which is the order the generator iterates over them. Strings are `seq<char>`.

Most emitters are paired with a small line-based parser for the text they produce, and a lemma proves that the parser gets back what the emitter was given. For the models file that is every model, in order, with its field names and type expressions verbatim. For the URL files it is every route with its path, view and name. These round trips hold only for "plain" names, meaning names without a line break. For the models file a field's type expression must not hold a line break either, since it is copied verbatim onto one line. Where the parser finds the end of a name by a delimiter, the name also may not contain that delimiter: a space for field names, a quote for paths, a comma for endpoint names in the route table. Without that restriction the text is ambiguous. The views file holds endpoint names alone, so its round trip needs only names without a line break.

Modules, one per file:

| file | module | contents |
|---|---|---|
| results.dfy | Results | `Option`, `Result`, and `Error` (`KeyError`) |
| pystr.dfy | PyStr | the Python `str` operations the generator uses: `startswith`, `endswith`, `strip`, `rstrip`, `split`, `join`, `capitalize`, `replace` |
| spec.dfy | Spec | the decoded specification: `Field`, `Model`, `Endpoint`, `Specification`; `keys()` and `d[key]` |
| models_emitter.dfy | ModelsEmitter | `generate_models_code` and its round trip |
| views_emitter.dfy | ViewsEmitter | `generate_views_and_urls_code`, its `KeyError` path, and round trips for both files |
| admin_emitter.dfy | AdminEmitter | `generate_admin_code` |
| forms_emitter.dfy | FormsEmitter | `generate_forms_code` |
| apps_emitter.dfy | AppsEmitter | `generate_apps_code`: name sanitising and class-name derivation |
| tests_emitter.dfy | TestsEmitter | `generate_tests_code` |
| project_urls_emitter.dfy | ProjectUrlsEmitter | `generate_urls_code` and its app label |
| settings_patcher.dfy | SettingsPatcher | `add_app_to_installed_apps` |
| scaffold.dfy | Scaffold | POSIX `os.path.join`, the `split("/")[-1]` name derivation, and `generate_app_files` without its file writes |

## Model

| member | source | states |
|---|---|---|
| Spec.ModelNames | generator/utils.py:111 | `models_spec.keys()` has one name per model, in the dict's order |
| Spec.Lookup | generator/utils.py:104 | `details['path']` gives a value exactly when some entry has that key, and the value is stored under that key; otherwise the lookup fails, as Python's `KeyError` does |
| ModelsEmitter.GenerateModelsCode | generator/utils.py:90 | the models file starts with the `django.db` import and a blank line |
| ModelsEmitter.ModelsRoundTrip | generator/utils.py:89-96 | parsing the emitted models file recovers every model, in order, with each field name and each type expression verbatim; this covers the header, one `class <Name>(models.Model):` block per model and the blank line after each block |
| ModelsEmitter.ModelsCodeInjective | generator/utils.py:89-96 | two different plain model mappings, with one-line type expressions, never produce the same models file |
| ModelsEmitter.MultiLineTypeCollides | generator/utils.py:94 | for any names and types, a type expression made of `x`, a line break and the field line `    b = models.y` gives the same models file as the two fields `a: x` and `b: y`; so the one-line restriction on type expressions is needed |
| ModelsEmitter.ModelsCodeExtends | generator/utils.py:91-95 | the file for a mapping is the file for any prefix of it followed by the blocks of the remaining models, so each model contributes its own block in order |
| ModelsEmitter.ModelBlocksRoundTrip | generator/utils.py:91-95 | the class blocks alone parse back to the model list |
| ModelsEmitter.FieldLineRoundTrip | generator/utils.py:94 | a field line has no line break and parses back to the field's name and verbatim type expression |
| ModelsEmitter.ClassLineRoundTrip | generator/utils.py:92 | a class line parses back to the model name |
| ViewsEmitter.GenerateViewsAndUrlsCode | generator/utils.py:98-107 | fails with `KeyError('path')` exactly when some endpoint has no `path` attribute; on success the views text starts with the `JsonResponse` import and the URL text starts with the `urlpatterns = [` preamble and ends with `]\n` |
| ViewsEmitter.EmitEndpoints | generator/utils.py:102-104 | the per-endpoint loop fails with `KeyError('path')` exactly when some endpoint lacks `path` |
| ViewsEmitter.ViewsRoundTrip | generator/utils.py:99-103 | the views file declares one handler per endpoint, in order; each handler's function name and the name in its `Hello from <endpoint>` greeting, both read back from the text, are the endpoint name; only endpoint names without a line break are required, and paths may hold any character |
| ViewsEmitter.UrlsRoundTrip | generator/utils.py:100-106 | the URL file has one route per endpoint, in order; the path is the endpoint's `path` with `/` appended, and both the view and the route name are the endpoint name |
| ViewsEmitter.HandlersMatchRoutes | generator/utils.py:102-104 | the handlers and routes correspond one to one, by position; each route's view and route name are the handler at the same position, and that handler greets from its own name |
| ViewsEmitter.RouteEntryRoundTrip | generator/utils.py:104 | one route line parses back to path `path + "/"`, view `views.<endpoint>` and name `<endpoint>` |
| ViewsEmitter.HandlerLineRoundTrip | generator/utils.py:103 | the greeting in a handler body reads back as the endpoint name |
| ViewsEmitter.DefLineRoundTrip | generator/utils.py:103 | a handler's `def` line parses back to the endpoint name |
| ViewsEmitter.SingleEndpointRoute | generator/utils.py:104 | a single endpoint that has a `path` yields exactly one route, with that path plus `/` |
| ViewsEmitter.ProductsRouteExample | generated_projects/pcpcgncgnfgh/pcpcgncgnfgh/zfdtyjgnfh/urls.py:5 | a `path` of `/products/` is emitted as the route `/products//`, the doubled slash seen in a generated project |
| AdminEmitter.GenerateAdminCode | generator/utils.py:110 | the admin file starts with the `admin` and `.models` imports |
| AdminEmitter.AdminRoundTrip | generator/utils.py:109-113 | the admin file registers every model name once, in order |
| AdminEmitter.AdminIgnoresFields | generator/utils.py:111-112 | two mappings with the same model names in the same order give the same admin file, whatever their fields |
| AdminEmitter.RegisterEntryRoundTrip | generator/utils.py:112 | one `admin.site.register(<Name>)` line parses back to the model name |
| FormsEmitter.GenerateFormsCode | generator/utils.py:116 | the forms file starts with the `forms` and `.models` imports |
| FormsEmitter.FormsRoundTrip | generator/utils.py:115-122 | the forms file declares one form per model, in order; each is named `<Name>Form`, has `model = <Name>` and has `fields = '__all__'` |
| FormsEmitter.FormBlockRoundTrip | generator/utils.py:118-121 | one form block parses back to its class name, model and fields value |
| AppsEmitter.SanitizeAppName | generator/utils.py:125 | the sanitised name is as long as the app name and contains no `/` and no `\` |
| AppsEmitter.SanitizeSpec | generator/utils.py:125 | position by position, `/` and `\` become `.` and every other character is kept |
| AppsEmitter.SanitizeFixesPlain | generator/utils.py:125 | sanitising leaves a name unchanged exactly when it contains no `/` and no `\` |
| AppsEmitter.SanitizeAppend | generator/utils.py:125 | sanitising a concatenation sanitises each part separately |
| AppsEmitter.SanitizeIdempotent | generator/utils.py:125 | sanitising a sanitised name changes nothing |
| AppsEmitter.StemIsScan | generator/utils.py:126 | the class-name stem equals a one-pass scan: dots are dropped, the first letter and each letter after a dot are upper-cased, and the other letters are lower-cased |
| AppsEmitter.ScanAcrossDot | generator/utils.py:126 | each `.`-segment is capitalised independently of the others |
| AppsEmitter.ClassStemShape | generator/utils.py:126 | the stem contains no dot, is shorter than the sanitised name by exactly the number of dots, and introduces no non-letter character that was not already there |
| AppsEmitter.AppsRoundTrip | generator/utils.py:124-127 | the apps file parses back to the class stem (followed by `Config`) and to the sanitised app name in `name = '...'` |
| AppsEmitter.GenerateAppsCode | generator/utils.py:127 | the apps file starts with the `AppConfig` import and two blank lines |
| TestsEmitter.GenerateTestsCode | generator/utils.py:129-130 | the tests file is fixed text that depends on no input: the `TestCase` import, then the `BasicTests` class with its single test |
| ProjectUrlsEmitter.UrlsAppLabel | generator/utils.py:133 | the app label is no longer than the name it comes from |
| ProjectUrlsEmitter.UrlsAppLabelSpec | generator/utils.py:133 | the label is the longest separator-free suffix of the name: it contains no `/` and no `\`, ends the name, and is either the whole name or preceded by `/` or `\`; so it is the name itself when the name contains neither separator |
| ProjectUrlsEmitter.UrlsAppLabelIdempotent | generator/utils.py:133 | taking the label of a label changes nothing |
| ProjectUrlsEmitter.GenerateUrlsCode | generator/utils.py:134-137 | the project URL file starts with the `admin` and `path, include` imports and opens `urlpatterns` |
| ProjectUrlsEmitter.UrlsRoundTrip | generator/utils.py:134-141 | the project URL file parses to exactly two routes: `admin/` to `admin.site.urls` first, then `''` to `include('<label>.urls')` |
| ProjectUrlsEmitter.IncludeHasNoSeparator | generator/utils.py:133-139 | the admin route comes first, and the included module is `<label>.urls` with a label free of path separators |
| SettingsPatcher.FirstAppsLine | generator/utils.py:70-74 | finds the first line that starts with `INSTALLED_APPS`: every earlier line does not start with it, and the result is none exactly when no line does |
| SettingsPatcher.FirstAppsLineUnique | generator/utils.py:70-74 | any index whose line is the first to start with `INSTALLED_APPS` is the one the search returns |
| SettingsPatcher.NormalizeLine | generator/utils.py:77-79 | after normalising, the line always ends in `,\n` |
| SettingsPatcher.PatchLine | generator/utils.py:82 | the patched line ends with the new entry ` '<app>',` and a line break |
| SettingsPatcher.AddAppToInstalledApps | generator/utils.py:70-84 | the number of lines is kept; with no `INSTALLED_APPS` line nothing changes; otherwise only the first such line is replaced, by its patched form |
| SettingsPatcher.AddAppChangesExactly | generator/utils.py:70-84 | a line differs after patching exactly when it is the first `INSTALLED_APPS` line |
| SettingsPatcher.NoMatchIffUnchanged | generator/utils.py:70-84 | patching leaves the file unchanged exactly when no line starts with `INSTALLED_APPS` |
| SettingsPatcher.PatchLineShape | generator/utils.py:77-82 | the patched line is a kept head followed by ` '<app>',\n`, and the head does not end in a comma or line break; for a line ending in `,\n` the head is a prefix of the line and what it drops is only commas and line breaks; for any other line the head is the whitespace-stripped line without its trailing commas and line breaks |
| SettingsPatcher.PatchKeepsKeyword | generator/utils.py:72-82 | the patched line still starts with `INSTALLED_APPS`, so a later search finds the same line |
| SettingsPatcher.PatchEndsWithEntry | generator/utils.py:82 | the patched line ends with ` '<app>',` and a line break, and is exactly the kept head plus the app name plus five characters long |
| SettingsPatcher.PatchChangesLine | generator/utils.py:77-84 | patching always changes the matched line |
| SettingsPatcher.PatchTwice | generator/utils.py:78-82 | registering `a` and then `b` gives `... 'a' 'b',\n`: the comma after `'a'` is stripped, so the two entries are adjacent string literals |
| SettingsPatcher.NotIdempotent | generator/utils.py:70-84 | whenever an `INSTALLED_APPS` line exists, patching a second time with the same app changes the file again |
| SettingsPatcher.PatchOpeningLine | generator/utils.py:78-82 | a line with no surrounding spaces and no trailing comma, ending in a line break, becomes that line plus ` '<app>',\n` |
| SettingsPatcher.DjangoTemplateExample | generator/utils.py:78-82 | `INSTALLED_APPS = [` on a line of its own becomes `INSTALLED_APPS = [ '<app>',`, which opens the list with the new entry |
| SettingsPatcher.OneLineListExample | generator/utils.py:78-82 | a list on one line, `INSTALLED_APPS = ['a']`, becomes `INSTALLED_APPS = ['a'] '<app>',`, with the entry after the closing bracket |
| PyStr.LStrip | generator/utils.py:79 | `lstrip()` keeps a suffix, removes only whitespace, and leaves a first character that is not whitespace |
| PyStr.RStripSpace | generator/utils.py:79 | `rstrip()` keeps a prefix, removes only whitespace, and leaves a last character that is not whitespace |
| PyStr.Strip | generator/utils.py:79 | `strip()` keeps one contiguous part of the line; everything before and after it is whitespace, and the part neither starts nor ends with whitespace |
| PyStr.RStrip | generator/utils.py:82 | `rstrip(chars)` keeps a prefix, removes only characters from the set, and leaves a last character that is not in the set |
| PyStr.Capitalize | generator/utils.py:126 | `capitalize()` upper-cases the first character and lower-cases all the others |
| PyStr.ReplaceChar | generator/utils.py:125 | `replace` of one character substitutes it at every position and keeps every other character |
| PyStr.Split | generator/utils.py:126 | `split(sep)` returns at least one piece, and no piece contains the separator |
| PyStr.SplitCount | generator/utils.py:126 | `split(sep)` has exactly one more piece than the string has separators |
| PyStr.JoinSplit | generator/utils.py:126 | joining the pieces of a split with the same separator gives back the string |
| PyStr.SplitJoin | generator/utils.py:126 | splitting a join of separator-free pieces gives back the pieces |
| PyStr.LastSegment | generator/utils.py:51 | `split(c)[-1]` contains no `c` and is no longer than the string |
| PyStr.LastSegmentSpec | generator/utils.py:133 | `split(c)[-1]` is the longest suffix without `c`, and it is preceded by `c` unless it is the whole string |
| PyStr.LastSegmentIsLastPiece | generator/utils.py:51 | the last-segment function equals the last element of `split(c)` |
| PyStr.LastSegmentUnique | generator/utils.py:133 | any `c`-free suffix that is the whole string or follows a `c` is the last segment |
| PyStr.AppendedLastSegment | generator/utils.py:51 | putting a directory ending in `c` in front of a text does not change its last `c`-segment |
| Scaffold.PathJoin | generator/utils.py:23 | `os.path.join(a, b)` always ends with `b` |
| Scaffold.JoinLastSegment | generator/utils.py:23 | joining onto a directory does not change the last `/`-segment of the joined part |
| Scaffold.AppDirName | generator/utils.py:51 | the derived name is the text after the last `/` of the path: it contains no `/`, ends the path, and is either the whole path or preceded by a `/` |
| Scaffold.AppDirNameOfAppPath | generator/utils.py:51 | the name derived from the app path is the last `/`-segment of the app name, and it is the app name itself when that contains no `/` |
| Scaffold.NamesAgree | generator/utils.py:56 | for an app name without `/`, `\` or `.`, the derived directory name, the sanitised apps name and the project-URL label all equal the app name, and the class stem is its capitalisation |
| Scaffold.BackslashJoinNamesDisagree | generator/utils.py:51-56 | for a non-empty project name, when the path parts are joined with `\`, as on Windows, the derived name is `<project>\<project>\<app>`; the apps `name` becomes `<project>.<project>.<app>` while the URL label stays `<app>`, so the two differ |
| Scaffold.GenerateAppFiles | generator/utils.py:30-62 | the app's files are produced exactly when every endpoint has a `path`, and fail with `KeyError('path')` otherwise; the settings file keeps its number of lines |
| Scaffold.AppFilesAgree | generator/utils.py:49-58 | for an app name without `/`, `\`, `.` or a line break, the settings entry ends with `'<app>',`, the apps file declares `<App>Config` with `name = '<app>'`, and the project URL file includes `<app>.urls` after the admin site: all three files name the same app |

A settings line reading just `INSTALLED_APPS = [` has no trailing `,\n`, so it is stripped and given a comma. The comma is then removed again, and ` '<app>',` is appended. The result, `INSTALLED_APPS = [ '<app>',`, opens the list with the new entry; see `SettingsPatcher.DjangoTemplateExample`. A list written on one line fares worse: `INSTALLED_APPS = ['a']` becomes `INSTALLED_APPS = ['a'] 'b',`, which puts the entry after the closing bracket and is not valid Python; see `SettingsPatcher.OneLineListExample`.

A second registration of an app onto an already patched line does give a wrong line. The comma after the earlier entry is stripped, so the line becomes `'a' 'b',`, which Python reads as the single string `'ab'`. `SettingsPatcher.PatchTwice` states this. The model keeps this as-written behaviour because the source promises nothing else.

## Left out

- `create_django_project` (generator/utils.py:5-28): JSON decoding of the two spec strings and its `ValueError`, `os.makedirs`, and the two `django-admin`/`manage.py startapp` subprocesses. These are I/O and foreign programs. The model starts from the already-decoded mappings.
- The file reads and writes in `generate_app_files` and `add_app_to_installed_apps` (generator/utils.py:32-62, 65-68, 86-87), and the order of those writes. These are I/O. `Scaffold.GenerateAppFiles` returns the texts and the patched lines; the files they land in are not modelled. So the model does not say that `models.py` is already written when the views step raises `KeyError`.
- Scaffold.PathJoin: models POSIX `os.path.join` only. On Windows the parts are joined with `\`. `Scaffold.JoinLastSegment`, `Scaffold.AppDirNameOfAppPath`, `Scaffold.NamesAgree` and `Scaffold.AppFilesAgree` therefore hold only where `/` is the separator. With `\` joining, generator/utils.py:51 passes `<project>\<project>\<app>`, and the apps config and the project route table disagree; `Scaffold.BackslashJoinNamesDisagree` states that case for a non-empty project name; for an empty one the Windows join adds no `\` for the empty part, and that path is not modelled. Windows drive letters and the other rules of `ntpath.join` are not modelled.
- Duplicate keys in a JSON object: Python keeps the last value in the first key's position. The model's sequences of entries assume the keys are distinct, as a decoded dict's are.
- Non-string values in the specification. A field type or `path` that is not a string would be formatted through `str()`. The model takes every value as a string.
- Non-dict values where the generator expects a mapping. An endpoint whose `details` is not a dict, such as a string, raises `TypeError` at `details['path']` (generator/utils.py:104). A model whose `fields` is not a dict raises `AttributeError` at `fields.items()` (generator/utils.py:93). The model's types give every endpoint and every model a mapping, so neither exception is modelled.
- PyStr.LastSegment: its own contract states only that the result contains no `c` and is no longer than the string. The complete statement (the longest `c`-free suffix) is `PyStr.LastSegmentSpec`. It is kept as a separate lemma because, as a contract of the recursive function, it makes every proof that mentions the function much more expensive.
- `PyStr.Capitalize`: only ASCII letters change case. Python's Unicode case mapping for other letters, and characters whose case mapping has more than one character, are not modelled.
- ModelsEmitter.ModelsRoundTrip: requires every type expression to be one line (`FieldIsPlain`), while the source copies any type text verbatim; a type with a line break can read as several fields, as `ModelsEmitter.MultiLineTypeCollides` shows.
- ModelsEmitter.ModelsCodeInjective: holds only for one-line type expressions; `ModelsEmitter.MultiLineTypeCollides` gives two different mappings with the same models file.
- ModelsEmitter.ModelBlocksRoundTrip: requires one-line type expressions, for the same reason as `ModelsEmitter.ModelsRoundTrip`.
- ModelsEmitter.FieldLineRoundTrip: requires a one-line type expression, since a line break in it ends the field line early.
- The round-trip lemmas (`ModelsEmitter.ModelsRoundTrip`, `ViewsEmitter.UrlsRoundTrip`, `AdminEmitter.AdminRoundTrip`, `FormsEmitter.FormsRoundTrip`, `AppsEmitter.AppsRoundTrip`, `ProjectUrlsEmitter.UrlsRoundTrip`) require names without a line break. They also require the delimiter that ends a name in its line to be absent from it (` ` for field names, `'` for paths, `,` for endpoint names). With such names the emitted text is ambiguous, so no parser can recover the input. `ViewsEmitter.ViewsRoundTrip` requires only endpoint names without a line break, since the views file holds no path. A path holding `'` still gives a correct views file but a broken URL file, and the model states nothing about that URL file.
- The views and URL texts are only characterised through their parsers: the model does not state that the output is valid Python or that Django accepts it.
- Django itself (`generator/views.py`, `forms.py`, `models.py`, `serializers.py`, `urls.py`), migrations and running the generated server are not part of this model.
