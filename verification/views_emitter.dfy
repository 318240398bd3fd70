/**
 * `generate_views_and_urls_code`: for every endpoint, in order, one handler function in the
 * views file and one `path(...)` entry in the app's route table that refers to it.
 */
module ViewsEmitter {
  import opened Results
  import opened PyStr
  import opened Spec

  const ViewsHeader := "from django.http import JsonResponse\n\n"
  const UrlsHeader := "from django.urls import path\nfrom . import views\n\nurlpatterns = [\n"
  const UrlsFooter := "]\n"

  /** Whether `details['path']` succeeds. */
  predicate HasPath(e: Endpoint) {
    Lookup(e.details, "path").Some?
  }

  /** `details['path']`, read only where it exists. */
  function PathOf(e: Endpoint): string {
    match Lookup(e.details, "path")
    case Some(p) => p
    case None => ""
  }

  const HandlerPrefix := "    return JsonResponse(" + "{'message': 'Hello from "
  const HandlerSuffix := "'})"

  /** The handler body: a JSON greeting that names the endpoint. */
  function HandlerLine(name: string): string {
    HandlerPrefix + name + HandlerSuffix
  }

  /** The handler block the loop appends for one endpoint. */
  function ViewBlock(name: string): string {
    "def " + name + "(request):" + "\n" + HandlerLine(name) + "\n" + "\n"
  }

  /** The text of the route entry for one endpoint, without its line break. */
  function RouteEntry(path: string, name: string): string {
    "    path('" + path + "/" + "'" + ", views." + name + "," + " name='" + name + "'),"
  }

  /** The route entry line the loop appends for one endpoint. */
  function RouteLine(path: string, name: string): string {
    RouteEntry(path, name) + "\n"
  }

  /** The loop body over all endpoints: handler blocks and route entries, or the KeyError. */
  function EmitEndpoints(endpoints: seq<Endpoint>): (r: Result<(string, string)>)
    ensures r.Err? <==> exists i :: 0 <= i < |endpoints| && !HasPath(endpoints[i])
    ensures r.Err? ==> r.error == KeyError("path")
  {
    if endpoints == [] then Ok(("", ""))
    else
      var e := endpoints[0];
      match Lookup(e.details, "path")
      case None => Err(KeyError("path"))
      case Some(p) =>
        var rest := EmitEndpoints(endpoints[1..]);
        assert forall i :: 0 < i < |endpoints| ==> endpoints[i] == endpoints[1..][i - 1];
        match rest
        case Err(err) => Err(err)
        case Ok((views, routes)) => Ok((ViewBlock(e.name) + views, RouteLine(p, e.name) + routes))
  }

  /**
   * `generate_views_and_urls_code(endpoints_spec)`: the views file and the app route table,
   * or KeyError('path') when some endpoint has no `path`.
   */
  function GenerateViewsAndUrlsCode(endpoints: seq<Endpoint>): (r: Result<(string, string)>)
    ensures r.Err? <==> exists i :: 0 <= i < |endpoints| && !HasPath(endpoints[i])
    ensures r.Err? ==> r.error == KeyError("path")
    ensures r.Ok? ==> StartsWith(r.value.0, ViewsHeader)
    ensures r.Ok? ==> StartsWith(r.value.1, UrlsHeader) && EndsWith(r.value.1, UrlsFooter)
  {
    match EmitEndpoints(endpoints)
    case Err(err) => Err(err)
    case Ok((views, routes)) =>
      var urls := UrlsHeader + routes + UrlsFooter;
      assert urls[..|UrlsHeader|] == UrlsHeader;
      Ok((ViewsHeader + views, urls))
  }

  // Reading the views file back.

  function ParseDefLine(line: string): Option<string> {
    match DropPrefix(line, "def ")
    case None => None
    case Some(t) => DropSuffix(t, "(request):")
  }

  /** The endpoint a handler body greets from. */
  function ParseHandlerLine(line: string): Option<string> {
    match DropPrefix(line, HandlerPrefix)
    case None => None
    case Some(t) => DropSuffix(t, HandlerSuffix)
  }

  /** A handler as read back: its function name and the name its greeting mentions. */
  datatype Handler = Handler(name: string, greets: string)

  function ParseViewBlocks(s: string): Option<seq<Handler>>
    decreases |s|
  {
    if s == "" then Some([])
    else
      match TakeLine(s)
      case None => None
      case Some((defLine, afterDef)) =>
        match ParseDefLine(defLine)
        case None => None
        case Some(name) =>
          match TakeLine(afterDef)
          case None => None
          case Some((bodyLine, afterBody)) =>
            match ParseHandlerLine(bodyLine)
            case None => None
            case Some(greets) =>
              match TakeLine(afterBody)
              case None => None
              case Some((blank, rest)) =>
                if blank != "" then None
                else
                  match ParseViewBlocks(rest)
                  case None => None
                  case Some(handlers) => Some([Handler(name, greets)] + handlers)
  }

  /** The handlers a views file defines, in file order. */
  function ParseViewsCode(code: string): Option<seq<Handler>> {
    match DropPrefix(code, ViewsHeader)
    case None => None
    case Some(body) => ParseViewBlocks(body)
  }

  // Reading the route table back.

  /** One `path(...)` entry: the route text, the handler it names, and the route name. */
  datatype Route = Route(pathText: string, view: string, routeName: string)

  function ParseRouteLine(line: string): Option<Route> {
    match DropPrefix(line, "    path('")
    case None => None
    case Some(t) =>
      match CutAt(t, '\'')
      case None => None
      case Some((pathText, u)) =>
        match DropPrefix(u, ", views.")
        case None => None
        case Some(v) =>
          match CutAt(v, ',')
          case None => None
          case Some((view, w)) =>
            match DropPrefix(w, " name='")
            case None => None
            case Some(x) =>
              match DropSuffix(x, "'),")
              case None => None
              case Some(routeName) => Some(Route(pathText, view, routeName))
  }

  /** Route entries up to the closing `]`, which must end the file. */
  function ParseRouteLines(s: string): Option<seq<Route>>
    decreases |s|
  {
    match TakeLine(s)
    case None => None
    case Some((line, rest)) =>
      if line == "]" then (if rest == "" then Some([]) else None)
      else
        match ParseRouteLine(line)
        case None => None
        case Some(r) =>
          match ParseRouteLines(rest)
          case None => None
          case Some(rs) => Some([r] + rs)
  }

  /** The entries of a generated route table, in file order. */
  function ParseUrlsCode(code: string): Option<seq<Route>> {
    match DropPrefix(code, UrlsHeader)
    case None => None
    case Some(body) => ParseRouteLines(body)
  }

  /** The handlers the endpoints describe: each named after its endpoint and greeting from it. */
  function ExpectedHandlers(endpoints: seq<Endpoint>): seq<Handler> {
    seq(|endpoints|, i requires 0 <= i < |endpoints| => Handler(endpoints[i].name, endpoints[i].name))
  }

  /** The route table the endpoints describe: `<path>/` bound to the endpoint's own name. */
  function ExpectedRoutes(endpoints: seq<Endpoint>): seq<Route> {
    seq(|endpoints|, i requires 0 <= i < |endpoints| =>
      Route(PathOf(endpoints[i]) + "/", endpoints[i].name, endpoints[i].name))
  }

  /** Endpoint names and paths without the characters that delimit them in the generated text. */
  predicate EndpointIsPlain(e: Endpoint) {
    '\n' !in e.name && ',' !in e.name && '\n' !in PathOf(e) && '\'' !in PathOf(e)
  }

  predicate EndpointsArePlain(endpoints: seq<Endpoint>) {
    forall i :: 0 <= i < |endpoints| ==> EndpointIsPlain(endpoints[i])
  }

  /**
   * Endpoint names without a line break. The views file holds only the names, so this is all
   * its round trip needs; paths may hold any character.
   */
  predicate NamesAreOneLine(endpoints: seq<Endpoint>) {
    forall i :: 0 <= i < |endpoints| ==> '\n' !in endpoints[i].name
  }

  lemma OneLineParts(endpoints: seq<Endpoint>)
    requires endpoints != [] && NamesAreOneLine(endpoints)
    ensures '\n' !in endpoints[0].name && NamesAreOneLine(endpoints[1..])
  {
    assert forall i :: 0 <= i < |endpoints[1..]| ==> endpoints[1..][i] == endpoints[i + 1];
  }

  lemma PlainParts(endpoints: seq<Endpoint>)
    requires endpoints != [] && EndpointsArePlain(endpoints)
    ensures EndpointIsPlain(endpoints[0]) && EndpointsArePlain(endpoints[1..])
  {
    assert forall i :: 0 <= i < |endpoints[1..]| ==> endpoints[1..][i] == endpoints[i + 1];
  }

  lemma EmitUnfold(endpoints: seq<Endpoint>)
    requires endpoints != []
    requires EmitEndpoints(endpoints).Ok?
    ensures HasPath(endpoints[0])
    ensures EmitEndpoints(endpoints[1..]).Ok?
    ensures EmitEndpoints(endpoints).value.0
         == ViewBlock(endpoints[0].name) + EmitEndpoints(endpoints[1..]).value.0
    ensures EmitEndpoints(endpoints).value.1
         == RouteLine(PathOf(endpoints[0]), endpoints[0].name) + EmitEndpoints(endpoints[1..]).value.1
  {
  }

  // Handler blocks.

  lemma HandlerLineFree(name: string)
    requires '\n' !in name
    ensures '\n' !in HandlerLine(name)
  {
    assert '\n' !in HandlerPrefix;
    AbsentFromConcat('\n', HandlerPrefix, name, HandlerSuffix);
  }

  /** The greeting in a handler body names the endpoint the handler was generated for. */
  lemma HandlerLineRoundTrip(name: string)
    ensures ParseHandlerLine(HandlerLine(name)) == Some(name)
  {
    assert HandlerLine(name) == HandlerPrefix + (name + HandlerSuffix);
    DropPrefixOf(HandlerPrefix, name + HandlerSuffix);
    DropSuffixOf(name, HandlerSuffix);
  }

  lemma DefLineRoundTrip(name: string)
    requires '\n' !in name
    ensures '\n' !in "def " + name + "(request):"
    ensures ParseDefLine("def " + name + "(request):") == Some(name)
  {
    AbsentFromConcat('\n', "def ", name, "(request):");
    assert "def " + name + "(request):" == "def " + (name + "(request):");
    DropPrefixOf("def ", name + "(request):");
    DropSuffixOf(name, "(request):");
  }

  lemma ViewBlockShape(name: string, rest: string)
    ensures ViewBlock(name) + rest
         == ("def " + name + "(request):") + "\n" + (HandlerLine(name) + "\n" + ("" + "\n" + rest))
  {
  }

  lemma ParseViewBlocksCons(
    defLine: string, bodyLine: string, rest: string, name: string, greets: string, handlers: seq<Handler>)
    requires '\n' !in defLine && '\n' !in bodyLine
    requires ParseDefLine(defLine) == Some(name)
    requires ParseHandlerLine(bodyLine) == Some(greets)
    requires ParseViewBlocks(rest) == Some(handlers)
    ensures ParseViewBlocks(defLine + "\n" + (bodyLine + "\n" + ("" + "\n" + rest)))
         == Some([Handler(name, greets)] + handlers)
  {
    TakeLineOf("", rest);
    TakeLineOf(bodyLine, "" + "\n" + rest);
    TakeLineOf(defLine, bodyLine + "\n" + ("" + "\n" + rest));
  }

  lemma ViewBlockRoundTrip(name: string, rest: string, handlers: seq<Handler>)
    requires '\n' !in name
    requires ParseViewBlocks(rest) == Some(handlers)
    ensures ParseViewBlocks(ViewBlock(name) + rest) == Some([Handler(name, name)] + handlers)
  {
    DefLineRoundTrip(name);
    HandlerLineFree(name);
    HandlerLineRoundTrip(name);
    ViewBlockShape(name, rest);
    ParseViewBlocksCons("def " + name + "(request):", HandlerLine(name), rest, name, name, handlers);
  }

  lemma {:induction false} ViewBlocksRoundTrip(endpoints: seq<Endpoint>)
    requires NamesAreOneLine(endpoints)
    requires EmitEndpoints(endpoints).Ok?
    ensures ParseViewBlocks(EmitEndpoints(endpoints).value.0) == Some(ExpectedHandlers(endpoints))
    decreases |endpoints|
  {
    if endpoints != [] {
      OneLineParts(endpoints);
      EmitUnfold(endpoints);
      ViewBlocksRoundTrip(endpoints[1..]);
      ViewBlockRoundTrip(
        endpoints[0].name, EmitEndpoints(endpoints[1..]).value.0, ExpectedHandlers(endpoints[1..]));
      ExpectedHandlersCons(endpoints);
    } else {
      assert ExpectedHandlers(endpoints) == [];
    }
  }

  lemma ExpectedHandlersCons(endpoints: seq<Endpoint>)
    requires endpoints != []
    ensures ExpectedHandlers(endpoints)
         == [Handler(endpoints[0].name, endpoints[0].name)] + ExpectedHandlers(endpoints[1..])
  {
  }

  /**
   * The views file defines exactly one handler per endpoint, in insertion order, each named
   * after its endpoint and greeting from it.
   */
  lemma ViewsRoundTrip(endpoints: seq<Endpoint>)
    requires NamesAreOneLine(endpoints)
    requires GenerateViewsAndUrlsCode(endpoints).Ok?
    ensures ParseViewsCode(GenerateViewsAndUrlsCode(endpoints).value.0) == Some(ExpectedHandlers(endpoints))
  {
    var views := EmitEndpoints(endpoints).value.0;
    DropPrefixOf(ViewsHeader, views);
    ViewBlocksRoundTrip(endpoints);
  }

  // Route entries.

  lemma RouteEntryFree(path: string, name: string)
    requires '\n' !in path && '\n' !in name
    ensures '\n' !in RouteEntry(path, name)
    ensures RouteEntry(path, name) != "]"
  {
    var a := "    path('" + path + "/" + "'" + ", views.";
    var b := name + "," + " name='" + name;
    AbsentFromConcat('\n', "    path('", path, "/" + "'" + ", views.");
    AbsentFromConcat('\n', name, "," + " name='", name);
    AbsentFromConcat('\n', a, b, "'),");
    assert RouteEntry(path, name) == a + b + "'),";
    assert RouteEntry(path, name)[0] == ' ';
  }

  lemma RouteEntryShape(path: string, name: string)
    ensures RouteEntry(path, name)
         == "    path('" + ((path + "/") + ['\''] + (", views." + (name + [','] + (" name='" + (name + "'),")))))
  {
  }

  lemma ParseRouteLineOf(pathText: string, view: string, name: string)
    requires '\'' !in pathText && ',' !in view
    ensures ParseRouteLine("    path('" + (pathText + ['\''] + (", views." + (view + [','] + (" name='" + (name + "'),"))))))
         == Some(Route(pathText, view, name))
  {
    var x := name + "'),";
    var w := " name='" + x;
    var v := view + [','] + w;
    var u := ", views." + v;
    DropPrefixOf("    path('", pathText + ['\''] + u);
    CutAtOf(pathText, '\'', u);
    DropPrefixOf(", views.", v);
    CutAtOf(view, ',', w);
    DropPrefixOf(" name='", x);
    DropSuffixOf(name, "'),");
  }

  lemma RouteEntryRoundTrip(path: string, name: string)
    requires '\'' !in path && ',' !in name
    ensures ParseRouteLine(RouteEntry(path, name)) == Some(Route(path + "/", name, name))
  {
    RouteEntryShape(path, name);
    assert '\'' !in path + "/";
    ParseRouteLineOf(path + "/", name, name);
  }

  lemma ParseRouteLinesCons(line: string, rest: string, r: Route, rs: seq<Route>)
    requires '\n' !in line && line != "]"
    requires ParseRouteLine(line) == Some(r)
    requires ParseRouteLines(rest) == Some(rs)
    ensures ParseRouteLines(line + "\n" + rest) == Some([r] + rs)
  {
    TakeLineOf(line, rest);
  }

  lemma ParseRouteLinesEnd()
    ensures ParseRouteLines(UrlsFooter) == Some([])
  {
    TakeLineOf("]", "");
    assert UrlsFooter == "]" + "\n" + "";
  }

  lemma ExpectedRoutesCons(endpoints: seq<Endpoint>)
    requires endpoints != []
    ensures ExpectedRoutes(endpoints)
         == [Route(PathOf(endpoints[0]) + "/", endpoints[0].name, endpoints[0].name)] + ExpectedRoutes(endpoints[1..])
  {
  }

  lemma RouteLineRoundTrip(path: string, name: string, rest: string, rs: seq<Route>)
    requires '\n' !in path && '\'' !in path && '\n' !in name && ',' !in name
    requires ParseRouteLines(rest) == Some(rs)
    ensures ParseRouteLines(RouteLine(path, name) + rest) == Some([Route(path + "/", name, name)] + rs)
  {
    RouteEntryFree(path, name);
    RouteEntryRoundTrip(path, name);
    ParseRouteLinesCons(RouteEntry(path, name), rest, Route(path + "/", name, name), rs);
  }

  lemma {:induction false} RouteLinesRoundTrip(endpoints: seq<Endpoint>)
    requires EndpointsArePlain(endpoints)
    requires EmitEndpoints(endpoints).Ok?
    ensures ParseRouteLines(EmitEndpoints(endpoints).value.1 + UrlsFooter) == Some(ExpectedRoutes(endpoints))
    decreases |endpoints|
  {
    if endpoints == [] {
      assert EmitEndpoints(endpoints) == Ok(("", ""));
      assert EmitEndpoints(endpoints).value.1 + UrlsFooter == UrlsFooter;
      ParseRouteLinesEnd();
      assert ExpectedRoutes(endpoints) == [];
    } else {
      var e := endpoints[0];
      var rest := EmitEndpoints(endpoints[1..]).value.1;
      PlainParts(endpoints);
      EmitUnfold(endpoints);
      RouteLinesRoundTrip(endpoints[1..]);
      AppendAssoc(EmitEndpoints(endpoints).value.1, RouteLine(PathOf(e), e.name), rest, UrlsFooter);
      RouteLineRoundTrip(PathOf(e), e.name, rest + UrlsFooter, ExpectedRoutes(endpoints[1..]));
      ExpectedRoutesCons(endpoints);
    }
  }

  /**
   * The route table holds exactly one entry per endpoint, in insertion order: path text
   * `details['path']` followed by `/`, handler `views.<endpoint>`, route name `<endpoint>`.
   */
  lemma UrlsRoundTrip(endpoints: seq<Endpoint>)
    requires EndpointsArePlain(endpoints)
    requires GenerateViewsAndUrlsCode(endpoints).Ok?
    ensures ParseUrlsCode(GenerateViewsAndUrlsCode(endpoints).value.1) == Some(ExpectedRoutes(endpoints))
  {
    var routes := EmitEndpoints(endpoints).value.1;
    AppendAssoc(UrlsHeader + routes, UrlsHeader, routes, UrlsFooter);
    DropPrefixOf(UrlsHeader, routes + UrlsFooter);
    RouteLinesRoundTrip(endpoints);
  }

  /**
   * Every route entry names, as its handler and as its route name, exactly the handler the
   * views file defines at the same position.
   */
  lemma HandlersMatchRoutes(endpoints: seq<Endpoint>)
    requires EndpointsArePlain(endpoints)
    requires GenerateViewsAndUrlsCode(endpoints).Ok?
    ensures var (views, urls) := GenerateViewsAndUrlsCode(endpoints).value;
      && ParseViewsCode(views).Some?
      && ParseUrlsCode(urls).Some?
      && |ParseViewsCode(views).value| == |ParseUrlsCode(urls).value| == |endpoints|
      && forall i :: 0 <= i < |endpoints| ==>
           && ParseUrlsCode(urls).value[i].view == ParseViewsCode(views).value[i].name
           && ParseUrlsCode(urls).value[i].routeName == ParseViewsCode(views).value[i].name
           && ParseViewsCode(views).value[i].greets == ParseViewsCode(views).value[i].name
  {
    ViewsRoundTrip(endpoints);
    UrlsRoundTrip(endpoints);
  }

  /** A single endpoint yields the single route `<path>/`. */
  lemma SingleEndpointRoute(e: Endpoint)
    requires EndpointIsPlain(e) && HasPath(e)
    ensures GenerateViewsAndUrlsCode([e]).Ok?
    ensures ParseUrlsCode(GenerateViewsAndUrlsCode([e]).value.1) == Some([Route(PathOf(e) + "/", e.name, e.name)])
  {
    assert EndpointsArePlain([e]);
    UrlsRoundTrip([e]);
    assert ExpectedRoutes([e]) == [Route(PathOf(e) + "/", e.name, e.name)];
  }

  /**
   * The path is copied without normalisation: an endpoint whose path is `/products/` gets the
   * route text `/products//`.
   */
  lemma ProductsRouteExample(name: string)
    requires '\n' !in name && ',' !in name
    ensures var e := Endpoint(name, [("path", "/products/")]);
      && GenerateViewsAndUrlsCode([e]).Ok?
      && ParseUrlsCode(GenerateViewsAndUrlsCode([e]).value.1) == Some([Route("/products//", name, name)])
  {
    var e := Endpoint(name, [("path", "/products/")]);
    assert e.details[0].0 == "path";
    assert Lookup(e.details, "path") == Some("/products/");
    assert '\n' !in "/products/" && '\'' !in "/products/";
    SingleEndpointRoute(e);
    assert PathOf(e) + "/" == "/products//";
  }
}
