/** The HiP workarounds around NSwag's Swagger UI (NSwagWorkaround.cs): a Bearer
    requirement for every operation whose MVC action needs authorization, the routes the
    middlewares are mounted on, a redirect from the UI root to its index page, and the
    index page pointed at the service's own `swagger.json`. */
module NSwagWorkaround {
  import opened Wrappers
  import opened Linq
  import opened Text
  import opened MvcFilters
  import SwaggerOperationFilter

  const AsyncSuffix := "Async"
  const IndexPage := "/index.html"
  const SwaggerJsonPath := "/v1/swagger.json"
  const PetstoreUrl := "http://petstore.swagger.io/v2/swagger.json"
  const LocationHeader := "Location"
  const ContentTypeHeader := "Content-Type"
  const HtmlContentType := "text/html; charset=utf-8"

  // ---------------------------------------------------------------------------
  // Matching Swagger operations to MVC actions

  /** NSwag's `SwaggerOperationMethod`. */
  datatype OperationMethod = Undefined | Get | Post | Put | Delete | Options | Head | Patch

  /** The enum member's `ToString()`. */
  function MethodName(m: OperationMethod): string {
    match m
    case Undefined => "Undefined"
    case Get => "Get"
    case Post => "Post"
    case Put => "Put"
    case Delete => "Delete"
    case Options => "Options"
    case Head => "Head"
    case Patch => "Patch"
  }

  /** The upper-cased method names the constraint lists are the usual HTTP verbs. */
  lemma UpperMethodNames()
    ensures ToUpperAscii(MethodName(Get)) == "GET" && ToUpperAscii(MethodName(Post)) == "POST"
    ensures ToUpperAscii(MethodName(Put)) == "PUT" && ToUpperAscii(MethodName(Delete)) == "DELETE"
    ensures ToUpperAscii(MethodName(Options)) == "OPTIONS" && ToUpperAscii(MethodName(Head)) == "HEAD"
    ensures ToUpperAscii(MethodName(Patch)) == "PATCH" && ToUpperAscii(MethodName(Undefined)) == "UNDEFINED"
  {
  }

  /** An action constraint: `HttpMethodActionConstraint` (its `HttpMethods` may be null)
      or any other kind. */
  datatype ActionConstraint = HttpMethodActionConstraint(httpMethods: Option<seq<string>>) | OtherConstraint

  /** An entry of `ActionDescriptors.Items`: a `ControllerActionDescriptor` or another kind. */
  datatype ActionDescriptor =
    | ControllerActionDescriptor(controllerName: string, actionName: string,
                                 actionConstraints: seq<ActionConstraint>, filterDescriptors: seq<FilterKind>)
    | OtherActionDescriptor

  /** A `SwaggerSecurityRequirement` with one scheme and its scopes. */
  datatype SecurityRequirement = SecurityRequirement(scheme: string, scopes: seq<string>)

  const BearerRequirement := SecurityRequirement("Bearer", [])

  /** A `SwaggerOperation`: `security` is `None` when the list is null. */
  datatype SwaggerOperation = SwaggerOperation(operationId: Option<string>, security: Option<seq<SecurityRequirement>>)

  /** A `SwaggerOperationDescription` of `doc.Operations`. */
  datatype OperationDescription = OperationDescription(path: string, httpMethod: OperationMethod, operation: SwaggerOperation)

  /** An action name without its `Async` suffix, if it has one. */
  function StripAsyncSuffix(name: string): string {
    if EndsWith(name, AsyncSuffix) then name[..|name| - |AsyncSuffix|] else name
  }

  /** Exactly the suffix `Async` is removed, once. */
  lemma StripAsyncSuffixRemovesSuffix(name: string)
    ensures StripAsyncSuffix(name + AsyncSuffix) == name
  {
  }

  /** Names not ending in `Async` are unchanged. */
  lemma StripAsyncSuffixKeepsOthers(name: string)
    requires !EndsWith(name, AsyncSuffix)
    ensures StripAsyncSuffix(name) == name
  {
  }

  /** A name ending in `AsyncAsync` keeps one `Async`. */
  lemma StripAsyncSuffixOnce(name: string)
    ensures StripAsyncSuffix(name + AsyncSuffix + AsyncSuffix) == name + AsyncSuffix
  {
  }

  predicate IsHttpMethodConstraint(c: ActionConstraint) {
    c.HttpMethodActionConstraint?
  }

  /** The match of one action with one operation: the action is a controller action,
      `{ControllerName}_{stripped ActionName}` is the operation id, and the action's
      first HTTP-method constraint has a method list containing the upper-cased method. */
  predicate ActionMatches(a: ActionDescriptor, op: OperationDescription) {
    && a.ControllerActionDescriptor?
    && op.operation.operationId == Some(a.controllerName + "_" + StripAsyncSuffix(a.actionName))
    && match FirstIndex(a.actionConstraints, IsHttpMethodConstraint)
       case None => false
       case Some(i) =>
         var methods := a.actionConstraints[i].httpMethods;
         methods.Some? && ToUpperAscii(MethodName(op.httpMethod)) in methods.value
  }

  /** The MVC action used for an operation: the first one that matches. */
  function MatchingAction(actions: seq<ActionDescriptor>, op: OperationDescription): (r: Option<ActionDescriptor>)
    ensures r.None? <==> forall i :: 0 <= i < |actions| ==> !ActionMatches(actions[i], op)
    ensures r.Some? ==> r.value in actions && ActionMatches(r.value, op)
  {
    match FirstIndex(actions, a => ActionMatches(a, op))
    case None => None
    case Some(i) => Some(actions[i])
  }

  /** The first matching action is the one chosen, whatever follows it. */
  lemma MatchingActionIsFirst(actions: seq<ActionDescriptor>, op: OperationDescription, i: nat)
    requires i < |actions| && ActionMatches(actions[i], op)
    requires forall j :: 0 <= j < i ==> !ActionMatches(actions[j], op)
    ensures MatchingAction(actions, op) == Some(actions[i])
  {
  }

  /** The PostProcess decision: some `AuthorizeFilter` and no `AllowAnonymousFilter`. */
  predicate NeedsBearer(a: ActionDescriptor)
    requires a.ControllerActionDescriptor?
  {
    Any(a.filterDescriptors, IsAuthorizeFilter) && !Any(a.filterDescriptors, IsAllowAnonymousFilter)
  }

  /** The decision in terms of which kinds are present: only the framework's own
      `AllowAnonymousFilter` suppresses the requirement. */
  lemma NeedsBearerIff(a: ActionDescriptor)
    requires a.ControllerActionDescriptor?
    ensures NeedsBearer(a) <==> AuthorizeFilter in a.filterDescriptors && AllowAnonymousFilter !in a.filterDescriptors
  {
  }

  /** The two files decide differently for an `AuthorizeFilter` that also implements
      `IAllowAnonymousFilter`: the operation filter leaves the operation alone, the
      document processor still appends the Bearer requirement. */
  lemma FilterDecisionsDiffer()
    ensures var fs := [AuthorizeFilter, OtherAllowAnonymousFilter];
      !SwaggerOperationFilter.NeedsAuthorization(fs) && NeedsBearer(ControllerActionDescriptor("c", "a", [], fs))
  {
  }

  /** A null list becomes the one-element list; otherwise the requirement is appended. */
  function WithBearer(security: Option<seq<SecurityRequirement>>): (r: Option<seq<SecurityRequirement>>)
    ensures r.Some? && |r.value| == |security.GetOr([])| + 1
    ensures r.value[..|r.value| - 1] == security.GetOr([]) && r.value[|r.value| - 1] == BearerRequirement
  {
    match security
    case None => Some([BearerRequirement])
    case Some(s) => Some(s + [BearerRequirement])
  }

  /** One iteration of the PostProcess loop, on one operation. */
  function ProcessOperation(op: OperationDescription, actions: seq<ActionDescriptor>): (r: OperationDescription)
    ensures r.path == op.path && r.httpMethod == op.httpMethod && r.operation.operationId == op.operation.operationId
    ensures r.operation.security == op.operation.security || r.operation.security == WithBearer(op.operation.security)
  {
    match MatchingAction(actions, op)
    case None => op
    case Some(a) =>
      if NeedsBearer(a) then op.(operation := op.operation.(security := WithBearer(op.operation.security)))
      else op
  }

  /** An operation that no action matches is left unchanged. */
  lemma ProcessOperationUnmatched(op: OperationDescription, actions: seq<ActionDescriptor>)
    requires forall i :: 0 <= i < |actions| ==> !ActionMatches(actions[i], op)
    ensures ProcessOperation(op, actions) == op
  {
  }

  /** With the first match at `i`, the Bearer requirement is appended exactly when that
      action has an `AuthorizeFilter` and no `AllowAnonymousFilter`. */
  lemma ProcessOperationFirstMatch(op: OperationDescription, actions: seq<ActionDescriptor>, i: nat)
    requires i < |actions| && ActionMatches(actions[i], op)
    requires forall j :: 0 <= j < i ==> !ActionMatches(actions[j], op)
    ensures var fs := actions[i].filterDescriptors;
      ProcessOperation(op, actions).operation.security ==
        if AuthorizeFilter in fs && AllowAnonymousFilter !in fs then WithBearer(op.operation.security)
        else op.operation.security
  {
    MatchingActionIsFirst(actions, op, i);
    NeedsBearerIff(actions[i]);
  }

  /** The generated document; `operations` lists `doc.Operations` in enumeration order. */
  class SwaggerDocument {
    var operations: seq<OperationDescription>

    constructor (operations: seq<OperationDescription>)
      ensures this.operations == operations
    {
      this.operations := operations;
    }

    /** The `foreach` of `PostProcess`, given the registered action descriptors. */
    method PostProcess(actions: seq<ActionDescriptor>)
      modifies this
      ensures |operations| == |old(operations)|
      ensures forall i :: 0 <= i < |operations| ==> operations[i] == ProcessOperation(old(operations)[i], actions)
    {
      var i := 0;
      while i < |operations|
        invariant 0 <= i <= |operations| == |old(operations)|
        invariant forall k :: 0 <= k < i ==> operations[k] == ProcessOperation(old(operations)[k], actions)
        invariant forall k :: i <= k < |operations| ==> operations[k] == old(operations)[k]
      {
        operations := operations[i := ProcessOperation(operations[i], actions)];
        i := i + 1;
      }
    }
  }

  // ---------------------------------------------------------------------------
  // Middleware routes

  /** The settings `UseSwaggerUiHip` reads; `middlewareBasePath` may be null. */
  datatype UiSettings = UiSettings(swaggerRoute: string, swaggerUiRoute: string, middlewareBasePath: Option<string>)

  /** The routes the middlewares are mounted on. */
  datatype MiddlewareRoutes = MiddlewareRoutes(swaggerRoute: string, swaggerUiRoute: string, indexPath: string)

  /** The number of characters `Substring` drops: the base path's length, 0 when null. */
  function BasePathLength(settings: UiSettings): nat {
    match settings.middlewareBasePath
    case None => 0
    case Some(b) => |b|
  }

  /** The actual routes: both configured routes without their first
      `BasePathLength` characters; `None` when `Substring` throws because a route is
      shorter than the base path. */
  function ActualRoutes(settings: UiSettings): (r: Option<MiddlewareRoutes>)
    ensures r.None? <==> BasePathLength(settings) > |settings.swaggerRoute| || BasePathLength(settings) > |settings.swaggerUiRoute|
    ensures r.Some? ==>
      && |r.value.swaggerRoute| + BasePathLength(settings) == |settings.swaggerRoute|
      && EndsWith(settings.swaggerRoute, r.value.swaggerRoute)
      && |r.value.swaggerUiRoute| + BasePathLength(settings) == |settings.swaggerUiRoute|
      && EndsWith(settings.swaggerUiRoute, r.value.swaggerUiRoute)
      && r.value.indexPath == r.value.swaggerUiRoute + IndexPage
  {
    var n := BasePathLength(settings);
    if n <= |settings.swaggerRoute| && n <= |settings.swaggerUiRoute| then
      var ui := settings.swaggerUiRoute[n..];
      Some(MiddlewareRoutes(settings.swaggerRoute[n..], ui, ui + IndexPage))
    else None
  }

  /** Routes that start with the base path are mounted on their remainders. */
  lemma ActualRoutesBelowBase(base: string, swagger: string, ui: string)
    ensures ActualRoutes(UiSettings(base + swagger, base + ui, Some(base))) ==
      Some(MiddlewareRoutes(swagger, ui, ui + IndexPage))
  {
  }

  /** A null base path drops nothing. */
  lemma ActualRoutesWithoutBase(swagger: string, ui: string)
    ensures ActualRoutes(UiSettings(swagger, ui, None)) == Some(MiddlewareRoutes(swagger, ui, ui + IndexPage))
  {
  }

  // ---------------------------------------------------------------------------
  // The two middlewares

  /** Path tests and URLs built by the middlewares. `path` is `Request.Path.Value`;
      a `PathString` has a value exactly when it is not empty. */
  predicate RedirectApplies(path: string, fromPath: string) {
    path != "" && EqualsIgnoreCase(Trim(path, '/'), Trim(fromPath, '/'))
  }

  predicate IndexApplies(path: string, indexPath: string) {
    path != "" && StartsWithIgnoreCase(Trim(path, '/'), Trim(indexPath, '/'))
  }

  /** The `Location` of the redirect. */
  function RedirectTarget(url: string): string {
    TrimEnd(url, '/') + IndexPage
  }

  /** The URL of the service's `swagger.json` as seen from the requested page. */
  function SwaggerUrl(url: string): string {
    ReplaceAll(TrimEnd(url, '/'), IndexPage, "") + SwaggerJsonPath
  }

  /** Surrounding slashes do not affect the redirect decision. */
  lemma RedirectAppliesIgnoresSlashes(path: string, fromPath: string)
    requires path != ""
    ensures RedirectApplies("/" + path + "/", fromPath) == RedirectApplies(path, fromPath)
  {
    TrimIgnoresSurrounding(path, '/');
  }

  /** The redirect and the index middleware never both fire on one request when the
      index page is mounted under the redirect's path. */
  lemma RedirectExcludesIndex(path: string, uiRoute: string)
    ensures !(RedirectApplies(path, uiRoute) && IndexApplies(path, uiRoute + IndexPage))
  {
    var g := Trim(uiRoute + IndexPage, '/');
    TrimStartConcat(uiRoute, IndexPage, '/');
    if TrimStart(uiRoute, '/') == [] {
      assert IndexPage[1..] == "index.html";
      TrimStartKeeps("index.html", '/');
      TrimEndKeeps("index.html", '/');
      assert |g| == 10;
      assert Trim(uiRoute, '/') == [];
    } else {
      var s := TrimStart(uiRoute, '/') + IndexPage;
      TrimEndKeeps(s, '/');
      assert |g| == |TrimStart(uiRoute, '/')| + 11;
    }
    assert |g| > |Trim(uiRoute, '/')|;
    if RedirectApplies(path, uiRoute) {
      var t := Trim(path, '/');
      assert |Fold(t)| == |t| && |Fold(Trim(uiRoute, '/'))| == |Trim(uiRoute, '/')|;
      assert |t| < |g|;
    }
  }

  /** Trailing slashes of the request URL do not change the redirect target. */
  lemma RedirectTargetIgnoresTrailingSlash(url: string)
    ensures RedirectTarget(url + "/") == RedirectTarget(url)
  {
  }

  /** A URL without a trailing slash is extended by `/index.html`. */
  lemma RedirectTargetOfPlainUrl(url: string)
    requires url == [] || url[|url| - 1] != '/'
    ensures RedirectTarget(url) == url + IndexPage
  {
  }

  /** Trailing slashes of the request URL do not change the swagger URL. */
  lemma SwaggerUrlIgnoresTrailingSlash(url: string)
    ensures SwaggerUrl(url + "/") == SwaggerUrl(url)
  {
  }

  /** The swagger URL is always `/v1/swagger.json` below something. */
  lemma SwaggerUrlShape(url: string)
    ensures EndsWith(SwaggerUrl(url), SwaggerJsonPath)
  {
  }

  /** Following the redirect leads the index page to the `swagger.json` under the same
      base URL, provided no `/index.html` starts inside that base URL. */
  lemma RedirectLeadsToSwaggerJson(url: string)
    requires forall i :: 0 <= i < |TrimEnd(url, '/')| ==> !MatchAt(TrimEnd(url, '/') + IndexPage, i, IndexPage)
    ensures SwaggerUrl(RedirectTarget(url)) == TrimEnd(url, '/') + SwaggerJsonPath
  {
    var b := TrimEnd(url, '/');
    TrimEndKeeps(b + IndexPage, '/');
    ReplaceAllAfterCleanPrefix(b, IndexPage, IndexPage, "");
    assert IndexPage[|IndexPage|..] == "";
    assert ReplaceAll(IndexPage, IndexPage, "") == "";
    assert b + "" == b;
  }

  /** The parts of an `HttpContext` the middlewares read and write. `nextInvocations`
      counts calls of the next delegate; `body` is what was written to the response. */
  class HttpContext {
    const path: string
    const encodedUrl: string
    var statusCode: int
    var responseHeaders: map<string, string>
    var body: string
    var nextInvocations: nat

    constructor (path: string, encodedUrl: string)
      ensures this.path == path && this.encodedUrl == encodedUrl
      ensures statusCode == 200 && responseHeaders == map[] && body == "" && nextInvocations == 0
    {
      this.path := path;
      this.encodedUrl := encodedUrl;
      statusCode := 200;
      responseHeaders := map[];
      body := "";
      nextInvocations := 0;
    }
  }

  /** `IHeaderDictionary.Add` throws when the header is already present. */
  datatype HeaderError = DuplicateHeader(name: string)

  /** Workaround 1: the UI root redirects to its index page. */
  class RedirectMiddleware {
    const fromPath: string
    const swaggerPath: string

    constructor (fromPath: string, swaggerPath: string)
      ensures this.fromPath == fromPath && this.swaggerPath == swaggerPath
    {
      this.fromPath := fromPath;
      this.swaggerPath := swaggerPath;
    }

    method Invoke(context: HttpContext) returns (outcome: Outcome<HeaderError>)
      modifies context
      ensures context.body == old(context.body)
      ensures RedirectApplies(context.path, fromPath) ==>
        && context.statusCode == 302
        && context.nextInvocations == old(context.nextInvocations)
        && (LocationHeader in old(context.responseHeaders) ==>
              context.responseHeaders == old(context.responseHeaders) && outcome == Fail(DuplicateHeader(LocationHeader)))
        && (LocationHeader !in old(context.responseHeaders) ==>
              context.responseHeaders == old(context.responseHeaders)[LocationHeader := RedirectTarget(context.encodedUrl)]
              && outcome == Pass)
      ensures !RedirectApplies(context.path, fromPath) ==>
        && context.statusCode == old(context.statusCode)
        && context.responseHeaders == old(context.responseHeaders)
        && context.nextInvocations == old(context.nextInvocations) + 1
        && outcome == Pass
    {
      if context.path != "" && EqualsIgnoreCase(Trim(context.path, '/'), Trim(fromPath, '/')) {
        context.statusCode := 302;
        var targetUrl := TrimEnd(context.encodedUrl, '/') + IndexPage;
        if LocationHeader in context.responseHeaders {
          return Fail(DuplicateHeader(LocationHeader));
        }
        context.responseHeaders := context.responseHeaders[LocationHeader := targetUrl];
        outcome := Pass;
      } else {
        context.nextInvocations := context.nextInvocations + 1;
        outcome := Pass;
      }
    }
  }

  /** Workaround 2: the index page is served with the service's own `swagger.json`
      in place of the Petstore sample. */
  class SwaggerUiIndexMiddleware {
    const indexPath: string

    constructor (indexPath: string)
      ensures this.indexPath == indexPath
    {
      this.indexPath := indexPath;
    }

    /** `transformedTemplate` is the template after NSwag's own `TransformHtml`. */
    method Invoke(context: HttpContext, transformedTemplate: string)
      modifies context
      ensures IndexApplies(context.path, indexPath) ==>
        && context.responseHeaders == old(context.responseHeaders)[ContentTypeHeader := HtmlContentType]
        && context.statusCode == 200
        && context.body == old(context.body) + ReplaceAll(transformedTemplate, PetstoreUrl, SwaggerUrl(context.encodedUrl))
        && context.nextInvocations == old(context.nextInvocations)
      ensures !IndexApplies(context.path, indexPath) ==>
        && context.responseHeaders == old(context.responseHeaders)
        && context.statusCode == old(context.statusCode)
        && context.body == old(context.body)
        && context.nextInvocations == old(context.nextInvocations) + 1
    {
      if context.path != "" && StartsWithIgnoreCase(Trim(context.path, '/'), Trim(indexPath, '/')) {
        context.responseHeaders := context.responseHeaders[ContentTypeHeader := HtmlContentType];
        context.statusCode := 200;
        var swaggerUrl := ReplaceAll(TrimEnd(context.encodedUrl, '/'), IndexPage, "") + SwaggerJsonPath;
        assert swaggerUrl == SwaggerUrl(context.encodedUrl);
        var html := ReplaceAll(transformedTemplate, PetstoreUrl, swaggerUrl);
        context.body := context.body + html;
      } else {
        context.nextInvocations := context.nextInvocations + 1;
      }
    }
  }
}
