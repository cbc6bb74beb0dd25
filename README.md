# HiP-WebserviceLib: verified model of the request and documentation rules

HiP-WebserviceLib is a set of ASP.NET Core support utilities shared by the HiP web services. Most of it is framework wiring. This project models in Dafny the parts that hold decision rules:

- **Identity extraction** (`Auth.cs`). The user id is the value of the first claim of type `https://hip.cs.upb.de/sub`. The roles are all claims of type `https://hip.cs.upb.de/roles`, in order.
- **Forwarded-scheme fix-up** (`RequestSchemeFixerExtensions.cs`). A present `X-Forwarded-Proto` header overrides the request scheme before the rest of the pipeline runs.
- **Swagger auth parameter** (`SwaggerOperationFilter.cs`). An operation whose action has an `AuthorizeFilter` and no `IAllowAnonymousFilter` gains an `Authorization` header parameter and a `401` response.
- **NSwag workarounds** (`NSwagWorkaround.cs`). These cover:
  - matching Swagger operations to MVC actions and appending a Bearer security requirement;
  - the routes the middlewares are mounted on;
  - the redirect from the UI root to its `index.html`;
  - the index page, pointed at the service's own `swagger.json`.
- **Connection strings**. `PostgresDatabaseConfig.cs` has field defaults and the `ConnectionString` property. `AppConfig.cs` has `BuildConnectionString`.

Modules, one per source file, plus three shared ones:

| file | module | models |
|---|---|---|
| `wrappers.dfy` | `Wrappers` | `Option` (C#'s null) and `Outcome` (an exception thrown part-way) |
| `linq.dfy` | `Linq` | `FirstOrDefault`, `Where`/`FindAll` and `Any` over sequences |
| `text.dfy` | `Text` | `Trim`/`TrimStart`/`TrimEnd`, `OrdinalIgnoreCase`, `ToUpper`, `Replace`, interpolation of null, and `Split` as a partner for connection strings |
| `mvc_filters.dfy` | `MvcFilters` | the filter kinds the Swagger rules test for |
| `auth.dfy` | `Auth` | `GetUserIdentity`, `GetUserRoles` |
| `request_scheme_fixer.dfy` | `RequestSchemeFixer` | the `UseRequestSchemeFixer` middleware, as a class with a mutable `scheme` |
| `swagger_operation_filter.dfy` | `SwaggerOperationFilter` | `Apply`, as a method on an `Operation` class |
| `nswag_workaround.dfy` | `NSwagWorkaround` | the `PostProcess` loop, the route slicing, `RedirectMiddleware` and `SwaggerUiIndexMiddleware` |
| `postgres_database_config.dfy` | `Postgres` | `PostgresDatabaseConfig` and its `ConnectionString` |
| `app_config.dfy` | `AppConfig` | `BuildConnectionString`, by successive `StringBuilder` appends |

Modelling choices:

- **Identity.** An identity is `Option<seq<Claim>>`. `None` is an identity that is not a `ClaimsIdentity`. Both lookups are functions, so they cannot change the claims.
- **Roles are claims.** `GetUserRoles` returns the `Claim` objects, as the code does (`IReadOnlyList<Claim>`), not their values.
- **Exceptions.** A C# exception becomes an explicit error result, and state written before the throw is kept. This covers `Dictionary.Add` and `IHeaderDictionary.Add` on an existing key. It also covers `Substring` past the end, which becomes `None` from `ActualRoutes`.
- **Next delegate.** The call to the next middleware is a counter, `nextInvocations`. In the scheme fixer it is a log, `nextSaw`, of the scheme each call sees.
- **Foreign inputs.** These are passed in as parameters: `GetEncodedUrl()`, the HTML after NSwag's private `TransformHtml`, the registered action descriptors, and the configuration root (a map from key to value).
- **`BuildConnectionString` takes only its configuration.** `BuildConnectionString` is static. Its only input is the configuration argument, so the `DbHost`, `DbUsername`, `DbPassword` and `DbName` properties cannot affect it. The model's signature shows this.

Two behaviours one might expect differ from what the code does; the model follows the code:

- One might expect an empty `X-Forwarded-Proto` to count as absent. The code copies it like any other value.
- One might expect a "strict" identity lookup that fails without a principal. There is none: a non-claims identity gives null and an empty role list.

## Model

| member | source | states |
|---|---|---|
| `Linq.FirstIndex` | Auth.cs:17 | the first index whose element satisfies the predicate; none exactly when no element does |
| `Linq.FirstIndexAt` | NSwagWorkaround.cs:109 | when index i is the first match, FirstOrDefault returns it, whatever follows |
| `Linq.Where` | Auth.cs:24 | the filtered sequence is no longer than the input, and every element satisfies the predicate |
| `Linq.WhereConcat` | Auth.cs:24 | filtering distributes over concatenation, so the original order is kept |
| `Linq.WhereMultiplicity` | Auth.cs:24 | each value occurs in the result as often as in the input if it satisfies the predicate, otherwise never |
| `Linq.WhereAll` | Auth.cs:24 | an input whose every element matches is returned whole |
| `Linq.Any` | SwaggerOperationFilter.cs:21-22 | `Any` holds iff some element satisfies the predicate |
| `Linq.AnySameElements` | SwaggerOperationFilter.cs:21-22 | `Any` depends only on which values occur, not on their order or multiplicity |
| `Auth.IsSubClaim` | Auth.cs:17 | computes the lambda of `FirstOrDefault`: the claim's type equals `https://hip.cs.upb.de/sub` exactly (ordinal, case-sensitive) |
| `Auth.IsRolesClaim` | Auth.cs:24 | computes the lambda of `FindAll`: the claim's type equals `https://hip.cs.upb.de/roles` exactly (ordinal, case-sensitive) |
| `Auth.GetUserIdentity` | Auth.cs:14-19 | null for a non-claims identity; for a claims identity, null iff no claim has exactly the type `https://hip.cs.upb.de/sub` |
| `Auth.UserIdentityIsFirstSub` | Auth.cs:16-18 | the id is the value of the first claim, in enumeration order, whose type is the subject type |
| `Auth.UserIdentityIgnoresLaterClaims` | Auth.cs:17 | claims after the first subject claim never change the id |
| `Auth.GetUserRoles` | Auth.cs:21-25 | never null: empty for a non-claims identity; every returned claim has exactly the roles type |
| `Auth.UserRolesExactly` | Auth.cs:23-24 | each claim occurs among the roles as often as it occurs in the identity if it is a roles claim, otherwise never; so the length is the number of roles claims |
| `Auth.UserRolesKeepOrder` | Auth.cs:24 | the roles of two claim lists joined are the roles of the first followed by those of the second |
| `Auth.UserRolesAllRoles` | Auth.cs:24 | an identity of roles claims only yields all of them, in order |
| `Auth.UserClaimsExample` | Auth.cs:16-24 | for claims sub u1, roles editor, roles admin, sub u2: id u1 and the two roles claims; a type differing only in case does not match |
| `RequestSchemeFixer.EffectiveScheme` | RequestSchemeFixerExtensions.cs:24-25 | computes the scheme the rest of the pipeline sees: the `X-Forwarded-Proto` value when the header is present, else the request's own scheme |
| `RequestSchemeFixer.HttpRequest.Invoke` | RequestSchemeFixerExtensions.cs:22-27 | the new scheme is the header's value if it is present, else the old scheme; headers unchanged; the next delegate runs exactly once and sees the new scheme |
| `RequestSchemeFixer.EffectiveSchemeIdempotent` | RequestSchemeFixerExtensions.cs:24-25 | applying the fix-up twice with the same headers gives the same scheme as once |
| `RequestSchemeFixer.EffectiveSchemeCopiesAnyValue` | RequestSchemeFixerExtensions.cs:25 | any header value is copied verbatim; there is no allow-list |
| `RequestSchemeFixer.EffectiveSchemeWithoutHeader` | RequestSchemeFixerExtensions.cs:24 | without the header the scheme is unchanged |
| `MvcFilters.IsAuthorizeFilter` | SwaggerOperationFilter.cs:21 | computes `filter is AuthorizeFilter`, the test both files use for the authorization side (also NSwagWorkaround.cs:127) |
| `MvcFilters.ImplementsAllowAnonymous` | SwaggerOperationFilter.cs:22 | computes `filter is IAllowAnonymousFilter`: true for the framework's `AllowAnonymousFilter` and for every other implementation of the interface; this is the operation filter's anonymous test |
| `MvcFilters.IsAllowAnonymousFilter` | NSwagWorkaround.cs:128 | computes `f.Filter is AllowAnonymousFilter`: true for the framework's class only, so other `IAllowAnonymousFilter` implementations do not suppress the Bearer requirement, unlike in the operation filter |
| `SwaggerOperationFilter.NeedsAuthorization` | SwaggerOperationFilter.cs:20-25 | computes the filter's decision: some filter is an `AuthorizeFilter` and none implements `IAllowAnonymousFilter` |
| `SwaggerOperationFilter.NeedsAuthorizationIff` | SwaggerOperationFilter.cs:20-25 | the operation is changed iff an `AuthorizeFilter` is present and no implementation of `IAllowAnonymousFilter` is |
| `SwaggerOperationFilter.NeedsAuthorizationByPresence` | SwaggerOperationFilter.cs:21-22 | the decision depends only on which filter kinds are present |
| `SwaggerOperationFilter.Operation.Apply` | SwaggerOperationFilter.cs:18-38 | the operation is unchanged unless authorised; otherwise a null list becomes a one-element list, or exactly one parameter (`Authorization`, `header`, required, `string`) is appended after the kept ones, and `401: Unauthorized` is added; an existing `401` key fails after the parameter was appended |
| `NSwagWorkaround.MethodName` | NSwagWorkaround.cs:122 | computes the enum member's `ToString()`: its name as declared, e.g. `Get`, `Options` |
| `Text.ToUpperAscii` | NSwagWorkaround.cs:122 | computes `ToUpper()` of a string, mapping each ASCII lower-case letter to its capital and keeping every other character |
| `Text.EndsWith` | NSwagWorkaround.cs:115 | computes the ordinal `EndsWith`: the suffix is no longer than the string and equals its last characters |
| `NSwagWorkaround.StripAsyncSuffix` | NSwagWorkaround.cs:115-117 | computes the action name without a trailing `Async`, or the name as it is when it has no such suffix |
| `NSwagWorkaround.StripAsyncSuffixRemovesSuffix` | NSwagWorkaround.cs:115-117 | a name ending in `Async` loses exactly that suffix |
| `NSwagWorkaround.StripAsyncSuffixKeepsOthers` | NSwagWorkaround.cs:115-117 | other names are unchanged |
| `NSwagWorkaround.StripAsyncSuffixOnce` | NSwagWorkaround.cs:115-117 | the suffix is removed only once |
| `NSwagWorkaround.UpperMethodNames` | NSwagWorkaround.cs:122 | the upper-cased `SwaggerOperationMethod` names are `GET`, `POST`, `PUT`, `DELETE`, `OPTIONS`, `HEAD`, `PATCH` and `UNDEFINED`, the strings an HTTP-method constraint must list |
| `NSwagWorkaround.ActionMatches` | NSwagWorkaround.cs:111-122 | computes the match of one action with one operation: a controller action, `{Controller}_{stripped name}` equal to the operation id, and a first HTTP-method constraint whose non-null method list contains the upper-cased method |
| `NSwagWorkaround.IsHttpMethodConstraint` | NSwagWorkaround.cs:111-113 | computes the type test of `OfType<HttpMethodActionConstraint>()`, whose first hit is the constraint `ActionMatches` reads |
| `NSwagWorkaround.MatchingAction` | NSwagWorkaround.cs:107-123 | none iff no action matches; otherwise an action of the list that matches (controller action, `{Controller}_{stripped name}` equal to the operation id, first HTTP-method constraint listing the upper-cased method) |
| `NSwagWorkaround.MatchingActionIsFirst` | NSwagWorkaround.cs:107-123 | the first matching action is the one used |
| `NSwagWorkaround.NeedsBearer` | NSwagWorkaround.cs:127-130 | computes the decision for the matched action: some `AuthorizeFilter` and no `AllowAnonymousFilter` |
| `NSwagWorkaround.NeedsBearerIff` | NSwagWorkaround.cs:127-130 | a Bearer requirement is needed iff the action has an `AuthorizeFilter` and no `AllowAnonymousFilter` (other anonymous-filter kinds do not count here) |
| `NSwagWorkaround.FilterDecisionsDiffer` | NSwagWorkaround.cs:127-130 | for a filter that is an `AuthorizeFilter` and also implements `IAllowAnonymousFilter`, the operation filter (SwaggerOperationFilter.cs:21-25) leaves the operation alone while the document processor still appends the Bearer requirement |
| `NSwagWorkaround.WithBearer` | NSwagWorkaround.cs:132-141 | a null list becomes the one-element list; otherwise exactly one Bearer requirement is appended and the old ones are kept |
| `NSwagWorkaround.ProcessOperation` | NSwagWorkaround.cs:104-143 | path, method and id are kept; security is unchanged or has exactly one Bearer requirement appended |
| `NSwagWorkaround.ProcessOperationUnmatched` | NSwagWorkaround.cs:125 | an operation with no matching action is left unchanged |
| `NSwagWorkaround.ProcessOperationFirstMatch` | NSwagWorkaround.cs:107-141 | with the first match at i, the requirement is appended iff that action has an `AuthorizeFilter` and no `AllowAnonymousFilter` |
| `NSwagWorkaround.SwaggerDocument.PostProcess` | NSwagWorkaround.cs:104-144 | every operation of the document, and only those, is processed once, in place |
| `NSwagWorkaround.BasePathLength` | NSwagWorkaround.cs:76-77 | computes `settings.MiddlewareBasePath?.Length ?? 0`: the base path's length, 0 when it is null |
| `NSwagWorkaround.ActualRoutes` | NSwagWorkaround.cs:76-77 | both routes lose their first base-path-length characters (none for a null base path); fails iff a route is shorter than the base path; the index path is the UI route plus `/index.html` |
| `NSwagWorkaround.ActualRoutesBelowBase` | NSwagWorkaround.cs:76-77 | routes below the base path are mounted on their remainders |
| `NSwagWorkaround.ActualRoutesWithoutBase` | NSwagWorkaround.cs:76-77 | a null base path drops nothing |
| `Text.EqualsIgnoreCase` | NSwagWorkaround.cs:194 | computes `string.Equals(a, b, OrdinalIgnoreCase)`: the two strings are equal after folding ASCII capitals to lower case |
| `Text.StartsWithIgnoreCase` | NSwagWorkaround.cs:228 | computes `StartsWith(prefix, OrdinalIgnoreCase)`: the prefix is no longer than the string and equals its first characters ignoring ASCII case |
| `NSwagWorkaround.RedirectApplies` | NSwagWorkaround.cs:193-194 | computes the redirect's test: the path has a value and, with `/` trimmed at both ends, equals the trimmed `fromPath` ignoring case |
| `NSwagWorkaround.IndexApplies` | NSwagWorkaround.cs:228 | computes the index middleware's test: the path has a value and, trimmed of `/`, starts with the trimmed index path ignoring case |
| `NSwagWorkaround.RedirectTarget` | NSwagWorkaround.cs:197 | computes the `Location`: the encoded URL without trailing `/`, followed by `/index.html` |
| `NSwagWorkaround.SwaggerUrl` | NSwagWorkaround.cs:235-237 | computes the swagger URL: the encoded URL without trailing `/`, every `/index.html` in it removed, followed by `/v1/swagger.json` |
| `NSwagWorkaround.RedirectAppliesIgnoresSlashes` | NSwagWorkaround.cs:193-194 | slashes around a non-empty path do not change the redirect decision |
| `NSwagWorkaround.RedirectExcludesIndex` | NSwagWorkaround.cs:82-83 | the redirect and the index middleware, as mounted, never both fire on one request |
| `NSwagWorkaround.RedirectTargetIgnoresTrailingSlash` | NSwagWorkaround.cs:197 | a trailing `/` on the request URL does not change the `Location` |
| `NSwagWorkaround.RedirectTargetOfPlainUrl` | NSwagWorkaround.cs:197 | a URL without a trailing `/` is redirected to itself plus `/index.html` |
| `NSwagWorkaround.SwaggerUrlIgnoresTrailingSlash` | NSwagWorkaround.cs:235-237 | a trailing `/` does not change the swagger URL |
| `NSwagWorkaround.SwaggerUrlShape` | NSwagWorkaround.cs:235-237 | the swagger URL always ends with `/v1/swagger.json` |
| `NSwagWorkaround.RedirectLeadsToSwaggerJson` | NSwagWorkaround.cs:235-237 | the page reached by the redirect points at `/v1/swagger.json` under the same base URL, when no `/index.html` starts inside that base |
| `NSwagWorkaround.RedirectMiddleware.constructor` | NSwagWorkaround.cs:184-189 | stores `fromPath` and `swaggerPath` as given; the next delegate is the context's `nextInvocations` counter |
| `NSwagWorkaround.RedirectMiddleware.Invoke` | NSwagWorkaround.cs:191-204 | fires iff the path has a value and equals `fromPath` after trimming `/` and ignoring case; then status 302 and `Location` set to the trimmed URL plus `/index.html` (fails if `Location` exists); otherwise only the next delegate runs |
| `NSwagWorkaround.SwaggerUiIndexMiddleware.constructor` | NSwagWorkaround.cs:218-224 | stores `indexPath` as given; the settings and resource path are reached only through the transformed template passed to `Invoke`, and the next delegate is the context's counter |
| `NSwagWorkaround.SwaggerUiIndexMiddleware.Invoke` | NSwagWorkaround.cs:226-251 | fires iff the path has a value and, trimmed, starts with the trimmed index path ignoring case; then HTML content type, status 200, and the page with the Petstore URL replaced by the swagger URL; otherwise only the next delegate runs |
| `Text.TrimStart` | NSwagWorkaround.cs:194 | the result is a suffix of the input that does not start with the character, and only copies of it were removed |
| `Text.TrimEnd` | NSwagWorkaround.cs:197 | the result is a prefix of the input that does not end with the character, and only copies of it were removed |
| `Text.Trim` | NSwagWorkaround.cs:194 | the result is a slice of the input that neither starts nor ends with the character, and every character outside the slice is that character |
| `Text.TrimStartConcat` | NSwagWorkaround.cs:228 | trimming the front of a concatenation keeps the second part whole once the first part has another character |
| `Text.TrimIgnoresSurrounding` | NSwagWorkaround.cs:194 | `Trim` does not see copies of the character added at both ends |
| `Text.EqualsIgnoreCaseCharwise` | NSwagWorkaround.cs:194 | case-insensitive equality holds iff lengths agree and every pair of characters folds alike |
| `Text.ReplaceAll` | NSwagWorkaround.cs:237 | a string with no occurrence of the pattern is returned unchanged |
| `Text.ReplaceAllAfterCleanPrefix` | NSwagWorkaround.cs:237 | a prefix in which no occurrence starts passes through `Replace` unchanged |
| `Text.ReplaceAllFirstOccurrence` | NSwagWorkaround.cs:237 | the first occurrence from the left is replaced and scanning resumes after it, so with the previous lemma every occurrence is replaced, left to right, without overlaps |
| `Text.Interpolated` | PostgresDatabaseConfig.cs:35 | computes `$"{x}"`: the value itself, or the empty string for null |
| `Postgres.Default` | PostgresDatabaseConfig.cs:11-35 | a fresh configuration (host `localhost`, user and password `postgres`, port `5432`, no name) yields `Host=localhost;Username=postgres;Password=postgres;Database=;Pooling=true;Port=5432;` |
| `Postgres.ConnectionString` | PostgresDatabaseConfig.cs:34-35 | computes the connection string from the current property values, a null value interpolated as empty |
| `Postgres.ConnectionStringIsTerminated` | PostgresDatabaseConfig.cs:34-35 | the string is Host, Username, Password, Database, `Pooling=true`, Port, in that order, each followed by `;` |
| `Postgres.ConnectionStringSegments` | PostgresDatabaseConfig.cs:34-35 | splitting at `;` gives back exactly those six segments when no value holds a `;` |
| `Postgres.PasswordIsNotEscaped` | PostgresDatabaseConfig.cs:35 | values are inserted verbatim: a `;` in the password splits it into two segments |
| `Postgres.UnsetNameGivesEmptyDatabase` | PostgresDatabaseConfig.cs:11-35 | a null `Name` yields an empty value after `Database=` |
| `Postgres.UnsetNameEnding` | PostgresDatabaseConfig.cs:11-35 | whatever the other values hold, a null `Name` appears as `Database=;` right before `Pooling=true;Port=<port>;` |
| `Postgres.ConnectionStringEnding` | PostgresDatabaseConfig.cs:35 | the string always ends with `Pooling=true;Port=<port>;` |
| `Postgres.DefaultSegments` | PostgresDatabaseConfig.cs:11-35 | the defaults are host `localhost`, user and password `postgres` and port `5432`; only the database name must be set |
| `AppConfig.StringBuilder.Append` | AppConfig.cs:22-26 | the builder's text is the old text followed by the argument |
| `AppConfig.GetValue` | AppConfig.cs:22-25 | computes `GetValue<string>(key)`: the key's value, or null for a missing key |
| `AppConfig.AppConnectionString` | AppConfig.cs:20-28 | computes the string the five appends build |
| `AppConfig.BuildConnectionString` | AppConfig.cs:18-29 | the five appends give exactly the `Host`, `Username`, `Password`, `Database` and `Pooling=true` segments, fed by `DB_HOST`, `DB_USERNAME`, `DB_PASSWORD` and `DB_NAME` |
| `AppConfig.AppConnectionStringSegments` | AppConfig.cs:20-28 | splitting at `;` gives the five segments in order, with no Port segment, when none of the four looked-up values holds a `;` |
| `AppConfig.AppConnectionStringEnding` | AppConfig.cs:26-28 | the result always ends with `Pooling=true;` |
| `AppConfig.AppSegmentsMissingKeys` | AppConfig.cs:22-25 | for every configuration, a missing `DB_HOST`, `DB_USERNAME`, `DB_PASSWORD` or `DB_NAME` leaves its own segment empty after `=`, whatever the other keys hold |
| `AppConfig.AppConnectionStringMatchesPostgres` | AppConfig.cs:22-26 | with a Port segment added, the result is the Postgres connection string for the same values |

## Left out

- Header names are compared exactly. ASP.NET's header dictionary compares them case-insensitively.
- `AppConfig.GetValue`: configuration keys are compared exactly. .NET configuration keys are case-insensitive, so `GetValue<string>("DB_HOST")` also finds a key `db_host`; the model's map stands for the lookup result of each key, not for the raw key spelling.
- A header is a single string. The multi-valued `StringValues` is not modelled.
- The next delegate, async/await, `HttpContext` and the response stream are abstracted. The next delegate is a counter or log, and the response body is a string that writes append to.
- `OrdinalIgnoreCase` and `ToUpper` are modelled on ASCII letters only. Case mapping beyond ASCII is not modelled.
- `NSwagWorkaround.ActionMatches`: `op.Method.ToString().ToUpper()` uses the current culture; the model upper-cases culture-invariantly (ASCII). Under a Turkish or Azerbaijani culture `"Options"` upper-cases to `"OPTİONS"` with a dotted capital I, so an action constrained to `OPTIONS` would never match there; the model does not capture that.
- `NSwagWorkaround.StripAsyncSuffix`: `EndsWith("Async")` is modelled as an ordinal test. .NET applies a culture-sensitive test here, which can differ for ignorable characters and culture-specific contractions.
- `NSwagWorkaround.ActualRoutes`: C#'s `Length` and `Substring` count UTF-16 code units, the model counts Unicode scalar values. For a route holding characters outside the Basic Multilingual Plane that does not start with the base path, the slice and the condition under which `Substring` throws differ. For a route that starts with the base path, both agree.
- `NSwagWorkaround.SwaggerDocument.PostProcess` is modelled on values. If two descriptions shared one operation object, the source would append to it twice; the model does not capture that aliasing.
- Registration and static configuration of the UI are framework wiring and left out. This covers the middleware registration, `UseFileServer`, the embedded file provider and `GetControllerClasses`. It also covers the constant settings: title, enum handling, doc expansion and the security definition.
- NSwag's private `TransformHtml` (reached by reflection) and the embedded HTML template are not modelled. The transformed page is a parameter of the index middleware.
- Reading `README.md` into the document description is file I/O and is left out.
- Null route strings and a null `Responses` dictionary are not modelled. The source would throw `NullReferenceException` there.
- `RedirectMiddleware`'s `swaggerPath` is stored but never read, as in the source.
- Logging (`HipLogging.cs`), `CorsConfig.cs`, `AuthConfig.cs` and the other `AppConfig` properties are left out. They hold no logic.
