/** `SwaggerOperationFilter.Apply` (SwaggerOperationFilter.cs): an operation whose action
    requires authorization gets an `Authorization` header parameter and a 401 response. */
module SwaggerOperationFilter {
  import opened Wrappers
  import opened Linq
  import opened MvcFilters

  /** A Swagger `NonBodyParameter`. */
  datatype Parameter = NonBodyParameter(name: string, location: string, description: string, required: bool, paramType: string)

  /** A Swagger `Response`. */
  datatype Response = Response(description: string)

  /** `Dictionary.Add` throws when the key is already present. */
  datatype ApplyError = DuplicateResponseKey(key: string)

  const AuthorizationParameter := NonBodyParameter("Authorization", "header", "access token", true, "string")
  const UnauthorizedKey := "401"
  const UnauthorizedResponse := Response("Unauthorized")

  /** The filter's decision: some `AuthorizeFilter` and no `IAllowAnonymousFilter`. */
  predicate NeedsAuthorization(filters: seq<FilterKind>) {
    Any(filters, IsAuthorizeFilter) && !Any(filters, ImplementsAllowAnonymous)
  }

  /** The decision in terms of which kinds are present. */
  lemma NeedsAuthorizationIff(filters: seq<FilterKind>)
    ensures NeedsAuthorization(filters) <==>
      AuthorizeFilter in filters && AllowAnonymousFilter !in filters && OtherAllowAnonymousFilter !in filters
  {
  }

  /** Order and multiplicity of the filters do not matter. */
  lemma NeedsAuthorizationByPresence(a: seq<FilterKind>, b: seq<FilterKind>)
    requires forall f :: f in a <==> f in b
    ensures NeedsAuthorization(a) == NeedsAuthorization(b)
  {
    AnySameElements(a, b, IsAuthorizeFilter);
    AnySameElements(a, b, ImplementsAllowAnonymous);
  }

  /** A Swagger `Operation`: `parameters` is `None` when the list is null. */
  class Operation {
    var parameters: Option<seq<Parameter>>
    var responses: map<string, Response>

    constructor (parameters: Option<seq<Parameter>>, responses: map<string, Response>)
      ensures this.parameters == parameters && this.responses == responses
    {
      this.parameters := parameters;
      this.responses := responses;
    }

    /** `Apply`, given the kinds of the action's filters in pipeline order. When the
        operation needs authorization the parameter is appended first; adding the 401
        response then fails if that key is taken, leaving the appended parameter. */
    method Apply(filters: seq<FilterKind>) returns (outcome: Outcome<ApplyError>)
      modifies this
      ensures !NeedsAuthorization(filters) ==>
        parameters == old(parameters) && responses == old(responses) && outcome == Pass
      ensures NeedsAuthorization(filters) ==>
        parameters == Some(old(parameters).GetOr([]) + [AuthorizationParameter])
      ensures NeedsAuthorization(filters) && UnauthorizedKey in old(responses) ==>
        responses == old(responses) && outcome == Fail(DuplicateResponseKey(UnauthorizedKey))
      ensures NeedsAuthorization(filters) && UnauthorizedKey !in old(responses) ==>
        responses == old(responses)[UnauthorizedKey := UnauthorizedResponse] && outcome == Pass
    {
      var isAuthorized := Any(filters, IsAuthorizeFilter);
      var allowAnonymous := Any(filters, ImplementsAllowAnonymous);
      if !isAuthorized || allowAnonymous {
        return Pass;
      }
      if parameters == None {
        parameters := Some([]);
      }
      parameters := Some(parameters.value + [AuthorizationParameter]);
      if UnauthorizedKey in responses {
        return Fail(DuplicateResponseKey(UnauthorizedKey));
      }
      responses := responses[UnauthorizedKey := UnauthorizedResponse];
      outcome := Pass;
    }
  }
}
