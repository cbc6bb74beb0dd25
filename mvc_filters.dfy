/** The MVC filter kinds the Swagger rules look for in an action's filter pipeline. */
module MvcFilters {

  /** A kind a filter descriptor's `Filter` is: an `AuthorizeFilter`, the framework's
      `AllowAnonymousFilter`, some other implementation of `IAllowAnonymousFilter`,
      or anything else (including null). A filter of more than one kind, such as a
      subclass of `AuthorizeFilter` that implements `IAllowAnonymousFilter`, gets one
      entry for each kind it is. */
  datatype FilterKind = AuthorizeFilter | AllowAnonymousFilter | OtherAllowAnonymousFilter | OtherFilter

  /** `filter is AuthorizeFilter`. */
  predicate IsAuthorizeFilter(f: FilterKind) {
    f == AuthorizeFilter
  }

  /** `filter is IAllowAnonymousFilter`: any implementation of the interface. */
  predicate ImplementsAllowAnonymous(f: FilterKind) {
    f == AllowAnonymousFilter || f == OtherAllowAnonymousFilter
  }

  /** `filter is AllowAnonymousFilter`: the framework's class only. */
  predicate IsAllowAnonymousFilter(f: FilterKind) {
    f == AllowAnonymousFilter
  }
}
