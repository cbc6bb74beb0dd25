/** The middleware installed by `UseRequestSchemeFixer` (RequestSchemeFixerExtensions.cs):
    a request forwarded by a proxy takes its scheme from the `X-Forwarded-Proto` header. */
module RequestSchemeFixer {

  const ForwardedProtoHeader := "X-Forwarded-Proto"

  /** The scheme downstream handlers see: the header's value, whatever it is, when the
      header is present; otherwise the request's own scheme. */
  function EffectiveScheme(scheme: string, headers: map<string, string>): string {
    if ForwardedProtoHeader in headers then headers[ForwardedProtoHeader] else scheme
  }

  /** Applying the fix-up a second time with the same headers changes nothing. */
  lemma EffectiveSchemeIdempotent(scheme: string, headers: map<string, string>)
    ensures EffectiveScheme(EffectiveScheme(scheme, headers), headers) == EffectiveScheme(scheme, headers)
  {
  }

  /** Any header value is taken verbatim: there is no allow-list. */
  lemma EffectiveSchemeCopiesAnyValue(scheme: string, headers: map<string, string>, v: string)
    ensures EffectiveScheme(scheme, headers[ForwardedProtoHeader := v]) == v
  {
  }

  /** Without the header the scheme is the request's own. */
  lemma EffectiveSchemeWithoutHeader(scheme: string, headers: map<string, string>)
    requires ForwardedProtoHeader !in headers
    ensures EffectiveScheme(scheme, headers) == scheme
  {
  }

  /** The part of an `HttpContext` this middleware touches. `nextSaw` records the
      scheme seen by each invocation of the next delegate. */
  class HttpRequest {
    var scheme: string
    var headers: map<string, string>
    var nextSaw: seq<string>

    constructor (scheme: string, headers: map<string, string>)
      ensures this.scheme == scheme && this.headers == headers && nextSaw == []
    {
      this.scheme := scheme;
      this.headers := headers;
      nextSaw := [];
    }

    /** The middleware lambda: decide the scheme, then call the next delegate once. */
    method Invoke()
      modifies this
      ensures scheme == EffectiveScheme(old(scheme), old(headers))
      ensures headers == old(headers)
      ensures nextSaw == old(nextSaw) + [scheme]
    {
      if ForwardedProtoHeader in headers {
        scheme := headers[ForwardedProtoHeader];
      }
      nextSaw := nextSaw + [scheme];
    }
  }
}
