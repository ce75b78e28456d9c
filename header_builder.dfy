/**
 `HeaderBuilder.buildHeaders`: three request headers, one of them a fixed
 placeholder credential.
 */
module HeaderBuilder {

  const ContentType := "application/json"
  const PlaceholderAuthorization := "Basic <base64-encoded-credentials>"

  /** `buildHeaders(methodType, hasQueryParams)`. */
  function BuildHeaders(methodType: string, hasQueryParams: bool): (headers: map<string, string>)
    ensures headers.Keys == {"Content-Type", "Authorization", "X-Method-Type"}
    ensures headers["Content-Type"] == ContentType
    ensures headers["Authorization"] == PlaceholderAuthorization
    ensures headers["X-Method-Type"] == methodType
  {
    map["Content-Type" := ContentType,
        "Authorization" := PlaceholderAuthorization,
        "X-Method-Type" := methodType]
  }

  /**
   `hasQueryParams` changes nothing, and the method type is the only input
   that shows: two calls agree exactly when their method types do.
   */
  lemma BuildHeadersDependsOnlyOnMethodType(m1: string, q1: bool, m2: string, q2: bool)
    ensures BuildHeaders(m1, q1) == BuildHeaders(m2, q2) <==> m1 == m2
  {
    if BuildHeaders(m1, q1) == BuildHeaders(m2, q2) {
      assert BuildHeaders(m1, q1)["X-Method-Type"] == BuildHeaders(m2, q2)["X-Method-Type"];
    }
  }
}
