/** `CheckToken`: the app's token check. The token's claims come from the
    JWT parser; the user id claim must be a non-empty string, the two WeChat
    id claims are copied when they are strings. */
module CheckToken {
  import opened Common

  /** A claim value: a JSON string, or any other JSON value. */
  datatype ClaimValue = Text(s: string) | NonText

  type Claims = map<string, ClaimValue>

  /** `CheckTokenReply`. */
  datatype CheckTokenReply = CheckTokenReply(userId: string, wxGzhUserId: string, wxGzhXcxId: string)

  /** Go's `claims[key].(string)` with the ok flag folded in: the claim's
      text when it is present and a string, otherwise None. */
  function TextClaim(claims: Claims, key: string): (v: Option<string>)
    ensures v.Some? <==> key in claims && claims[key].Text?
    ensures v.Some? ==> v.value == claims[key].s
  {
    if key in claims && claims[key].Text? then Some(claims[key].s) else None
  }

  /** The check. `parse` is the JWT parser (signature and expiry included). */
  function CheckToken(token: string, parse: string -> Result<Claims, Fault>): (r: Result<CheckTokenReply, ServiceError>)
    ensures parse(token).Err? ==> r == Err(ServiceError(TokenInvalidErr, Some(parse(token).error)))
    ensures parse(token).Ok? ==>
              var claims := parse(token).value;
              (r.Ok? <==> TextClaim(claims, "uid").Some? && TextClaim(claims, "uid").value != "") &&
              (r.Err? ==> r.error == ServiceError(TokenInvalidErr, None)) &&
              (r.Ok? ==> r.value.userId == claims["uid"].s && r.value.userId != "") &&
              (r.Ok? ==> r.value.wxGzhUserId ==
                           (if "wxGzhUserId" in claims && claims["wxGzhUserId"].Text? then claims["wxGzhUserId"].s else "")) &&
              (r.Ok? ==> r.value.wxGzhXcxId ==
                           (if "wxGzhXcxId" in claims && claims["wxGzhXcxId"].Text? then claims["wxGzhXcxId"].s else ""))
  {
    var parsed := parse(token);
    if parsed.Err? then Err(ServiceError(TokenInvalidErr, Some(parsed.error)))
    else
      var claims := parsed.value;
      var uid := TextClaim(claims, "uid");
      if uid.None? || uid.value == "" then Err(ServiceError(TokenInvalidErr, None))
      else
        var resp := CheckTokenReply(uid.value, "", "");
        var gzh := TextClaim(claims, "wxGzhUserId");
        var resp := if gzh.Some? then resp.(wxGzhUserId := gzh.value) else resp;
        var xcx := TextClaim(claims, "wxGzhXcxId");
        if xcx.Some? then Ok(resp.(wxGzhXcxId := xcx.value)) else Ok(resp)
  }

  /** The ids `GenerateToken` passes to the JWT helper, as string claims.
      The helper adds its own registered claims (issuer, expiry) beside them. */
  function IssuedClaims(userId: string, wxGzhUserId: string, wxGzhXcxId: string): (claims: Claims)
    ensures claims.Keys == {"uid", "wxGzhUserId", "wxGzhXcxId"}
    ensures forall k :: k in claims ==> claims[k].Text?
  {
    map["uid" := Text(userId), "wxGzhUserId" := Text(wxGzhUserId), "wxGzhXcxId" := Text(wxGzhXcxId)]
  }

  /** The parsed claims hold every issued claim unchanged, whatever else
      they hold. */
  predicate Carries(claims: Claims, issued: Claims)
  {
    forall k :: k in issued ==> k in claims && claims[k] == issued[k]
  }

  /** Round trip: a token whose parsed claims carry the ids `GenerateToken`
      passed, next to any other claims, checks to those ids, unless the user
      id is empty. */
  lemma IssuedTokenChecks(token: string, parse: string -> Result<Claims, Fault>,
                          userId: string, wxGzhUserId: string, wxGzhXcxId: string)
    requires parse(token).Ok?
    requires Carries(parse(token).value, IssuedClaims(userId, wxGzhUserId, wxGzhXcxId))
    ensures userId != "" ==> CheckToken(token, parse) == Ok(CheckTokenReply(userId, wxGzhUserId, wxGzhXcxId))
    ensures userId == "" ==> CheckToken(token, parse) == Err(ServiceError(TokenInvalidErr, None))
  {
    var claims, issued := parse(token).value, IssuedClaims(userId, wxGzhUserId, wxGzhXcxId);
    assert "uid" in issued && "wxGzhUserId" in issued && "wxGzhXcxId" in issued;
    assert claims["uid"] == Text(userId);
    assert claims["wxGzhUserId"] == Text(wxGzhUserId);
    assert claims["wxGzhXcxId"] == Text(wxGzhXcxId);
  }
}
