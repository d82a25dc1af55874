/** How the PHP endpoints read the caller from the `Authorization` header:
    `str_replace('Bearer ', '', $auth)`, PHP truthiness of the token, and the
    number of dot-separated segments `explode('.', $token)` yields. The base64 and
    JSON decoding of the middle segment is not modelled; the `data.id` it yields is
    an input of the endpoints. */
module PhpRequest {
  import opened Base
  import opened Seqs

  const BearerPrefix: string := "Bearer "

  /** PHP's `str_replace($search, $replace, $subject)`: every non-overlapping
      occurrence, scanned left to right, is replaced; an empty search string
      leaves the subject as it is. */
  function StrReplace(search: string, replace: string, subject: string): (r: string)
    ensures search == [] || |subject| < |search| ==> r == subject
    ensures replace == search ==> r == subject
    ensures |replace| <= |search| ==> |r| <= |subject|
    decreases |subject|
  {
    if search == [] || |subject| < |search| then subject
    else if subject[..|search|] == search then replace + StrReplace(search, replace, subject[|search|..])
    else [subject[0]] + StrReplace(search, replace, subject[1..])
  }

  lemma {:induction false} StrReplaceAbsent(search: string, replace: string, subject: string)
    requires !Occurs(search, subject)
    ensures StrReplace(search, replace, subject) == subject
    decreases |subject|
  {
    if search != [] && |subject| >= |search| {
      StrReplaceAbsent(search, replace, subject[1..]);
    }
  }

  /** The token of a request: the header with "Bearer " removed, the empty string
      when the header is missing. */
  function TokenOf(auth: Option<string>): (t: string)
    ensures auth.None? ==> t == ""
    ensures |t| <= |auth.GetOr("")|
  {
    StrReplace(BearerPrefix, "", auth.GetOr(""))
  }

  /** A header written as the client writes it, `'Bearer ' + token`, gives back the
      token, provided the token does not itself contain "Bearer ". */
  lemma BearerRoundTrip(token: string)
    requires !Occurs(BearerPrefix, token)
    ensures TokenOf(Some(BearerPrefix + token)) == token
  {
    var h := BearerPrefix + token;
    assert h[..|BearerPrefix|] == BearerPrefix;
    assert h[|BearerPrefix|..] == token;
    StrReplaceAbsent(BearerPrefix, "", token);
  }

  /** PHP's `!$token` on a string: true for "" and for "0". */
  predicate Falsy(token: string) {
    token == "" || token == "0"
  }

  /** `count(explode('.', $token))`. */
  function SegmentCount(token: string): (n: nat)
    ensures n >= 2 <==> '.' in token
  {
    Count(token, '.') + 1
  }

  /** The viewer of get_public_profile.php: 0 unless the token is truthy and has at
      least two dot-separated segments, in which case it is the id the payload
      claims (`claim`). */
  function ViewerId(auth: Option<string>, claim: int): (viewer: int)
    ensures auth.None? ==> viewer == 0
    ensures auth == Some("") ==> viewer == 0
    ensures '.' !in TokenOf(auth) ==> viewer == 0
    ensures !Falsy(TokenOf(auth)) && '.' in TokenOf(auth) ==> viewer == claim
  {
    var token := TokenOf(auth);
    if !Falsy(token) && SegmentCount(token) >= 2 then claim else 0
  }
}
