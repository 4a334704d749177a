/** What the cPanel client sends: the `Authorization` header value, the
    parameters of the cPanel API calls, the split of an e-mail address, the
    query string and header of the API 1 calls made with curl, and the
    request of `execute`. */
module CpanelRequest {
  import opened PhpValues
  import opened Utf8
  import Base64
  import UrlEncoding
  import PhpStrings

  // ---------------------------------------------------------------------
  // preg_replace("'(\r|\n|\s|\t)'", '', $password)

  /** The characters PCRE's `\s` stands for: space, tab, line feed,
      vertical tab, form feed and carriage return. */
  predicate IsPcreSpace(c: char)
  {
    c == ' ' || c == '\t' || c == '\n' || c == '\U{000B}' || c == '\U{000C}' || c == '\r'
  }

  /** The password with every white-space character removed. */
  function StripSpace(s: string): (r: string)
    ensures |r| <= |s|
    ensures forall k :: 0 <= k < |r| ==> !IsPcreSpace(r[k])
  {
    if s == [] then []
    else (if IsPcreSpace(s[0]) then [] else [s[0]]) + StripSpace(s[1..])
  }

  /** Stripping keeps every other character, as often as it occurs. */
  lemma {:induction false} StripKeepsOthers(s: string)
    ensures forall c :: !IsPcreSpace(c) ==> multiset(StripSpace(s))[c] == multiset(s)[c]
  {
    if s != [] {
      StripKeepsOthers(s[1..]);
      assert s == [s[0]] + s[1..];
      assert multiset(s) == multiset([s[0]]) + multiset(s[1..]);
    }
  }

  /** Stripping works piece by piece, so the kept characters stay in order. */
  lemma {:induction false} StripAppend(a: string, b: string)
    ensures StripSpace(a + b) == StripSpace(a) + StripSpace(b)
  {
    if a == [] {
      assert a + b == b;
    } else {
      assert (a + b)[0] == a[0];
      assert (a + b)[1..] == a[1..] + b;
      StripAppend(a[1..], b);
    }
  }

  /** A password without white space is sent as it is. */
  lemma {:induction false} StripIdentity(s: string)
    requires forall k :: 0 <= k < |s| ==> !IsPcreSpace(s[k])
    ensures StripSpace(s) == s
  {
    if s != [] {
      StripIdentity(s[1..]);
      assert [s[0]] + s[1..] == s;
    }
  }

  lemma StripIdempotent(s: string)
    ensures StripSpace(StripSpace(s)) == StripSpace(s)
  {
    StripIdentity(StripSpace(s));
  }

  // ---------------------------------------------------------------------
  // addAuthorization

  /** The `Authorization` header value for an authentication type. */
  function AuthorizationValue(authType: string, user: string, password: string): (v: Scalar)
    ensures v.Str? <==> authType == "hash" || authType == "password"
    ensures v.Null? <==> authType != "hash" && authType != "password"
  {
    if authType == "hash" then Str("WHM " + user + ":" + StripSpace(password))
    else if authType == "password" then Str("Basic " + Base64.Encode(Utf8.Encode(user + ":" + password)))
    else Null
  }

  /** For "hash" the value is "WHM " and then the user and the stripped
      password, which split on ':' gives back. */
  lemma HashAuthorization(user: string, password: string)
    requires ':' !in user && ':' !in password
    ensures var v := AuthorizationValue("hash", user, password).s;
      |v| >= 4 && v[..4] == "WHM " && PhpStrings.Explode(':', v[4..]) == [user, StripSpace(password)]
  {
    var stripped := StripSpace(password);
    StripKeepsOthers(password);
    assert multiset(stripped)[':'] == 0;
    var v := "WHM " + user + ":" + stripped;
    assert v[4..] == user + [':'] + stripped;
    assert PhpStrings.Implode(':', [user, stripped]) == user + [':'] + stripped;
    PhpStrings.ExplodeImplode(':', [user, stripped]);
  }

  /** For "password" the value is "Basic " and the base 64 of the UTF-8
      bytes of "user:password", which decode back to that text. */
  lemma BasicAuthorization(user: string, password: string)
    ensures var v := AuthorizationValue("password", user, password).s;
      |v| >= 6 && v[..6] == "Basic " &&
      Base64.Decode(v[6..]) == Some(Utf8.Encode(user + ":" + password)) &&
      Utf8.Decode(Utf8.Encode(user + ":" + password)) == Some(user + ":" + password)
  {
    var v := AuthorizationValue("password", user, password).s;
    assert v[6..] == Base64.Encode(Utf8.Encode(user + ":" + password));
    Base64.DecodeEncode(Utf8.Encode(user + ":" + password));
    Utf8.DecodeEncode(user + ":" + password);
  }

  /** The shipped default authentication type "root" sends a null header. */
  lemma DefaultAuthTypeSendsNull(user: string, password: string)
    ensures AuthorizationValue("root", user, password) == Null
  {
  }

  /** The headers after `addAuthorization`: only `Authorization` is set. */
  function AuthorizedHeaders(headers: map<string, Scalar>, authType: string, user: string, password: string)
    : (h: map<string, Scalar>)
    ensures h.Keys == headers.Keys + {"Authorization"}
    ensures h["Authorization"] == AuthorizationValue(authType, user, password)
    ensures forall k :: k in headers && k != "Authorization" ==> h[k] == headers[k]
  {
    ArrayMerge(headers, map["Authorization" := AuthorizationValue(authType, user, password)])
  }

  /** Adding the authorization twice gives the headers of adding it once. */
  lemma AuthorizedHeadersIdempotent(headers: map<string, Scalar>, authType: string, user: string, password: string)
    ensures var once := AuthorizedHeaders(headers, authType, user, password);
      AuthorizedHeaders(once, authType, user, password) == once
  {
    MergeIdempotent(headers, map["Authorization" := AuthorizationValue(authType, user, password)]);
  }

  // ---------------------------------------------------------------------
  // cpanel and execute_action

  const ModuleCallKeys := {"cpanel_jsonapi_version", "cpanel_jsonapi_module", "cpanel_jsonapi_func", "cpanel_jsonapi_user"}
  const ApiCallKeys := {"cpanel_jsonapi_apiversion", "cpanel_jsonapi_module", "cpanel_jsonapi_func", "cpanel_jsonapi_user"}

  /** The parameters `cpanel` sends with the 'cpanel' action. */
  function ModuleCallParams(params: map<string, Scalar>, apiModule: string, func: string, user: string)
    : (r: map<string, Scalar>)
    ensures r.Keys == params.Keys + ModuleCallKeys
    ensures r["cpanel_jsonapi_version"] == Int(2)
    ensures r["cpanel_jsonapi_module"] == Str(apiModule)
    ensures r["cpanel_jsonapi_func"] == Str(func)
    ensures r["cpanel_jsonapi_user"] == Str(user)
    ensures forall k :: k in params && k !in ModuleCallKeys ==> r[k] == params[k]
  {
    ArrayMerge(params, map[
      "cpanel_jsonapi_version" := Int(2),
      "cpanel_jsonapi_module" := Str(apiModule),
      "cpanel_jsonapi_func" := Str(func),
      "cpanel_jsonapi_user" := Str(user)])
  }

  /** The parameters `execute_action` sends with the 'cpanel' action. */
  function ApiCallParams(params: map<string, Scalar>, api: Scalar, apiModule: string, func: string, user: string)
    : (r: map<string, Scalar>)
    ensures r.Keys == params.Keys + ApiCallKeys
    ensures r["cpanel_jsonapi_apiversion"] == api
    ensures r["cpanel_jsonapi_module"] == Str(apiModule)
    ensures r["cpanel_jsonapi_func"] == Str(func)
    ensures r["cpanel_jsonapi_user"] == Str(user)
    ensures forall k :: k in params && k !in ApiCallKeys ==> r[k] == params[k]
  {
    ArrayMerge(params, map[
      "cpanel_jsonapi_apiversion" := api,
      "cpanel_jsonapi_module" := Str(apiModule),
      "cpanel_jsonapi_func" := Str(func),
      "cpanel_jsonapi_user" := Str(user)])
  }

  /** A caller's value for one of the fixed keys has no effect. */
  lemma ModuleCallIgnoresFixedKeys(params: map<string, Scalar>, k: string, v: Scalar, apiModule: string, func: string, user: string)
    requires k in ModuleCallKeys
    ensures ModuleCallParams(params[k := v], apiModule, func, user) == ModuleCallParams(params, apiModule, func, user)
  {
    var a, b := ModuleCallParams(params[k := v], apiModule, func, user), ModuleCallParams(params, apiModule, func, user);
    assert a.Keys == b.Keys;
    forall key | key in a ensures a[key] == b[key] {
      if key !in ModuleCallKeys {
        assert key != k;
      }
    }
  }

  lemma ApiCallIgnoresFixedKeys(params: map<string, Scalar>, k: string, v: Scalar, api: Scalar, apiModule: string, func: string, user: string)
    requires k in ApiCallKeys
    ensures ApiCallParams(params[k := v], api, apiModule, func, user) == ApiCallParams(params, api, apiModule, func, user)
  {
    var a, b := ApiCallParams(params[k := v], api, apiModule, func, user), ApiCallParams(params, api, apiModule, func, user);
    assert a.Keys == b.Keys;
    forall key | key in a ensures a[key] == b[key] {
      if key !in ApiCallKeys {
        assert key != k;
      }
    }
  }

  /** The parameters of `emailAction` before `cpanel` adds its own. */
  function EmailParams(domain: string, account: string, password: string): (r: map<string, Scalar>)
    ensures r.Keys == {"domain", "email", "password"}
    ensures r["domain"] == Str(domain) && r["email"] == Str(account) && r["password"] == Str(password)
  {
    map["domain" := Str(domain), "email" := Str(account), "password" := Str(password)]
  }

  // ---------------------------------------------------------------------
  // split_email

  const InvalidEmail := Exception("Email account is not valid.", 0)

  /** `split_email`: the account and the domain, or the exception it throws. */
  function SplitEmail(email: string): (r: Result<(string, string), Exception>)
    ensures r.Ok? <==> multiset(email)['@'] == 1
    ensures r.Err? ==> r.error == InvalidEmail
    ensures r.Ok? ==> '@' !in r.value.0 && '@' !in r.value.1 && r.value.0 + "@" + r.value.1 == email
  {
    var parts := PhpStrings.Explode('@', email);
    PhpStrings.ExplodeShape('@', email);
    if |parts| != 2 then Err(InvalidEmail)
    else
      assert parts[1..] == [parts[1]];
      Ok((parts[0], parts[1]))
  }

  /** An address made of two '@'-free parts splits into those parts. */
  lemma SplitEmailJoin(account: string, domain: string)
    requires '@' !in account && '@' !in domain
    ensures SplitEmail(account + "@" + domain) == Ok((account, domain))
  {
    assert PhpStrings.Implode('@', [account, domain]) == account + "@" + domain;
    PhpStrings.ExplodeImplode('@', [account, domain]);
  }

  // ---------------------------------------------------------------------
  // exec: the API 1 call made with curl

  /** The URL and the one header `exec` gives curl. */
  datatype CurlRequest = CurlRequest(url: string, header: string)

  /** The query with the API version appended, as `exec` sends it. */
  function ExecQuery(query: string): (r: string)
    ensures |r| == |query| + 1 + |ApiVersionPiece| && r[..|query|] == query && r[|query|] == '&'
    ensures r[|query| + 1..] == ApiVersionPiece
  {
    query + "&" + ApiVersionPiece
  }

  const ApiVersionPiece := "api.version=1"

  /** The query segment an operation appends: the API function, '?' and
      its parameters. */
  function QuerySegment(apiFunction: string, params: seq<(string, Option<string>)>): (r: string)
    ensures |r| > |apiFunction| && r[..|apiFunction|] == apiFunction && r[|apiFunction|] == '?'
    ensures r[|apiFunction| + 1..] == UrlEncoding.BuildQuery(params)
  {
    apiFunction + "?" + UrlEncoding.BuildQuery(params)
  }

  /** The '&'-separated pieces of the query `exec` sends for one operation:
      the API function and '?' glued to the first parameter piece, the rest
      of the pieces, then the API version. */
  lemma ExecQueryPieces(apiFunction: string, params: seq<(string, Option<string>)>)
    requires '&' !in apiFunction
    ensures var pieces := UrlEncoding.Pieces(params);
      PhpStrings.Explode('&', ExecQuery(QuerySegment(apiFunction, params))) ==
        if pieces == [] then [apiFunction + "?", ApiVersionPiece]
        else [apiFunction + "?" + pieces[0]] + pieces[1..] + [ApiVersionPiece]
  {
    var pieces := UrlEncoding.Pieces(params);
    var head := apiFunction + "?";
    VersionPieceFree(ApiVersionPiece);
    assert '&' !in head by {
      assert forall k :: 0 <= k < |head| ==> head[k] != '&' by {
        forall k | 0 <= k < |head| ensures head[k] != '&' {
          if k < |apiFunction| { assert head[k] == apiFunction[k]; }
        }
      }
    }
    if pieces == [] {
      assert QuerySegment(apiFunction, params) == PhpStrings.Implode('&', [head]);
      PhpStrings.ExplodeAppended('&', [head], ApiVersionPiece);
    } else {
      var parts := [head + pieces[0]] + pieces[1..];
      PhpStrings.ImplodePrefixFirst('&', head, pieces);
      assert QuerySegment(apiFunction, params) == PhpStrings.Implode('&', parts);
      assert forall k :: 0 <= k < |parts| ==> '&' !in parts[k] by {
        forall k | 0 <= k < |parts| ensures '&' !in parts[k] {
          if k == 0 {
            assert forall m :: 0 <= m < |parts[0]| ==> parts[0][m] != '&' by {
              forall m | 0 <= m < |parts[0]| ensures parts[0][m] != '&' {
                if m < |head| { assert parts[0][m] == head[m]; }
                else { assert parts[0][m] == pieces[0][m - |head|]; }
              }
            }
          } else {
            assert parts[k] == pieces[k];
          }
        }
      }
      PhpStrings.ExplodeAppended('&', parts, ApiVersionPiece);
    }
  }

  lemma VersionPieceFree(v: string)
    requires v == "api.version=1"
    ensures '&' !in v
  {
    assert forall k :: 0 <= k < |v| ==> v[k] != '&';
  }

  /** The request of `exec`. The URL is `$this->hostname . $this->query`,
      and `hostname` is a property no code sets, so it reads as "" and the
      URL is the query alone. The header always uses Basic authentication,
      whatever the authentication type, and ends in "\n\r". */
  function ExecRequest(query: string, user: string, password: string): (r: CurlRequest)
    ensures r.url == ExecQuery(query)
  {
    CurlRequest(ExecQuery(query), "Authorization: Basic " + Base64.Encode(Utf8.Encode(user + ":" + password)) + "\n\r")
  }

  /** The header carries "user:password" in base 64. */
  lemma ExecHeaderCredentials(query: string, user: string, password: string)
    ensures var h := ExecRequest(query, user, password).header;
      var prefix := "Authorization: Basic ";
      |h| >= |prefix| + 2 && h[..|prefix|] == prefix && h[|h| - 2..] == "\n\r" &&
      Base64.Decode(h[|prefix|..|h| - 2]) == Some(Utf8.Encode(user + ":" + password))
  {
    var prefix := "Authorization: Basic ";
    var encoded := Base64.Encode(Utf8.Encode(user + ":" + password));
    var h := prefix + encoded + "\n\r";
    assert h[|prefix|..|h| - 2] == encoded;
    assert h[|h| - 2..] == "\n\r";
    Base64.DecodeEncode(Utf8.Encode(user + ":" + password));
  }

  // ---------------------------------------------------------------------
  // execute: the JSON API call made with the HTTP client

  /** The call `execute` makes: `post` on the client, with the profile's
      host name as base URL, the path, and the array it passes as the
      request data, whose entries are `headers`, `verify`, `query`,
      `timeout` and `connect_timeout`. What the client does with that
      array is the client's business, so its entries are data here, not
      options of the transport. */
  datatype HttpRequest = HttpRequest(
    baseUrl: string,
    path: string,
    headers: map<string, Scalar>,
    query: map<string, Scalar>,
    verify: bool,
    timeout: Scalar,
    connectTimeout: Scalar)

  /** `$array[$key] ?? $default`. */
  function Lookup(m: map<string, Scalar>, key: string, default: Scalar): (v: Scalar)
    ensures key !in m ==> v == default
    ensures key in m && m[key] != Null ==> v == m[key]
    ensures key in m && m[key] == Null ==> v == default
  {
    if key in m && m[key] != Null then m[key] else default
  }

  /** The request of `execute`; both time-out entries are read from the
      headers, with 0 where a header is missing or null. */
  function ExecuteRequest(hostName: string, headers: map<string, Scalar>, action: string, arguments: map<string, Scalar>)
    : (r: HttpRequest)
    ensures r.baseUrl == hostName && r.path == "/json-api/" + action
    ensures r.headers == headers && r.query == arguments && !r.verify
    ensures ("timeout" !in headers || headers["timeout"] == Null) ==> r.timeout == Int(0)
    ensures "timeout" in headers && headers["timeout"] != Null ==> r.timeout == headers["timeout"]
    ensures ("connect_timeout" !in headers || headers["connect_timeout"] == Null) ==> r.connectTimeout == Int(0)
    ensures "connect_timeout" in headers && headers["connect_timeout"] != Null ==> r.connectTimeout == headers["connect_timeout"]
  {
    HttpRequest(hostName, "/json-api/" + action, headers, arguments, false,
                Lookup(headers, "timeout", Int(0)), Lookup(headers, "connect_timeout", Int(0)))
  }
}
