/** The cPanel/WHM client (`Host/Cpanel/Cpanel.php`). The PHP class extends
    the connection profile; here it holds one (`base`). The account
    operations build an API 1 query, run it through `exec` with curl and
    classify the decoded reply; the JSON API calls go through `execute`
    with the HTTP client. Both transports are parameters: a function from
    the request to what came back. */
module CpanelHost {
  import opened PhpValues
  import opened CpanelResponse
  import opened CpanelRequest
  import Base

  /** `$data[$key]` of the array handed to `createUser`; a missing key is
      null, and `http_build_query` leaves it out. */
  function Field(data: map<string, string>, key: string): (r: Option<string>)
    ensures r.Some? <==> key in data
    ensures r.Some? ==> r.value == data[key]
  {
    if key in data then Some(data[key]) else None
  }

  /** The parameters `createUser` sends, under cPanel's own names. */
  function CreateUserParams(data: map<string, string>): (r: seq<(string, Option<string>)>)
    ensures |r| == 5
    ensures r[0] == ("username", Field(data, "username")) && r[1] == ("domain", Field(data, "domain"))
    ensures r[2] == ("plan", Field(data, "package")) && r[3] == ("password", Field(data, "password"))
    ensures r[4] == ("contactemail", Field(data, "email"))
  {
    [("username", Field(data, "username")),
     ("domain", Field(data, "domain")),
     ("plan", Field(data, "package")),
     ("password", Field(data, "password")),
     ("contactemail", Field(data, "email"))]
  }

  /** With all five keys given, `createUser` sends one piece per key, in
      order, with `package` sent as `plan` and `email` as `contactemail`. */
  lemma CreateUserPiecesFull(data: map<string, string>)
    requires "username" in data && "domain" in data && "package" in data && "password" in data && "email" in data
    ensures var pieces := UrlEncoding.Pieces(CreateUserParams(data));
      |pieces| == 5 &&
      pieces[0] == UrlEncoding.Pair("username", data["username"]) &&
      pieces[1] == UrlEncoding.Pair("domain", data["domain"]) &&
      pieces[2] == UrlEncoding.Pair("plan", data["package"]) &&
      pieces[3] == UrlEncoding.Pair("password", data["password"]) &&
      pieces[4] == UrlEncoding.Pair("contactemail", data["email"])
  {
    var r := CreateUserParams(data);
    UrlEncoding.PiecesAllPresent(r);
  }

  /** A key missing from `$data` sends nothing: the pieces are those of the
      parameters without it. */
  lemma CreateUserPiecesMissing(data: map<string, string>)
    requires "email" !in data
    ensures UrlEncoding.Pieces(CreateUserParams(data)) == UrlEncoding.Pieces(CreateUserParams(data)[..4])
  {
    var r := CreateUserParams(data);
    UrlEncoding.PiecesAppend(r[..4], [r[4]]);
    assert r == r[..4] + [r[4]];
    UrlEncoding.NullSkipped([], "contactemail");
  }

  class Cpanel {
    /** The connection profile the PHP class inherits. */
    const base: Base.Hosting
    /** `$this->query`: the API 1 query being built. */
    var query: string
    /** `$this->execError`: null, or the connection error of the last `exec`. */
    var execError: Option<Answer>
    /** `$this->res`: what curl returned last; None before any `exec`. */
    var res: Option<CurlReply>
    /** `$this->object`: the decoded reply as the classifiers read it. */
    var obj: Payload
    /** `$this->_error`: the reason of the last unclassified `createUser`. */
    var lastError: Option<string>

    constructor (config: Base.Config)
      ensures fresh(base)
      ensures base.State() == Base.Profile(config.username, config.password, config.authType, Base.HostNameFor(config),
                                           Base.OrEmpty(config.headers), Base.OrEmpty(config.options))
      ensures query == "" && execError == None && res == None && obj == NoObject && lastError == None
    {
      base := new Base.Hosting(config);
      query := "";
      execError := None;
      res := None;
      obj := NoObject;
      lastError := None;
    }

    /** The curl request `exec` makes with the query as it stands. */
    function NextCurlRequest(): CurlRequest
      reads this, base
    {
      ExecRequest(query, base.username, base.password)
    }

    /** The curl request `exec` makes after `segment` is appended to the
        query. */
    function RequestAfter(segment: string): CurlRequest
      reads this, base
    {
      ExecRequest(query + segment, base.username, base.password)
    }

    /** The state `exec` leaves once curl returned `reply`. */
    predicate AfterExec(reply: CurlReply)
      reads this
    {
      query == "" && res == Some(reply) && obj == ObjectOf(reply) &&
      execError == (if ConnectionFailure(reply) then Some(ConnectionError) else None)
    }

    /** `exec`: sends the query with the API version appended, keeps the
        reply, clears the query, and reports whether the call got through. */
    method Exec(curl: CurlRequest -> CurlReply) returns (ok: bool)
      modifies this
      ensures ok == !ConnectionFailure(curl(old(NextCurlRequest())))
      ensures AfterExec(curl(old(NextCurlRequest())))
      ensures lastError == old(lastError)
    {
      var request := ExecRequest(query, base.username, base.password);
      var reply := curl(request);
      execError := None;
      res := Some(reply);
      obj := ObjectOf(reply);
      query := "";
      if ConnectionFailure(reply) {
        execError := Some(ConnectionError);
        ok := false;
      } else {
        ok := true;
      }
    }

    method ChangeUserPassword(user: string, password: string, curl: CurlRequest -> CurlReply) returns (answer: Answer)
      modifies this
      ensures var reply := curl(old(RequestAfter(QuerySegment("passwd", [("user", Some(user)), ("password", Some(password))]))));
        AfterExec(reply) &&
        answer == (if ConnectionFailure(reply) then ConnectionError else ChangeUserPasswordAnswer(ObjectOf(reply)))
      ensures lastError == old(lastError)
    {
      query := query + QuerySegment("passwd", [("user", Some(user)), ("password", Some(password))]);
      var ok := Exec(curl);
      if ok {
        answer := ChangeUserPasswordAnswer(obj);
      } else {
        answer := execError.value;
      }
    }

    method UserExist(user: string, curl: CurlRequest -> CurlReply) returns (answer: Answer)
      modifies this
      ensures var reply := curl(old(RequestAfter(QuerySegment("accountsummary", [("user", Some(user))]))));
        AfterExec(reply) &&
        answer == (if ConnectionFailure(reply) then ConnectionError else UserExistAnswer(ObjectOf(reply)))
      ensures lastError == old(lastError)
    {
      query := query + QuerySegment("accountsummary", [("user", Some(user))]);
      var ok := Exec(curl);
      if ok {
        answer := UserExistAnswer(obj);
      } else {
        answer := execError.value;
      }
    }

    method PlanExist(name: string, curl: CurlRequest -> CurlReply) returns (answer: Answer)
      modifies this
      ensures var reply := curl(old(RequestAfter(QuerySegment("getpkginfo", [("pkg", Some(name))]))));
        AfterExec(reply) &&
        answer == (if ConnectionFailure(reply) then ConnectionError else PlanExistAnswer(ObjectOf(reply)))
      ensures lastError == old(lastError)
    {
      query := query + QuerySegment("getpkginfo", [("pkg", Some(name))]);
      var ok := Exec(curl);
      if ok {
        answer := PlanExistAnswer(obj);
      } else {
        answer := execError.value;
      }
    }

    /** `createUser`; when no rule matches it also records the reason. */
    method CreateUser(data: map<string, string>, curl: CurlRequest -> CurlReply) returns (answer: Answer)
      modifies this
      ensures var reply := curl(old(RequestAfter(QuerySegment("createacct", CreateUserParams(data)))));
        AfterExec(reply) &&
        answer == (if ConnectionFailure(reply) then ConnectionError else CreateUserAnswer(ObjectOf(reply))) &&
        lastError == (if !ConnectionFailure(reply) && CreateUserError(ObjectOf(reply)).Some?
                      then CreateUserError(ObjectOf(reply)) else old(lastError))
    {
      query := query + QuerySegment("createacct", CreateUserParams(data));
      var ok := Exec(curl);
      if ok {
        answer := CreateUserAnswer(obj);
        if answer == SystemError {
          lastError := Some(obj.reason);
        }
      } else {
        answer := execError.value;
      }
    }

    method SuspendUser(user: string, curl: CurlRequest -> CurlReply) returns (answer: Answer)
      modifies this
      ensures var reply := curl(old(RequestAfter(QuerySegment("suspendacct", [("user", Some(user))]))));
        AfterExec(reply) &&
        answer == (if ConnectionFailure(reply) then ConnectionError else FlagOnlyAnswer(ObjectOf(reply)))
      ensures lastError == old(lastError)
    {
      query := query + QuerySegment("suspendacct", [("user", Some(user))]);
      var ok := Exec(curl);
      if ok {
        answer := FlagOnlyAnswer(obj);
      } else {
        answer := execError.value;
      }
    }

    method UnsuspendUser(user: string, curl: CurlRequest -> CurlReply) returns (answer: Answer)
      modifies this
      ensures var reply := curl(old(RequestAfter(QuerySegment("unsuspendacct", [("user", Some(user))]))));
        AfterExec(reply) &&
        answer == (if ConnectionFailure(reply) then ConnectionError else FlagOnlyAnswer(ObjectOf(reply)))
      ensures lastError == old(lastError)
    {
      query := query + QuerySegment("unsuspendacct", [("user", Some(user))]);
      var ok := Exec(curl);
      if ok {
        answer := FlagOnlyAnswer(obj);
        return;
      }
      answer := execError.value;
    }

    /** `removeUser` sends the name under `username`, not `user`. */
    method RemoveUser(user: string, curl: CurlRequest -> CurlReply) returns (answer: Answer)
      modifies this
      ensures var reply := curl(old(RequestAfter(QuerySegment("removeacct", [("username", Some(user))]))));
        AfterExec(reply) &&
        answer == (if ConnectionFailure(reply) then ConnectionError else FlagOnlyAnswer(ObjectOf(reply)))
      ensures lastError == old(lastError)
    {
      query := query + QuerySegment("removeacct", [("username", Some(user))]);
      var ok := Exec(curl);
      if ok {
        answer := FlagOnlyAnswer(obj);
        return;
      }
      answer := execError.value;
    }

    method ChangePlan(user: string, plan: string, curl: CurlRequest -> CurlReply) returns (answer: Answer)
      modifies this
      ensures var reply := curl(old(RequestAfter(QuerySegment("changepackage", [("user", Some(user)), ("pkg", Some(plan))]))));
        AfterExec(reply) &&
        answer == (if ConnectionFailure(reply) then ConnectionError else ChangePlanAnswer(ObjectOf(reply)))
      ensures lastError == old(lastError)
    {
      query := query + QuerySegment("changepackage", [("user", Some(user)), ("pkg", Some(plan))]);
      var ok := Exec(curl);
      if ok {
        answer := ChangePlanAnswer(obj);
      } else {
        answer := execError.value;
      }
    }

    /** `getPlans` ignores what `exec` returned and reads the object it
        left: the names under `data.pkg`, each mapped to itself. */
    method GetPlans(curl: CurlRequest -> CurlReply) returns (plans: map<string, string>)
      modifies this
      ensures var reply := curl(old(RequestAfter("listpkgs?")));
        AfterExec(reply) &&
        plans.Keys == (if ObjectOf(reply).pkg.Some? then Names(ObjectOf(reply).pkg.value) else {})
      ensures forall n :: n in plans ==> plans[n] == n
      ensures lastError == old(lastError)
    {
      query := query + "listpkgs?";
      var _ := Exec(curl);
      plans := Plans(obj);
    }

    /** `addAuthorization`: sets the `Authorization` header of the profile
        and nothing else. */
    method AddAuthorization() returns (self: Cpanel)
      modifies base
      ensures self == this
      ensures base.State() == old(base.State()).(headers :=
        AuthorizedHeaders(old(base.headers), base.authType, base.username, base.password))
    {
      var value := AuthorizationValue(base.GetAuthType(), base.GetUsername(), base.GetPassword());
      var _ := base.AddHeader(map["Authorization" := value]);
      self := this;
    }

    /** `execute`: adds the authorization, posts to "/json-api/" + action,
        and returns what `ExecuteOutcome` decides. */
    method Execute<J>(action: string, arguments: map<string, Scalar>, rethrow: bool, http: HttpRequest -> HttpOutcome<J>)
      returns (r: ExecuteResult<J>)
      modifies base
      ensures base.State() == old(base.State()).(headers :=
        AuthorizedHeaders(old(base.headers), base.authType, base.username, base.password))
      ensures r == ExecuteOutcome(http(ExecuteRequest(base.hostName, base.headers, action, arguments)), rethrow)
    {
      var _ := AddAuthorization();
      var request := ExecuteRequest(base.GetHostName(), base.GetHeaders(), action, arguments);
      r := ExecuteOutcome(http(request), rethrow);
    }

    /** `cpanel`: a cPanel API 2 call through the 'cpanel' action. */
    method CpanelCall<J>(apiModule: string, func: string, user: string, params: map<string, Scalar>,
                         http: HttpRequest -> HttpOutcome<J>)
      returns (r: ExecuteResult<J>)
      modifies base
      ensures base.State() == old(base.State()).(headers :=
        AuthorizedHeaders(old(base.headers), base.authType, base.username, base.password))
      ensures r == ExecuteOutcome(http(ExecuteRequest(base.hostName, base.headers, "cpanel",
                                                      ModuleCallParams(params, apiModule, func, user))), false)
    {
      r := Execute("cpanel", ModuleCallParams(params, apiModule, func, user), false, http);
    }

    /** `execute_action`: a call of the given API version through the
        'cpanel' action. */
    method ExecuteAction<J>(api: Scalar, apiModule: string, func: string, user: string, params: map<string, Scalar>,
                            http: HttpRequest -> HttpOutcome<J>)
      returns (r: ExecuteResult<J>)
      modifies base
      ensures base.State() == old(base.State()).(headers :=
        AuthorizedHeaders(old(base.headers), base.authType, base.username, base.password))
      ensures r == ExecuteOutcome(http(ExecuteRequest(base.hostName, base.headers, "cpanel",
                                                      ApiCallParams(params, api, apiModule, func, user))), false)
    {
      r := Execute("cpanel", ApiCallParams(params, api, apiModule, func, user), false, http);
    }

    /** `emailAction`: an Email module call for one mailbox. */
    method EmailAction<J>(action: string, user: string, password: string, domain: string, account: string,
                          http: HttpRequest -> HttpOutcome<J>)
      returns (r: ExecuteResult<J>)
      modifies base
      ensures base.State() == old(base.State()).(headers :=
        AuthorizedHeaders(old(base.headers), base.authType, base.username, base.password))
      ensures r == ExecuteOutcome(http(ExecuteRequest(base.hostName, base.headers, "cpanel",
                                                      ModuleCallParams(EmailParams(domain, account, password), "Email", action, user))), false)
    {
      r := CpanelCall("Email", action, user, EmailParams(domain, account, password), http);
    }

    /** `addEmailAccount`: an invalid address throws before anything is
        sent. */
    method AddEmailAccount<J>(user: string, email: string, password: string, http: HttpRequest -> HttpOutcome<J>)
      returns (r: Result<ExecuteResult<J>, Exception>)
      modifies base
      ensures SplitEmail(email).Err? ==> r == Err(InvalidEmail) && base.State() == old(base.State())
      ensures SplitEmail(email).Ok? ==>
        var (account, domain) := SplitEmail(email).value;
        base.State() == old(base.State()).(headers :=
          AuthorizedHeaders(old(base.headers), base.authType, base.username, base.password)) &&
        r == Ok(ExecuteOutcome(http(ExecuteRequest(base.hostName, base.headers, "cpanel",
                  ModuleCallParams(EmailParams(domain, account, password), "Email", "addpop", user))), false))
    {
      match SplitEmail(email)
      case Err(e) =>
        r := Err(e);
      case Ok((account, domain)) =>
        var outcome := EmailAction("addpop", user, password, domain, account, http);
        r := Ok(outcome);
    }

    /** `changeEmailPassword`: as `addEmailAccount`, with 'passwdpop'. */
    method ChangeEmailPassword<J>(user: string, email: string, password: string, http: HttpRequest -> HttpOutcome<J>)
      returns (r: Result<ExecuteResult<J>, Exception>)
      modifies base
      ensures SplitEmail(email).Err? ==> r == Err(InvalidEmail) && base.State() == old(base.State())
      ensures SplitEmail(email).Ok? ==>
        var (account, domain) := SplitEmail(email).value;
        base.State() == old(base.State()).(headers :=
          AuthorizedHeaders(old(base.headers), base.authType, base.username, base.password)) &&
        r == Ok(ExecuteOutcome(http(ExecuteRequest(base.hostName, base.headers, "cpanel",
                  ModuleCallParams(EmailParams(domain, account, password), "Email", "passwdpop", user))), false))
    {
      match SplitEmail(email)
      case Err(e) =>
        r := Err(e);
      case Ok((account, domain)) =>
        var outcome := EmailAction("passwdpop", user, password, domain, account, http);
        r := Ok(outcome);
    }

    /** `checkConnection`: an empty call with every exception rethrown,
        and the report made of how it ended; None where the call threw the
        plain exception of a `false` body, on which `checkConnection`
        itself fails. */
    method CheckConnection<J>(http: HttpRequest -> HttpOutcome<J>) returns (report: Option<ConnectionReport>)
      modifies base
      ensures base.State() == old(base.State()).(headers :=
        AuthorizedHeaders(old(base.headers), base.authType, base.username, base.password))
      ensures report == CheckConnectionReport(http(ExecuteRequest(base.hostName, base.headers, "", map[])))
    {
      var r := Execute("", map[], true, http);
      match ProbeOf(r)
      case None =>
        report := None;
      case Some(p) =>
        report := Some(ConnectionReportFor(p));
    }
  }
}
