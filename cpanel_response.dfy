/** What the cPanel client makes of the server's replies: the answer codes,
    the decoded payload as the code reads it, the reason patterns, the
    classifiers of the account operations (`Cpanel.php`), the plan list,
    and the outcome of the connection probe. */
module CpanelResponse {
  import opened PhpValues
  import opened Pattern

  /** The `HostingAPI::ANSWER_*` result codes. */
  datatype Answer =
    | AnswerOk
    | UserExist
    | UserNotExist
    | UserNameNotValid
    | UserPasswordNotValid
    | UserAlreadyExist
    | PlanExists
    | PlanNotExist
    | DomainAlreadyExist
    | SystemError
    | ConnectionError

  datatype Package = Package(name: string)

  /** The parts of a decoded reply that the client reads:
      `metadata.result`, `metadata.reason`, `data.pkg` and
      `cpanelresult.data.reason`. A missing flag reads as `Null`, a missing
      reason as "". */
  datatype Payload = Payload(
    result: Scalar,
    reason: string,
    pkg: Option<seq<Package>>,
    accessReason: Option<string>)

  /** What `json_decode` gives for a reply with no object at all. */
  const NoObject := Payload(Null, "", None, None)

  /** What `curl_exec` returns: false, or the body together with its JSON
      decoding (None where the body is not a JSON object). */
  datatype CurlReply = CurlFalse | CurlBody(body: string, decoded: Option<Payload>)

  /** `$this->object` after `exec`; `json_decode` of false or "" is null. */
  function ObjectOf(reply: CurlReply): (p: Payload)
    ensures reply.CurlFalse? || reply.body == "" ==> p == NoObject
  {
    match reply
    case CurlFalse => NoObject
    case CurlBody(body, decoded) =>
      if body == "" then NoObject
      else match decoded
        case None => NoObject
        case Some(p) => p
  }

  /** `exec` reports a connection error: `$this->res == ''` (false compares
      loosely equal to "") or the server replied "Access denied". */
  predicate ConnectionFailure(reply: CurlReply)
  {
    reply.CurlFalse? || reply.body == "" || ObjectOf(reply).accessReason == Some("Access denied")
  }

  /** The failure test case by case: curl returning false or an empty body
      always fails; any other body fails exactly when it decodes to an
      object whose `cpanelresult.data.reason` is "Access denied". */
  lemma ConnectionFailureCases(reply: CurlReply)
    ensures reply.CurlFalse? ==> ConnectionFailure(reply)
    ensures reply.CurlBody? && reply.body == "" ==> ConnectionFailure(reply)
    ensures reply.CurlBody? && reply.body != "" ==>
      (ConnectionFailure(reply) <==> reply.decoded.Some? && reply.decoded.value.accessReason == Some("Access denied"))
  {
  }

  // ---------------------------------------------------------------------
  // The reason patterns, with the spaces exactly as the code writes them.

  const TooShortText := " passwords must be at least "
  const UserMissingHead := " the user "
  const UserMissingTail := " does not exist"
  const CannotBeUsedText := " the password you selected cannot be used "
  const InvalidUsernameText := " is not a valid username on this system"
  const ContainsUsernameText := "password may not contain the username for security reasons"
  const AlreadyHasAccountText := " system already has an account "
  const SameInitialText := "The name of another account on this server has the same initial "
  const DomainHead := " domain "
  const DomainTail := " already exists"
  const SorryUserHead := "Sorry the user "
  const PackageHead := "Specified package "
  const NotExistTail := " does not exist"

  /** `/(.*) passwords must be at least (.*)/` */
  const TooShort := [AnyRun, Lit(TooShortText), AnyRun]
  /** `/(.*) the user (.*) does not exist./` */
  const UserMissing := [AnyRun, Lit(UserMissingHead), AnyRun, Lit(UserMissingTail), AnyChar]
  /** `/(.*) the password you selected cannot be used (.*)/` */
  const CannotBeUsed := [AnyRun, Lit(CannotBeUsedText), AnyRun]
  /** `/(.*) is not a valid username on this system./` */
  const InvalidUsername := [AnyRun, Lit(InvalidUsernameText), AnyChar]
  /** `/(.*)password may not contain the username for security reasons(.*)/` */
  const ContainsUsername := [AnyRun, Lit(ContainsUsernameText), AnyRun]
  /** `/(.*) system already has an account (.*)/` */
  const AlreadyHasAccount := [AnyRun, Lit(AlreadyHasAccountText), AnyRun]
  /** `/The name of another account on this server has the same initial (.*)/` */
  const SameInitial := [Lit(SameInitialText), AnyRun]
  /** `/(.*) domain (.*) already exists(.*)/` */
  const DomainExists := [AnyRun, Lit(DomainHead), AnyRun, Lit(DomainTail), AnyRun]
  /** `/Sorry the user (.*) does not exist/` */
  const SorryUserMissing := [Lit(SorryUserHead), AnyRun, Lit(NotExistTail)]
  /** `/Specified package (.*) does not exist/` */
  const PackageMissing := [Lit(PackageHead), AnyRun, Lit(NotExistTail)]

  // ---------------------------------------------------------------------
  // The classifiers, rule by rule in the code's order.

  /** `changeUserPassword` once `exec` succeeded. */
  function ChangeUserPasswordAnswer(p: Payload): (a: Answer)
    ensures a in {AnswerOk, UserPasswordNotValid, UserNotExist, SystemError}
    ensures a == AnswerOk <==> Truthy(p.result)
  {
    if Truthy(p.result) then AnswerOk
    else if Matches(TooShort, p.reason) then UserPasswordNotValid
    else if Matches(UserMissing, p.reason) then UserNotExist
    else if Matches(CannotBeUsed, p.reason) then UserPasswordNotValid
    else SystemError
  }

  /** `userExist` once `exec` succeeded: the flag alone decides. */
  function UserExistAnswer(p: Payload): (a: Answer)
    ensures a == UserExist <==> Truthy(p.result)
    ensures a == UserNotExist <==> !Truthy(p.result)
  {
    if Truthy(p.result) then UserExist else UserNotExist
  }

  /** `planExist` once `exec` succeeded: whether `data.pkg` is set. */
  function PlanExistAnswer(p: Payload): (a: Answer)
    ensures a == PlanExists <==> p.pkg.Some?
    ensures a == PlanNotExist <==> p.pkg.None?
  {
    if p.pkg.Some? then PlanExists else PlanNotExist
  }

  /** `createUser` once `exec` succeeded. */
  function CreateUserAnswer(p: Payload): (a: Answer)
    ensures a in {AnswerOk, UserNameNotValid, UserPasswordNotValid, UserAlreadyExist, DomainAlreadyExist, SystemError}
    ensures a == AnswerOk <==> Truthy(p.result)
  {
    var r := p.reason;
    if Truthy(p.result) then AnswerOk
    else if Matches(InvalidUsername, r) then UserNameNotValid
    else if Matches(TooShort, r) then UserPasswordNotValid
    else if Matches(CannotBeUsed, r) || Matches(ContainsUsername, r) then UserPasswordNotValid
    else if Matches(AlreadyHasAccount, r) then UserAlreadyExist
    else if Matches(SameInitial, r) then UserNameNotValid
    else if Matches(DomainExists, r) then DomainAlreadyExist
    else SystemError
  }

  /** `suspendUser`, `unsuspendUser` and `removeUser` once `exec`
      succeeded: the flag alone decides, the reason is never read. */
  function FlagOnlyAnswer(p: Payload): (a: Answer)
    ensures a == AnswerOk <==> Truthy(p.result)
    ensures a == SystemError <==> !Truthy(p.result)
  {
    if Truthy(p.result) then AnswerOk else SystemError
  }

  /** `changePlan` once `exec` succeeded. */
  function ChangePlanAnswer(p: Payload): (a: Answer)
    ensures a in {AnswerOk, UserNotExist, PlanNotExist, SystemError}
    ensures a == AnswerOk <==> Truthy(p.result)
  {
    if Truthy(p.result) then AnswerOk
    else if Matches(SorryUserMissing, p.reason) then UserNotExist
    else if Matches(PackageMissing, p.reason) then PlanNotExist
    else SystemError
  }

  /** `createUser` records the reason in `_error` exactly when no rule
      matched. */
  function CreateUserError(p: Payload): (e: Option<string>)
    ensures e.Some? <==> CreateUserAnswer(p) == SystemError
    ensures e.Some? ==> e.value == p.reason
  {
    if CreateUserAnswer(p) == SystemError then Some(p.reason) else None
  }

  // ---------------------------------------------------------------------
  // The same decisions read declaratively: which substrings the reason
  // holds, first rule first.

  /** The answer of `changeUserPassword` for each reason text. */
  lemma ChangeUserPasswordRules(p: Payload)
    ensures var r, a := p.reason, ChangeUserPasswordAnswer(p);
      a == UserPasswordNotValid <==>
        !Truthy(p.result) &&
        (Contains(r, TooShortText) ||
         (!InOrder(r, UserMissingHead, UserMissingTail, true) && Contains(r, CannotBeUsedText)))
    ensures var r, a := p.reason, ChangeUserPasswordAnswer(p);
      a == UserNotExist <==>
        !Truthy(p.result) && !Contains(r, TooShortText) && InOrder(r, UserMissingHead, UserMissingTail, true)
    ensures var r, a := p.reason, ChangeUserPasswordAnswer(p);
      a == SystemError <==>
        !Truthy(p.result) && !Contains(r, TooShortText) &&
        !InOrder(r, UserMissingHead, UserMissingTail, true) && !Contains(r, CannotBeUsedText)
  {
    LiteralShape(TooShortText, p.reason);
    TwoLiteralThenCharShape(UserMissingHead, UserMissingTail, p.reason);
    LiteralShape(CannotBeUsedText, p.reason);
  }

  /** The answer of `createUser` for each reason text. */
  lemma CreateUserRules(p: Payload)
    ensures var r, a := p.reason, CreateUserAnswer(p);
      a == UserNameNotValid <==>
        !Truthy(p.result) &&
        (ContainsThenChar(r, InvalidUsernameText) ||
         (!Contains(r, TooShortText) && !Contains(r, CannotBeUsedText) && !Contains(r, ContainsUsernameText) &&
          !Contains(r, AlreadyHasAccountText) && Contains(r, SameInitialText)))
    ensures var r, a := p.reason, CreateUserAnswer(p);
      a == UserPasswordNotValid <==>
        !Truthy(p.result) && !ContainsThenChar(r, InvalidUsernameText) &&
        (Contains(r, TooShortText) || Contains(r, CannotBeUsedText) || Contains(r, ContainsUsernameText))
    ensures var r, a := p.reason, CreateUserAnswer(p);
      a == UserAlreadyExist <==>
        !Truthy(p.result) && !ContainsThenChar(r, InvalidUsernameText) &&
        !Contains(r, TooShortText) && !Contains(r, CannotBeUsedText) && !Contains(r, ContainsUsernameText) &&
        Contains(r, AlreadyHasAccountText)
    ensures var r, a := p.reason, CreateUserAnswer(p);
      a == DomainAlreadyExist <==>
        !Truthy(p.result) && !ContainsThenChar(r, InvalidUsernameText) &&
        !Contains(r, TooShortText) && !Contains(r, CannotBeUsedText) && !Contains(r, ContainsUsernameText) &&
        !Contains(r, AlreadyHasAccountText) && !Contains(r, SameInitialText) &&
        InOrder(r, DomainHead, DomainTail, false)
    ensures var r, a := p.reason, CreateUserAnswer(p);
      a == SystemError <==>
        !Truthy(p.result) && !ContainsThenChar(r, InvalidUsernameText) &&
        !Contains(r, TooShortText) && !Contains(r, CannotBeUsedText) && !Contains(r, ContainsUsernameText) &&
        !Contains(r, AlreadyHasAccountText) && !Contains(r, SameInitialText) &&
        !InOrder(r, DomainHead, DomainTail, false)
  {
    var r := p.reason;
    LiteralThenCharShape(InvalidUsernameText, r);
    LiteralShape(TooShortText, r);
    LiteralShape(CannotBeUsedText, r);
    LiteralShape(ContainsUsernameText, r);
    LiteralShape(AlreadyHasAccountText, r);
    LiteralShape(SameInitialText, r);
    TwoLiteralShape(DomainHead, DomainTail, r);
  }

  /** The answer of `changePlan` for each reason text. */
  lemma ChangePlanRules(p: Payload)
    ensures var r, a := p.reason, ChangePlanAnswer(p);
      a == UserNotExist <==> !Truthy(p.result) && InOrder(r, SorryUserHead, NotExistTail, false)
    ensures var r, a := p.reason, ChangePlanAnswer(p);
      a == PlanNotExist <==>
        !Truthy(p.result) && !InOrder(r, SorryUserHead, NotExistTail, false) && InOrder(r, PackageHead, NotExistTail, false)
    ensures var r, a := p.reason, ChangePlanAnswer(p);
      a == SystemError <==>
        !Truthy(p.result) && !InOrder(r, SorryUserHead, NotExistTail, false) && !InOrder(r, PackageHead, NotExistTail, false)
  {
    TwoLiteralShape(SorryUserHead, NotExistTail, p.reason);
    TwoLiteralShape(PackageHead, NotExistTail, p.reason);
  }

  /** The reason "passwords must be at least 8" has no space in front of
      "passwords", so the rule does not fire. */
  lemma TooShortNeedsLeadingSpace(s: string)
    requires s == "passwords must be at least 8"
    ensures !Contains(s, TooShortText)
  {
    // Equal lengths: the literal could only sit at the start, and `s`
    // starts with 'p', not a space.
    assert |TooShortText| == |s|;
    assert s[0] != TooShortText[0];
  }

  // No other rule fires on it either: each needs a character it lacks.

  lemma ShortReasonMissesUserMissing(s: string)
    requires s == "passwords must be at least 8"
    ensures !InOrder(s, UserMissingHead, UserMissingTail, true)
  {
    assert UserMissingHead[2] == 'h';
    AbsentCharInOrder(s, UserMissingHead, UserMissingTail, true, 'h');
  }

  lemma ShortReasonMissesInvalidUsername(s: string)
    requires s == "passwords must be at least 8"
    ensures !ContainsThenChar(s, InvalidUsernameText)
  {
    assert InvalidUsernameText[1] == 'i';
    AbsentChar(s, InvalidUsernameText, 'i');
  }

  lemma ShortReasonMissesCannotBeUsed(s: string)
    requires s == "passwords must be at least 8"
    ensures !Contains(s, CannotBeUsedText)
  {
    assert CannotBeUsedText[14] == 'y';
    AbsentChar(s, CannotBeUsedText, 'y');
  }

  lemma ShortReasonMissesContainsUsername(s: string)
    requires s == "passwords must be at least 8"
    ensures !Contains(s, ContainsUsernameText)
  {
    assert ContainsUsernameText[56] == 'n';
    AbsentChar(s, ContainsUsernameText, 'n');
  }

  lemma ShortReasonMissesAlreadyHasAccount(s: string)
    requires s == "passwords must be at least 8"
    ensures !Contains(s, AlreadyHasAccountText)
  {
    assert AlreadyHasAccountText[2] == 'y';
    AbsentChar(s, AlreadyHasAccountText, 'y');
  }

  lemma ShortReasonMissesSameInitial(s: string)
    requires s == "passwords must be at least 8"
    ensures !Contains(s, SameInitialText)
  {
    assert SameInitialText[60] == 'i';
    AbsentChar(s, SameInitialText, 'i');
  }

  lemma ShortReasonMissesDomainExists(s: string)
    requires s == "passwords must be at least 8"
    ensures !InOrder(s, DomainHead, DomainTail, false)
  {
    assert DomainHead[5] == 'i';
    AbsentCharInOrder(s, DomainHead, DomainTail, false, 'i');
  }

  /** So `changeUserPassword` and `createUser` fall through to
      `SystemError` on it. */
  lemma TooShortUnmatched(p: Payload)
    requires !Truthy(p.result) && p.reason == "passwords must be at least 8"
    ensures ChangeUserPasswordAnswer(p) == SystemError
    ensures CreateUserAnswer(p) == SystemError
  {
    TooShortNeedsLeadingSpace(p.reason);
    ShortReasonMissesUserMissing(p.reason);
    ShortReasonMissesInvalidUsername(p.reason);
    ShortReasonMissesCannotBeUsed(p.reason);
    ShortReasonMissesContainsUsername(p.reason);
    ShortReasonMissesAlreadyHasAccount(p.reason);
    ShortReasonMissesSameInitial(p.reason);
    ShortReasonMissesDomainExists(p.reason);
    ChangeUserPasswordRules(p);
    CreateUserRules(p);
  }

  lemma TooShortAfterWord(s: string)
    requires s == "The passwords must be at least 8"
    ensures Contains(s, TooShortText)
  {
    assert s == "The" + TooShortText + "8";
    LitAfter("The", TooShortText, "8");
  }

  lemma LongReasonMissesInvalidUsername(s: string)
    requires s == "The passwords must be at least 8"
    ensures !ContainsThenChar(s, InvalidUsernameText)
  {
    assert InvalidUsernameText[1] == 'i';
    AbsentChar(s, InvalidUsernameText, 'i');
  }

  /** With a word in front, the same text fires the rule. */
  lemma TooShortWithLeadingWord(p: Payload)
    requires !Truthy(p.result) && p.reason == "The passwords must be at least 8"
    ensures ChangeUserPasswordAnswer(p) == UserPasswordNotValid
    ensures CreateUserAnswer(p) == UserPasswordNotValid
  {
    TooShortAfterWord(p.reason);
    LongReasonMissesInvalidUsername(p.reason);
    ChangeUserPasswordRules(p);
    CreateUserRules(p);
  }

  // ---------------------------------------------------------------------
  // getPlans

  /** The package names of a `data.pkg` list. */
  ghost function Names(pkgs: seq<Package>): set<string>
  {
    set k | 0 <= k < |pkgs| :: pkgs[k].name
  }

  lemma NamesExtend(pkgs: seq<Package>, i: nat)
    requires i < |pkgs|
    ensures Names(pkgs[..i + 1]) == Names(pkgs[..i]) + {pkgs[i].name}
  {
    var prefix, shorter := pkgs[..i + 1], pkgs[..i];
    forall n | n in Names(prefix) ensures n in Names(shorter) + {pkgs[i].name} {
      var k :| 0 <= k < |prefix| && prefix[k].name == n;
      if k < i { assert shorter[k] == prefix[k]; }
    }
    forall n | n in Names(shorter) ensures n in Names(prefix) {
      var k :| 0 <= k < i && shorter[k].name == n;
      assert prefix[k] == shorter[k];
    }
    assert prefix[i] == pkgs[i];
  }

  /** The `foreach` of `getPlans`: `$plans[$elem->name] = $elem->name`. */
  method CollectPlans(pkgs: seq<Package>) returns (plans: map<string, string>)
    ensures plans.Keys == Names(pkgs)
    ensures forall n :: n in plans ==> plans[n] == n
  {
    plans := map[];
    var i := 0;
    while i < |pkgs|
      invariant 0 <= i <= |pkgs|
      invariant plans.Keys == Names(pkgs[..i])
      invariant forall n :: n in plans ==> plans[n] == n
      {
      NamesExtend(pkgs, i);
      plans := plans[pkgs[i].name := pkgs[i].name];
      i := i + 1;
    }
    assert pkgs[..i] == pkgs;
  }

  /** `getPlans` once `exec` has run, whatever it returned: the names under
      `data.pkg`, each mapped to itself, and nothing when it is not set. */
  method Plans(p: Payload) returns (plans: map<string, string>)
    ensures p.pkg.None? ==> plans == map[]
    ensures p.pkg.Some? ==> plans.Keys == Names(p.pkg.value)
    ensures forall n :: n in plans ==> plans[n] == n
    ensures plans != map[] ==> PlanExistAnswer(p) == PlanExists
  {
    plans := map[];
    if p.pkg.Some? {
      plans := CollectPlans(p.pkg.value);
    }
  }

  // ---------------------------------------------------------------------
  // checkConnection

  /** What the probe request of `checkConnection` ends in: it completes, or
      it throws an exception that carries a response with a status code, or
      one that carries none. */
  datatype ProbeOutcome = ProbeSucceeded | ProbeStatus(status: int) | ProbeNoResponse

  /** The array `checkConnection` returns (`error` is false on success). */
  datatype ConnectionReport = ConnectionReport(status: int, error: Scalar, verbose: string)

  const UnknownErrorPrefix := "An unknown error has occurred. Server replied with: "

  function ConnectionReportFor(o: ProbeOutcome): (r: ConnectionReport)
    ensures r.status == 1 <==> o.ProbeSucceeded?
    ensures r.status == 0 <==> !o.ProbeSucceeded?
    ensures o.ProbeSucceeded? ==> r == ConnectionReport(1, Bool(false), "Everything is working.")
    ensures o == ProbeStatus(403) ==> r == ConnectionReport(0, Str("auth_error"), "Check Username and Password/Access Key.")
    ensures o.ProbeStatus? && o.status != 403 ==>
      r.error == Str("unknown") && r.verbose == UnknownErrorPrefix + IntToString(o.status)
    ensures o.ProbeNoResponse? ==> r == ConnectionReport(0, Str("conn_error"), "Check CSF or hostname/port.")
  {
    match o
    case ProbeSucceeded => ConnectionReport(1, Bool(false), "Everything is working.")
    case ProbeStatus(code) =>
      if code == 403 then ConnectionReport(0, Str("auth_error"), "Check Username and Password/Access Key.")
      else ConnectionReport(0, Str("unknown"), UnknownErrorPrefix + IntToString(code))
    case ProbeNoResponse => ConnectionReport(0, Str("conn_error"), "Check CSF or hostname/port.")
  }

  /** The status code can be read back from the text of an "unknown"
      report. */
  lemma UnknownReportCarriesStatus(code: nat)
    requires code != 403
    ensures var v := ConnectionReportFor(ProbeStatus(code)).verbose;
      |v| > |UnknownErrorPrefix| && v[..|UnknownErrorPrefix|] == UnknownErrorPrefix &&
      DecimalValue(v[|UnknownErrorPrefix|..]) == code
  {
    var v := ConnectionReportFor(ProbeStatus(code)).verbose;
    assert v == UnknownErrorPrefix + NatToString(code);
    assert v[|UnknownErrorPrefix|..] == NatToString(code);
    DecimalRoundTrip(code);
  }

  /** The three failure reports are told apart by their error code. */
  lemma FailureReportsDistinct(a: ProbeOutcome, b: ProbeOutcome)
    requires !a.ProbeSucceeded? && !b.ProbeSucceeded?
    requires (a == ProbeStatus(403)) != (b == ProbeStatus(403)) || a.ProbeNoResponse? != b.ProbeNoResponse?
    ensures ConnectionReportFor(a).error != ConnectionReportFor(b).error
  {
  }

  // ---------------------------------------------------------------------
  // execute, and the probe of checkConnection made with it

  /** An exception the HTTP client throws: a `ClientException` (a 4xx
      status, with its message); another exception that carries a response
      (a 5xx status); or one without a response (the connection failed).
      The two with a status arise only from a client that throws on 4xx and
      5xx replies. */
  datatype TransportFailure =
    | ClientFailure(status: int, message: string)
    | ResponseFailure(status: int)
    | NoResponse

  /** How the POST of `execute` ends: a response whose body decodes to
      `body`, a response whose body is the JSON literal `false`, or an
      exception of the client. */
  datatype HttpOutcome<J> =
    | Responded(body: J)
    | RespondedFalse
    | Failed(failure: TransportFailure)

  /** The plain exception `execute` throws when the body decodes to
      `false`: after a successful decode `json_last_error_msg()` is
      "No error" and `json_last_error()` is 0. */
  const DecodedFalseError := Exception("No error", 0)

  /** What `execute` does with it: return the decoded body, return the
      message of a client error, throw its own plain exception, or let the
      client's exception go up. */
  datatype ExecuteResult<J> =
    | ReturnedBody(body: J)
    | ReturnedMessage(message: string)
    | Threw(error: Exception)
    | Raised(failure: TransportFailure)

  /** `execute`'s decision: a body decoding to `false` becomes a plain
      exception, which no `catch` of `execute` stops; a `ClientException`
      is rethrown when `throw` is set and turned into its message
      otherwise; every other exception propagates. */
  function ExecuteOutcome<J>(o: HttpOutcome<J>, rethrow: bool): (r: ExecuteResult<J>)
    ensures r.ReturnedBody? <==> o.Responded?
    ensures o.Responded? ==> r.body == o.body
    ensures r.Threw? <==> o.RespondedFalse?
    ensures r.Threw? ==> r.error == DecodedFalseError
    ensures r.ReturnedMessage? <==> o.Failed? && o.failure.ClientFailure? && !rethrow
    ensures r.ReturnedMessage? ==> r.message == o.failure.message
    ensures r.Raised? <==> o.Failed? && (rethrow || !o.failure.ClientFailure?)
    ensures r.Raised? ==> r.failure == o.failure
  {
    match o
    case Responded(body) => ReturnedBody(body)
    case RespondedFalse => Threw(DecodedFalseError)
    case Failed(f) =>
      if f.ClientFailure? && !rethrow then ReturnedMessage(f.message) else Raised(f)
  }

  /** The probe outcome `checkConnection` sees from `execute('', [], true)`,
      or None when its `catch` calls `hasResponse` on the plain exception,
      which has no such method, so `checkConnection` ends in an error. */
  function ProbeOf<J>(r: ExecuteResult<J>): (p: Option<ProbeOutcome>)
    ensures p.None? <==> r.Threw?
    ensures r.ReturnedBody? || r.ReturnedMessage? ==> p == Some(ProbeSucceeded)
    ensures r.Raised? ==> p.Some? && !p.value.ProbeSucceeded?
    ensures p == Some(ProbeNoResponse) <==> r.Raised? && r.failure.NoResponse?
  {
    match r
    case Threw(_) => None
    case Raised(ClientFailure(status, _)) => Some(ProbeStatus(status))
    case Raised(ResponseFailure(status)) => Some(ProbeStatus(status))
    case Raised(NoResponse) => Some(ProbeNoResponse)
    case _ => Some(ProbeSucceeded)
  }

  /** `checkConnection` on the outcome of its probe request: a report, or
      None where it ends in an error instead. */
  function CheckConnectionReport<J>(o: HttpOutcome<J>): (r: Option<ConnectionReport>)
    ensures r.None? <==> o.RespondedFalse?
    ensures r.Some? ==> (r.value.status == 1 <==> o.Responded?)
    ensures o.Failed? && !o.failure.NoResponse? && o.failure.status == 403 ==>
      r == Some(ConnectionReport(0, Str("auth_error"), "Check Username and Password/Access Key."))
    ensures o.Failed? && !o.failure.NoResponse? && o.failure.status != 403 ==>
      r.Some? && r.value.error == Str("unknown") && r.value.verbose == UnknownErrorPrefix + IntToString(o.failure.status)
    ensures o == Failed(NoResponse) ==> r == Some(ConnectionReport(0, Str("conn_error"), "Check CSF or hostname/port."))
  {
    match ProbeOf(ExecuteOutcome(o, true))
    case None => None
    case Some(p) => Some(ConnectionReportFor(p))
  }
}
