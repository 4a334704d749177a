# cPanel/WHM hosting client — a Dafny model

This project models the core of a PHP client for cPanel/WHM servers. It has two parts.

- **The connection profile** (`src/Base/Hosting.php`). The profile holds the credentials, the authentication type, the host name, and the headers and options for the HTTP client. It is a class whose chained setters change one field each, and whose `addHeader`/`addOptions` merge with `array_merge`. `checkOptions` would reject a profile where the username, password or host name is empty, but it is private and nothing calls it, so no profile is ever validated; the model states what it would return.
- **The cPanel client** (`src/Host/Cpanel/Cpanel.php`). The account operations are `createUser`, `changeUserPassword`, `changePlan`, `userExist`, `planExist`, `suspendUser`, `unsuspendUser`, `removeUser` and `getPlans`. Each one:
  1. appends a WHM API 1 query to `$this->query`;
  2. runs it through `exec` with curl;
  3. makes its answer from the decoded reply.

  How the answer is made differs by operation:
  - `changeUserPassword`, `createUser` and `changePlan` read the `metadata.result` flag first. When it is falsy, they try an ordered list of patterns on `metadata.reason`.
  - `userExist`, `suspendUser`, `unsuspendUser` and `removeUser` read the flag alone.
  - `planExist` reads only whether `data.pkg` is set.
  - `getPlans` classifies nothing; it collects the package names.

  The JSON API calls (`cpanel`, `execute_action`, the e-mail operations, `checkConnection`) go through `execute`. `execute` first adds the `Authorization` header. It then calls the HTTP client's `post` with a path and one array, which holds `headers`, `verify`, `query`, `timeout` and `connect_timeout` entries. The HTTP client is the `PendingRequest` the profile built from its options (`src/Base/Hosting.php:79`).

The two transports are parameters of the methods that use them:

- curl is a function from the request (URL and header) to what `curl_exec` returned;
- the HTTP client is a function from the call (base URL, path and that array) to how it ended. It ends in one of three ways: a decoded body, a body that is the JSON literal `false`, or one of the client's exceptions.

The model holds everything else, including the PHP built-ins the client relies on:

- `explode`/`implode`
- `urlencode` and `http_build_query`
- `base64_encode` over the UTF-8 bytes of a string (section 4 of RFC 4648)
- `array_merge` on string keys
- PHP truthiness and `empty` on strings (`PhpValues.Truthy`, `PhpValues.EmptyString`)
- a PCRE fragment: literals, `.` and `(.*)`, with `preg_match`'s unanchored search

Each built-in is proved against an independent reading:

- the base 64, UTF-8 and form encodings decode back to their input;
- exploding an imploded list gives the list back;
- every pattern shape the client uses matches exactly when its literals occur in the stated order, with no line feed between them.

The model follows the code where a natural reading of it would differ:

- **Leading space in the password rule.** Both password classifiers look for `" passwords must be at least "` with a space in front. For a reason that begins with "passwords must be at least" the password rule does not fire. The answer is then `SYSTEM_ERROR` unless a later rule matches. The lemma `TooShortUnmatched` shows `SYSTEM_ERROR` for "passwords must be at least 8"; `TooShortWithLeadingWord` shows the same text with a word in front is classified as an invalid password.
- **No host in the curl URL.** `exec` builds its URL from `$this->hostname`, a property no code sets, so the URL is the query alone. `exec` also always sends Basic authentication, whatever the authentication type, and ends that header with "\n\r". `ExecRequest` reproduces all three.
- **Time-outs read from the headers.** `execute` reads `timeout` and `connect_timeout` from the headers, not from the options.
- **`getPlans` ignores whether `exec` failed.** It reads whatever object `exec` left.
- **A `false` body escapes `execute`.** When the body is the JSON literal `false`, `json_decode` returns `false`. `execute` then throws a plain exception ("No error", code 0), which its `catch` of `ClientException` does not stop, whatever `$throw` is. In `checkConnection` the `catch` calls `hasResponse` on it. That method does not exist, so `checkConnection` ends in an error rather than a report. `ExecuteOutcome`, `ProbeOf` and `CheckConnectionReport` model this; in the last two, None stands for that error.

The PHP class `Cpanel` extends `Hosting`. Here `CpanelHost.Cpanel` holds its profile as `base` and changes it only through the profile's own methods.

## Model

| member | source | states |
|---|---|---|
| CpanelResponse.ChangeUserPasswordAnswer | src/Host/Cpanel/Cpanel.php:305-319 | The answer is one of OK, USER_PASSWORD_NOT_VALID, USER_NOT_EXIST, SYSTEM_ERROR. It is OK exactly when `metadata.result` is truthy, whatever the reason says. |
| CpanelResponse.ChangeUserPasswordRules | src/Host/Cpanel/Cpanel.php:309-319 | For a falsy flag, gives each answer as a condition on the reason, first rule first. The "at least" text gives an invalid password. Otherwise "the user … does not exist" plus one more character gives a missing user. Otherwise "cannot be used" gives an invalid password. Otherwise SYSTEM_ERROR. |
| CpanelResponse.UserExistAnswer | src/Host/Cpanel/Cpanel.php:331-335 | USER_EXIST exactly when the flag is truthy, and USER_NOT_EXIST exactly when it is not. |
| CpanelResponse.PlanExistAnswer | src/Host/Cpanel/Cpanel.php:348-352 | PLAN_EXIST exactly when `data.pkg` is set, and PLAN_NOT_EXIST exactly when it is not. |
| CpanelResponse.CreateUserAnswer | src/Host/Cpanel/Cpanel.php:374-408 | The answer is OK or one of the five error codes the rules give. It is OK exactly when the flag is truthy. |
| CpanelResponse.CreateUserRules | src/Host/Cpanel/Cpanel.php:378-408 | For a falsy flag, gives each answer as a condition on the reason, in rule order: invalid username; "at least"; "cannot be used" / "may not contain the username"; "already has an account"; "same initial"; "domain … already exists"; otherwise SYSTEM_ERROR. |
| CpanelResponse.CreateUserError | src/Host/Cpanel/Cpanel.php:406-408 | `_error` is set exactly when createUser answers SYSTEM_ERROR, and then it holds the reason text. |
| CpanelResponse.FlagOnlyAnswer | src/Host/Cpanel/Cpanel.php:415-459 | For suspend, unsuspend and remove: OK exactly when the flag is truthy, SYSTEM_ERROR exactly when it is not. |
| CpanelResponse.ChangePlanAnswer | src/Host/Cpanel/Cpanel.php:465-476 | The answer is one of OK, USER_NOT_EXIST, PLAN_NOT_EXIST, SYSTEM_ERROR. It is OK exactly when the flag is truthy. |
| CpanelResponse.ChangePlanRules | src/Host/Cpanel/Cpanel.php:469-476 | For a falsy flag: "Sorry the user … does not exist" gives a missing user. Otherwise "Specified package … does not exist" gives a missing plan. Otherwise SYSTEM_ERROR. |
| CpanelResponse.TooShortNeedsLeadingSpace | src/Host/Cpanel/Cpanel.php:309 | The reason "passwords must be at least 8" does not contain the literal the rule needs. |
| CpanelResponse.TooShortUnmatched | src/Host/Cpanel/Cpanel.php:381 | With a falsy flag, that reason gives SYSTEM_ERROR from both changeUserPassword and createUser. |
| CpanelResponse.TooShortWithLeadingWord | src/Host/Cpanel/Cpanel.php:381 | With a falsy flag, "The passwords must be at least 8" gives USER_PASSWORD_NOT_VALID from both classifiers. |
| CpanelResponse.ObjectOf | src/Host/Cpanel/Cpanel.php:516-517 | A false or empty reply leaves no object. |
| CpanelResponse.CollectPlans | src/Host/Cpanel/Cpanel.php:492-494 | The loop's map has exactly the package names as keys, and every value equals its key, so duplicate names collapse. |
| CpanelResponse.Plans | src/Host/Cpanel/Cpanel.php:487-497 | The plans are empty when `data.pkg` is not set, and otherwise keyed by its names, each mapped to itself. A non-empty result implies planExist would answer PLAN_EXIST. |
| CpanelResponse.ConnectionReportFor | src/Host/Cpanel/Cpanel.php:117-147 | Status 1 exactly on success (error false, "Everything is working."). An exception whose response has status 403 gives auth_error. An exception with any other status gives unknown, with the status in the verbose text. An exception without a response gives conn_error. |
| CpanelResponse.UnknownReportCarriesStatus | src/Host/Cpanel/Cpanel.php:130 | The verbose text of an unknown report is the fixed prefix followed by digits that read back as the status. |
| CpanelResponse.FailureReportsDistinct | src/Host/Cpanel/Cpanel.php:118-139 | The auth, unknown and connection failures carry different error codes. |
| CpanelResponse.ExecuteOutcome | src/Host/Cpanel/Cpanel.php:229-249 | The decoded body is returned exactly when the response was not JSON `false`. A `false` body throws the plain exception ("No error", 0), whatever the rethrow flag. A client error's message is returned exactly when not rethrowing. Every other exception propagates unchanged. |
| CpanelResponse.ProbeOf | src/Host/Cpanel/Cpanel.php:115-139 | There is no probe outcome exactly when `execute` threw its plain exception, on which `hasResponse` fails. The probe succeeds when nothing was thrown. A client exception is a failure, and a "no response" failure exactly when it carries no response. |
| CpanelResponse.CheckConnectionReport | src/Host/Cpanel/Cpanel.php:113-147 | There is no report exactly when the body is JSON `false`. Otherwise: status 1 exactly when a body came back. An exception carrying status 403 (client or response) gives auth_error, with another status unknown and that status, and without a response conn_error. |
| CpanelRequest.StripSpace | src/Host/Cpanel/Cpanel.php:200 | The stripped password holds no white space (space, \t, \n, \v, \f, \r) and is no longer than the input. |
| CpanelRequest.StripKeepsOthers | src/Host/Cpanel/Cpanel.php:200 | Every other character is kept, as many times as it occurs. |
| CpanelRequest.StripAppend | src/Host/Cpanel/Cpanel.php:200 | Stripping a concatenation strips each part, so the kept characters stay in order. |
| CpanelRequest.StripIdentity | src/Host/Cpanel/Cpanel.php:200 | A password without white space is unchanged. |
| CpanelRequest.StripIdempotent | src/Host/Cpanel/Cpanel.php:200 | Stripping twice is stripping once. |
| CpanelRequest.AuthorizationValue | src/Host/Cpanel/Cpanel.php:199-206 | The value is a string exactly for the types "hash" and "password", and null for every other type. |
| CpanelRequest.HashAuthorization | src/Host/Cpanel/Cpanel.php:199-200 | For "hash" and credentials without ':', the value starts with "WHM ". The rest splits on ':' into the user and the stripped password. |
| CpanelRequest.BasicAuthorization | src/Host/Cpanel/Cpanel.php:203-204 | For "password" the value starts with "Basic ". The rest is base 64 that decodes to the UTF-8 bytes of "user:password", and those decode back to the text. |
| CpanelRequest.DefaultAuthTypeSendsNull | config/servers.php:72 | The shipped default type "root" sends a null Authorization header. |
| CpanelRequest.AuthorizedHeaders | src/Host/Cpanel/Cpanel.php:198-207 | The keys are the old ones plus Authorization, which holds the computed value. Every other header is unchanged. |
| CpanelRequest.AuthorizedHeadersIdempotent | src/Host/Cpanel/Cpanel.php:193-210 | Adding the authorization twice gives the same headers as adding it once. |
| CpanelRequest.ModuleCallParams | src/Host/Cpanel/Cpanel.php:265-270 | The four cpanel_jsonapi keys hold version 2, the module, the function and the user. Every other caller key keeps its value, and there are no other keys. |
| CpanelRequest.ModuleCallIgnoresFixedKeys | src/Host/Cpanel/Cpanel.php:265-270 | A caller's value for a fixed key has no effect on the parameters sent. |
| CpanelRequest.ApiCallParams | src/Host/Cpanel/Cpanel.php:290-295 | The same as ModuleCallParams, with `cpanel_jsonapi_apiversion` holding the caller's API version. |
| CpanelRequest.ApiCallIgnoresFixedKeys | src/Host/Cpanel/Cpanel.php:290-295 | A caller's value for a fixed key has no effect on the parameters sent. |
| CpanelRequest.SplitEmail | src/Host/Cpanel/Cpanel.php:157-165 | Succeeds exactly when the address holds exactly one '@'. Both parts are then '@'-free and rejoin to the address. Otherwise it throws "Email account is not valid.". |
| CpanelRequest.SplitEmailJoin | src/Host/Cpanel/Cpanel.php:159-164 | Two '@'-free parts joined by '@' split back into those parts. |
| CpanelRequest.ExecQueryPieces | src/Host/Cpanel/Cpanel.php:504 | The query `exec` sends for one operation's segment (the query is empty before each operation, as the constructor and `exec` leave it) splits on '&' into pieces. The first piece is the API function, '?' and the first key=value piece. The other key=value pieces follow, then "api.version=1". With no parameter value, the pieces are the function with '?', then "api.version=1". |
| CpanelRequest.ExecQuery | src/Host/Cpanel/Cpanel.php:504 | The query sent is the built query, then '&', then "api.version=1". |
| CpanelRequest.QuerySegment | src/Host/Cpanel/Cpanel.php:302 | A segment is the API function, '?', then the `http_build_query` text of the parameters. |
| CpanelRequest.ExecRequest | src/Host/Cpanel/Cpanel.php:512-514 | The URL is the query with the API version appended and no host, because `hostname` is never set. |
| CpanelRequest.ExecHeaderCredentials | src/Host/Cpanel/Cpanel.php:512 | The header is "Authorization: Basic ", then base 64 of "username:password", then "\n\r". The base 64 decodes to the credentials' bytes. |
| CpanelRequest.ExecuteRequest | src/Host/Cpanel/Cpanel.php:227-236 | The call goes to the profile's host name with path "/json-api/" + action. Its array holds the current headers, `verify` false and the arguments as `query`. `timeout` and `connect_timeout` come from the headers, or are 0 when missing or null. |
| CpanelRequest.EmailParams | src/Host/Cpanel/Cpanel.php:179-183 | The mailbox call carries exactly `domain`, `email` (the account) and `password`. |
| CpanelRequest.Lookup | src/Host/Cpanel/Cpanel.php:234-235 | A missing key or a null value gives the default; a present non-null value is returned. |
| UrlEncoding.UrlEncode | src/Host/Cpanel/Cpanel.php:302 | An encoded value holds only letters, digits, `-_.+%`, and never '&' or '='. |
| UrlEncoding.DecodeEncode | src/Host/Cpanel/Cpanel.php:302 | Decoding an encoding gives back the bytes. |
| UrlEncoding.UrlRoundTrip | src/Host/Cpanel/Cpanel.php:302 | A urlencoded string decodes to its UTF-8 bytes, and those decode to the string. |
| UrlEncoding.Pieces | src/Host/Cpanel/Cpanel.php:362-369 | There is at most one piece per parameter, and no piece holds '&'. |
| UrlEncoding.QueryPieces | src/Host/Cpanel/Cpanel.php:362-369 | When some parameter has a value, `http_build_query` output splits on '&' into exactly the pieces of the non-null parameters, in order. |
| UrlEncoding.NullSkipped | src/Host/Cpanel/Cpanel.php:362-369 | A null parameter, such as a missing `$data` key, adds nothing to the query. |
| UrlEncoding.ValueKept | src/Host/Cpanel/Cpanel.php:362-369 | A parameter with a value adds exactly its own key=value piece. |
| Base64.Encode | src/Host/Cpanel/Cpanel.php:204 | The output is 4 characters per started group of 3 bytes, all from the alphabet or '='. |
| Base64.DecodeEncode | src/Host/Cpanel/Cpanel.php:204 | Decoding an encoding gives back the bytes. |
| Utf8.DecodeEncode | src/Host/Cpanel/Cpanel.php:204 | Decoding the UTF-8 bytes of a string gives back the string. |
| Utf8.EncodeChar | src/Host/Cpanel/Cpanel.php:204 | A character takes 1 to 4 bytes, and 1 byte exactly for ASCII. The lead byte is not a continuation byte; the others are. |
| Pattern.LiteralShape | src/Host/Cpanel/Cpanel.php:309 | `(.*) LIT (.*)` and `LIT (.*)` match exactly when the literal occurs. |
| Pattern.LiteralThenCharShape | src/Host/Cpanel/Cpanel.php:378 | `(.*) LIT.` matches exactly when the literal occurs followed by a character other than a line feed. |
| Pattern.TwoLiteralShape | src/Host/Cpanel/Cpanel.php:402 | `(.*) A (.*) B (.*)` and `A (.*) B` match exactly when A occurs and B occurs after it, with no line feed between. |
| Pattern.TwoLiteralThenCharShape | src/Host/Cpanel/Cpanel.php:312 | The same as TwoLiteralShape, with a non-line-feed character after B. |
| Pattern.AbsentChar | src/Host/Cpanel/Cpanel.php:309 | A literal needing a character the text lacks does not occur in it. |
| PhpStrings.ExplodeShape | src/Host/Cpanel/Cpanel.php:159-160 | `explode` gives one more piece than there are separators. No piece holds the separator, and imploding the pieces gives back the text. |
| PhpStrings.ExplodeImplode | src/Host/Cpanel/Cpanel.php:159 | Exploding an imploded list of separator-free pieces gives back the list. |
| PhpValues.FalsyValues | src/Host/Cpanel/Cpanel.php:305 | A scalar is falsy exactly when it is null, false, 0, "" or "0"; the same "" and "0" are the strings `empty` accepts (src/Base/Hosting.php:226-234). |
| PhpValues.ArrayMerge | src/Base/Hosting.php:176 | The keys are the union. The argument's keys override; the other keys keep their values. |
| PhpValues.MergeIdempotent | src/Base/Hosting.php:203 | Merging the same array twice is merging it once. |
| PhpValues.DecimalRoundTrip | src/Host/Cpanel/Cpanel.php:130 | The decimal text of a natural number reads back as that number. |
| CpanelHost.CreateUserParams | src/Host/Cpanel/Cpanel.php:362-368 | Five parameters in order: username, domain, plan (from `package`), password and contactemail (from `email`), each null when its key is missing. |
| CpanelHost.CreateUserPiecesFull | src/Host/Cpanel/Cpanel.php:362-369 | With all five keys given, the query carries exactly five pieces in that order, under cPanel's names. |
| CpanelHost.CreateUserPiecesMissing | src/Host/Cpanel/Cpanel.php:362-369 | A missing `email` key sends no contactemail piece. |
| CpanelResponse.ConnectionFailureCases | src/Host/Cpanel/Cpanel.php:528 | `exec` fails when curl returns false or an empty body. Any other body fails exactly when its object's `cpanelresult.data.reason` is "Access denied". |
| CpanelHost.Field | src/Host/Cpanel/Cpanel.php:363-367 | A missing `$data` key reads as null; a present key gives its value. |
| CpanelHost.Cpanel.constructor | src/Base/Hosting.php:62-71 | The profile is the one the configuration gives. The query is empty, and there is no error, reply or object yet. |
| CpanelHost.Cpanel.Exec | src/Host/Cpanel/Cpanel.php:501-537 | Sends the query with `&api.version=1`, keeps the reply and its object, and clears the query. Returns false with execError CONNECTION_ERROR exactly when the body is empty or false, or the reply says "Access denied". Otherwise returns true with execError null. |
| CpanelHost.Cpanel.ChangeUserPassword | src/Host/Cpanel/Cpanel.php:301-324 | Sends `passwd?user=…&password=…`. On a connection failure the answer is CONNECTION_ERROR; otherwise it is ChangeUserPasswordAnswer of the reply. The query is left empty. |
| CpanelHost.Cpanel.UserExist | src/Host/Cpanel/Cpanel.php:326-339 | Sends `accountsummary?user=…`. The answer is CONNECTION_ERROR on failure, otherwise UserExistAnswer. |
| CpanelHost.Cpanel.PlanExist | src/Host/Cpanel/Cpanel.php:341-357 | Sends `getpkginfo?pkg=…`. The answer is CONNECTION_ERROR on failure, otherwise PlanExistAnswer. |
| CpanelHost.Cpanel.CreateUser | src/Host/Cpanel/Cpanel.php:359-413 | Sends `createacct?` with username, domain, plan (from package), password and contactemail (from email). The answer is CONNECTION_ERROR on failure, otherwise CreateUserAnswer. `_error` is set to the reason only when no rule matched. |
| CpanelHost.Cpanel.SuspendUser | src/Host/Cpanel/Cpanel.php:415-427 | Sends `suspendacct?user=…`. The answer is CONNECTION_ERROR on failure, otherwise FlagOnlyAnswer. |
| CpanelHost.Cpanel.UnsuspendUser | src/Host/Cpanel/Cpanel.php:429-442 | Sends `unsuspendacct?user=…`. The answer is CONNECTION_ERROR on failure, otherwise FlagOnlyAnswer. |
| CpanelHost.Cpanel.RemoveUser | src/Host/Cpanel/Cpanel.php:444-459 | Sends `removeacct?username=…`. The answer is CONNECTION_ERROR on failure, otherwise FlagOnlyAnswer. |
| CpanelHost.Cpanel.ChangePlan | src/Host/Cpanel/Cpanel.php:461-480 | Sends `changepackage?user=…&pkg=…`. The answer is CONNECTION_ERROR on failure, otherwise ChangePlanAnswer. |
| CpanelHost.Cpanel.GetPlans | src/Host/Cpanel/Cpanel.php:482-499 | Sends `listpkgs?`. Whatever exec returned, the plans are keyed by the names under `data.pkg` of the object it left, or are empty, and each plan maps to itself. |
| CpanelHost.Cpanel.AddAuthorization | src/Host/Cpanel/Cpanel.php:193-210 | Only the profile's headers change, to AuthorizedHeaders of the old headers, and the object itself is returned. |
| CpanelHost.Cpanel.Execute | src/Host/Cpanel/Cpanel.php:225-250 | Adds the authorization, then makes the call ExecuteRequest gives for the new headers and the arguments. The result is ExecuteOutcome of how the call ended. |
| CpanelHost.Cpanel.CpanelCall | src/Host/Cpanel/Cpanel.php:262-274 | Executes the action 'cpanel' with ModuleCallParams and without rethrowing. |
| CpanelHost.Cpanel.ExecuteAction | src/Host/Cpanel/Cpanel.php:287-299 | Executes the action 'cpanel' with ApiCallParams and without rethrowing. |
| CpanelHost.Cpanel.EmailAction | src/Host/Cpanel/Cpanel.php:177-184 | Makes an Email module call with the domain, the account as `email`, and the password. |
| CpanelHost.Cpanel.AddEmailAccount | src/Host/Cpanel/Cpanel.php:85-90 | An address that does not split throws, with nothing sent and the profile unchanged. Otherwise it makes the `addpop` call for the account and domain. |
| CpanelHost.Cpanel.ChangeEmailPassword | src/Host/Cpanel/Cpanel.php:101-106 | As AddEmailAccount, with `passwdpop`. |
| CpanelHost.Cpanel.CheckConnection | src/Host/Cpanel/Cpanel.php:113-148 | The report is CheckConnectionReport of how the empty, rethrowing call ended, with None where `checkConnection` fails; the headers get the authorization. |
| Base.HostNameFor | src/Base/Hosting.php:64 | The host name is the protocol, "://", the host, ':', the port and a final '/', in that order. |
| Base.OrEmpty | src/Base/Hosting.php:68-69 | An absent array becomes the empty map; a present one is kept. |
| Base.FirstUnset | src/Base/Hosting.php:224-237 | There is no error exactly when the username, password and host name are all non-empty ("" and "0" are empty). Otherwise the error is the first empty field's, in that order, with code 422. |
| Base.FirstUnsetIgnoresOtherFields | src/Base/Hosting.php:224-237 | The authentication type, headers and options never affect the check. |
| Base.ConfiguredProfilePasses | src/Base/Hosting.php:64 | A composed host name is never empty, so a profile with non-empty credentials passes the check. |
| Base.Hosting.constructor | src/Base/Hosting.php:62-71 | hostName is "protocol://host:port/". The credentials and type come from the configuration. Headers and options default to empty. |
| Base.Hosting.SetAuthType | src/Base/Hosting.php:87-91 | Only authType changes, getAuthType returns the new value, and the object itself is returned. |
| Base.Hosting.SetUsername | src/Base/Hosting.php:112-116 | Only username changes, and getUsername returns it. |
| Base.Hosting.SetPassword | src/Base/Hosting.php:129-133 | Only password changes, and getPassword returns it. |
| Base.Hosting.SetHostName | src/Base/Hosting.php:146-150 | Only hostName changes, and getHostName returns it. |
| Base.Hosting.SetOptions | src/Base/Hosting.php:164-168 | The options are replaced, and nothing else changes. |
| Base.Hosting.AddOptions | src/Base/Hosting.php:174-178 | The options gain the argument's keys, with the argument overriding; other keys keep their values. Nothing else changes. |
| Base.Hosting.SetHeaders | src/Base/Hosting.php:192-196 | The headers are replaced, and nothing else changes. |
| Base.Hosting.AddHeader | src/Base/Hosting.php:201-205 | The headers gain the argument's keys, with the argument overriding; other keys keep their values. Nothing else changes. |
| Base.Hosting.SetAuthorization | src/Base/Hosting.php:250-256 | Only the username and password change. |
| Base.Hosting.CheckOptions | src/Base/Hosting.php:224-237 | Returns the object exactly when the three fields are non-empty, and otherwise the first field's 422 exception. It changes nothing. Nothing calls it. |
| Base.Hosting.GetAuthType | src/Base/Hosting.php:96-99 | Reads back the profile's authentication type. |
| Base.Hosting.GetUsername | src/Base/Hosting.php:104-107 | Reads back the profile's username. |
| Base.Hosting.GetPassword | src/Base/Hosting.php:121-124 | Reads back the profile's password. |
| Base.Hosting.GetHostName | src/Base/Hosting.php:138-141 | Reads back the profile's host name. |
| Base.Hosting.GetOptions | src/Base/Hosting.php:155-158 | Reads back the profile's options. |
| Base.Hosting.GetHeaders | src/Base/Hosting.php:183-186 | Reads back the profile's headers. |

## Left out

- The transports are not modelled; their outcomes are inputs, with these limits:
  - The curl options, `curl_error` and `curl_close` are not modelled.
  - `Http::withOptions(...)->withHeaders(...)` is not modelled. This covers `setHttp`/`getHttp` (`src/Base/Hosting.php:77-81`, `210-213`) and the options and headers the client captures when it is built.
  - `baseUrl` and the HTTP exceptions are reduced to the outcomes of `HttpOutcome`.
  - The array `execute` hands to `post` is modelled as data. What the client does with `post`'s second argument is not modelled: it is the request data, not per-request options.
  - `ClientFailure` and `ResponseFailure` stand for a client that throws on 4xx and 5xx replies. The shipped configuration sets `http_errors` to false (`config/servers.php:29`). A client built from it throws nothing for such a reply, which then comes back as a body; `checkConnection` would report it as working. The model leaves the outcome as an input and does not tie it to the options.
- JSON decoding is not modelled. A decoded reply is a `Payload`, given with the body. For `execute`, only whether the body decodes to `false` is modelled, as the `RespondedFalse` outcome. An undecodable body gives null, which `execute` returns.
- `HostingAPI` is not part of this model. `Answer` stands for its `ANSWER_*` constants; the model assumes the class exists and does not model the constants' values, only which one is returned.
- `getPlans` reads `$elem->name` of every `data.pkg` element unchecked. `Package` always has a string `name`; an element without one, which PHP would store under an empty key with a warning, is not modelled.
- `print_r` at `src/Host/Cpanel/Cpanel.php:304` is debug output and is left out.
- `listAccounts`, `createAccount`, `destroyAccount`, `listEmailAccounts` and `listForwards` are left out. Each only passes fixed arguments to `execute` or `cpanel`, which are modelled.
- Several files are not part of this model, because they hold configuration, framework wiring or interfaces without behaviour:
  - `config/servers.php`, apart from the default authentication type;
  - `src/Support/Manager/HostingManger.php`;
  - `src/Providers/HostingServiceProvider.php`;
  - `src/Base/HostingInterface.php`;
  - `src/Domain/IDomainAPI.php`.
- `@`-annotated PHP types are simplified:
  - Values are `Scalar` (null, bool, int, string).
  - Truthiness of floats, arrays and objects is not modelled.
  - A non-string `metadata.reason` or `cpanelresult.data.reason` is not modelled. A missing reason reads as "".
- PHP arrays are maps with string keys, with these consequences:
  - Integer keys, whose `array_merge` renumbers them, are not modelled.
  - A numeric package name, which PHP would turn into an integer key in `getPlans`, is not modelled.
  - The order of array keys is not modelled, except for the parameter order of `http_build_query`, which is a sequence.
- A configuration missing `protocol`, `host`, `port` or the credentials is not modelled. In PHP this gives warnings or a `TypeError` in the typed setters; `Config` always has every field.
- `checkConnection` calls `hasResponse` on any `\Exception`. The one thrown by `execute` itself is modelled, as None. A client exception without that method is not; the model treats every client exception as having it.
- The patterns work on characters. PCRE without the `u` flag works on bytes; for these patterns the two agree, because `.` and `(.*)` only ever ask for "some character other than a line feed".
- Only literals, `.` and `(.*)` are modelled, because those are all the patterns use. The line-feed rule is PCRE's default, with no flags.
- `\s` is taken as PCRE2's set, which includes the vertical tab.
- Only string comparison is modelled for the loose `==` comparisons of the authentication type and of `cpanelresult.data.reason`, because both values are strings here.

