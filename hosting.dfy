/** The connection profile every hosting client keeps (`Base/Hosting.php`):
    the credentials, the authentication type, the host name, and the
    headers and options of its HTTP client, set through chained setters. */
module Base {
  import opened PhpValues

  /** The server entry the client is built from; `headers` and `options`
      may be absent. */
  datatype Config = Config(
    protocol: string,
    host: string,
    port: string,
    username: string,
    password: string,
    authType: string,
    headers: Option<map<string, Scalar>>,
    options: Option<map<string, Scalar>>)

  /** The host name the constructor composes: "protocol://host:port/". */
  function HostNameFor(config: Config): (r: string)
    ensures |r| == |config.protocol| + |config.host| + |config.port| + 5 && r[|r| - 1] == '/'
    ensures r[..|config.protocol|] == config.protocol && r[|config.protocol|..|config.protocol| + 3] == "://"
    ensures r[|config.protocol| + 3..|r| - 1] == config.host + ":" + config.port
  {
    config.protocol + "://" + config.host + ":" + config.port + "/"
  }

  /** `$config[$key] ?? []` for the two arrays. */
  function OrEmpty(m: Option<map<string, Scalar>>): (r: map<string, Scalar>)
    ensures m.None? ==> r == map[]
    ensures m.Some? ==> r == m.value
  {
    match m
    case None => map[]
    case Some(v) => v
  }

  /** All the fields of a profile at once, to say what a setter leaves
      alone. */
  datatype Profile = Profile(
    username: string,
    password: string,
    authType: string,
    hostName: string,
    headers: map<string, Scalar>,
    options: map<string, Scalar>)

  const UsernameNotSet := Exception("Username is not set", 422)
  const PasswordNotSet := Exception("Password or hash is not set", 422)
  const HostNotSet := Exception("CPanel Host is not set", 422)

  /** The first field `checkOptions` finds empty, in its order of checking. */
  function FirstUnset(p: Profile): (e: Option<Exception>)
    ensures e.None? <==> !EmptyString(p.username) && !EmptyString(p.password) && !EmptyString(p.hostName)
    ensures e.Some? ==> e.value.code == 422
    ensures EmptyString(p.username) ==> e == Some(UsernameNotSet)
    ensures !EmptyString(p.username) && EmptyString(p.password) ==> e == Some(PasswordNotSet)
    ensures !EmptyString(p.username) && !EmptyString(p.password) && EmptyString(p.hostName) ==> e == Some(HostNotSet)
  {
    // `empty($x) || !($x)` is the same test on a string.
    if EmptyString(p.username) then Some(UsernameNotSet)
    else if EmptyString(p.password) then Some(PasswordNotSet)
    else if EmptyString(p.hostName) then Some(HostNotSet)
    else None
  }

  /** Only the three checked fields matter: headers, options and the
      authentication type never make the check fail. */
  lemma FirstUnsetIgnoresOtherFields(p: Profile, authType: string, headers: map<string, Scalar>, options: map<string, Scalar>)
    ensures FirstUnset(p.(authType := authType, headers := headers, options := options)) == FirstUnset(p)
  {
  }

  /** A profile built from a configuration whose three checked fields are
      non-empty passes the check. */
  lemma ConfiguredProfilePasses(config: Config)
    requires !EmptyString(config.username) && !EmptyString(config.password)
    ensures FirstUnset(Profile(config.username, config.password, config.authType, HostNameFor(config),
                               OrEmpty(config.headers), OrEmpty(config.options))) == None
  {
    var h := HostNameFor(config);
    assert h[|config.protocol|] == ':';
    assert h != "" && h != "0";
  }

  class Hosting {
    var username: string
    var password: string
    var authType: string
    var hostName: string
    var headers: map<string, Scalar>
    var options: map<string, Scalar>

    function State(): Profile
      reads this
    {
      Profile(username, password, authType, hostName, headers, options)
    }

    /** `__construct($config)`. */
    constructor (config: Config)
      ensures State() == Profile(config.username, config.password, config.authType, HostNameFor(config),
                                 OrEmpty(config.headers), OrEmpty(config.options))
    {
      hostName := HostNameFor(config);
      username := config.username;
      password := config.password;
      authType := config.authType;
      headers := OrEmpty(config.headers);
      options := OrEmpty(config.options);
    }

    function GetAuthType(): (r: string)
      reads this
      ensures r == State().authType
    {
      authType
    }

    function GetUsername(): (r: string)
      reads this
      ensures r == State().username
    {
      username
    }

    function GetPassword(): (r: string)
      reads this
      ensures r == State().password
    {
      password
    }

    function GetHostName(): (r: string)
      reads this
      ensures r == State().hostName
    {
      hostName
    }

    function GetOptions(): (r: map<string, Scalar>)
      reads this
      ensures r == State().options
    {
      options
    }

    function GetHeaders(): (r: map<string, Scalar>)
      reads this
      ensures r == State().headers
    {
      headers
    }

    method SetAuthType(value: string) returns (self: Hosting)
      modifies this
      ensures self == this && GetAuthType() == value
      ensures State() == old(State()).(authType := value)
    {
      authType := value;
      self := this;
    }

    method SetUsername(value: string) returns (self: Hosting)
      modifies this
      ensures self == this && GetUsername() == value
      ensures State() == old(State()).(username := value)
    {
      username := value;
      self := this;
    }

    method SetPassword(value: string) returns (self: Hosting)
      modifies this
      ensures self == this && GetPassword() == value
      ensures State() == old(State()).(password := value)
    {
      password := value;
      self := this;
    }

    method SetHostName(value: string) returns (self: Hosting)
      modifies this
      ensures self == this && GetHostName() == value
      ensures State() == old(State()).(hostName := value)
    {
      hostName := value;
      self := this;
    }

    /** Replaces the options. */
    method SetOptions(value: map<string, Scalar>) returns (self: Hosting)
      modifies this
      ensures self == this && GetOptions() == value
      ensures State() == old(State()).(options := value)
    {
      options := value;
      self := this;
    }

    /** Merges into the options: the given keys override, the others stay. */
    method AddOptions(extra: map<string, Scalar>) returns (self: Hosting)
      modifies this
      ensures self == this
      ensures GetOptions().Keys == old(GetOptions()).Keys + extra.Keys
      ensures forall k :: k in extra ==> GetOptions()[k] == extra[k]
      ensures forall k :: k in old(GetOptions()) && k !in extra ==> GetOptions()[k] == old(GetOptions())[k]
      ensures State() == old(State()).(options := ArrayMerge(old(options), extra))
    {
      options := ArrayMerge(options, extra);
      self := this;
    }

    /** Replaces the headers. */
    method SetHeaders(value: map<string, Scalar>) returns (self: Hosting)
      modifies this
      ensures self == this && GetHeaders() == value
      ensures State() == old(State()).(headers := value)
    {
      headers := value;
      self := this;
    }

    /** Merges into the headers: the given keys override, the others stay. */
    method AddHeader(extra: map<string, Scalar>) returns (self: Hosting)
      modifies this
      ensures self == this
      ensures GetHeaders().Keys == old(GetHeaders()).Keys + extra.Keys
      ensures forall k :: k in extra ==> GetHeaders()[k] == extra[k]
      ensures forall k :: k in old(GetHeaders()) && k !in extra ==> GetHeaders()[k] == old(GetHeaders())[k]
      ensures State() == old(State()).(headers := ArrayMerge(old(headers), extra))
    {
      headers := ArrayMerge(headers, extra);
      self := this;
    }

    /** Sets the credentials and nothing else. */
    method SetAuthorization(user: string, pass: string) returns (self: Hosting)
      modifies this
      ensures self == this && GetUsername() == user && GetPassword() == pass
      ensures State() == old(State()).(username := user, password := pass)
    {
      username := user;
      password := pass;
      self := this;
    }

    /** `checkOptions`: the object itself, or the exception for the first
      empty field; it changes nothing. */
    method CheckOptions() returns (r: Result<Hosting, Exception>)
      ensures r.Ok? <==> !EmptyString(username) && !EmptyString(password) && !EmptyString(hostName)
      ensures r.Ok? ==> r.value == this
      ensures r.Err? ==> Some(r.error) == FirstUnset(State())
    {
      var unset := FirstUnset(State());
      if unset.Some? {
        r := Err(unset.value);
      } else {
        r := Ok(this);
      }
    }
  }
}
