/**
 * Request construction in `TalkAuthClient` (`src/auth/mod.rs`): the headers
 * every authenticated request carries, the endpoint path, the `X-VC`
 * signature and the form bodies of `login`, `request_passcode` and
 * `register_device`.  The model stops where the request would be sent.
 */
module Auth {
  import opened Wrappers
  import opened Utf8
  import Hex
  import Sha512
  import opened Xvc

  /*
   * Ordered lists of (name, value) pairs: the headers of a request and the
   * fields of a URL-encoded form.
   */

  type Pair = (string, string)

  function Keys(ps: seq<Pair>): (ks: seq<string>)
    ensures |ks| == |ps|
    ensures forall i :: 0 <= i < |ps| ==> ks[i] == ps[i].0
  {
    seq(|ps|, i requires 0 <= i < |ps| => ps[i].0)
  }

  /** Every value stored under `key`, in order (a header may repeat). */
  function Values(ps: seq<Pair>, key: string): seq<string>
  {
    if ps == [] then [] else (if ps[0].0 == key then [ps[0].1] else []) + Values(ps[1..], key)
  }

  /** The first value stored under `key`. */
  function Lookup(ps: seq<Pair>, key: string): Option<string>
  {
    if ps == [] then None else if ps[0].0 == key then Some(ps[0].1) else Lookup(ps[1..], key)
  }

  predicate Distinct(ks: seq<string>)
  {
    forall i, j :: 0 <= i < j < |ks| ==> ks[i] != ks[j]
  }

  lemma KeysConcat(a: seq<Pair>, b: seq<Pair>)
    ensures Keys(a + b) == Keys(a) + Keys(b)
  {
  }

  lemma DistinctConcat(a: seq<string>, b: seq<string>)
    requires Distinct(a) && Distinct(b)
    requires forall k :: k in b ==> k !in a
    ensures Distinct(a + b)
  {
    forall i, j | 0 <= i < j < |a + b| ensures (a + b)[i] != (a + b)[j] {
      if i < |a| && j >= |a| {
        assert (a + b)[j] == b[j - |a|] && (a + b)[j] in b;
        assert (a + b)[i] == a[i] && (a + b)[i] in a;
      } else if i >= |a| {
        assert (a + b)[i] == b[i - |a|] && (a + b)[j] == b[j - |a|];
      }
    }
  }

  lemma {:induction false} ValuesAbsent(ps: seq<Pair>, key: string)
    requires key !in Keys(ps)
    ensures Values(ps, key) == []
  {
    if ps != [] {
      assert Keys(ps) == [ps[0].0] + Keys(ps[1..]);
      ValuesAbsent(ps[1..], key);
    }
  }

  /** Under distinct keys, each key holds exactly its own value. */
  lemma {:induction false} ValuesOfDistinct(ps: seq<Pair>, i: nat)
    requires Distinct(Keys(ps)) && i < |ps|
    ensures Values(ps, ps[i].0) == [ps[i].1]
  {
    DistinctTail(ps);
    if i == 0 {
      ValuesAbsent(ps[1..], ps[0].0);
    } else {
      assert Keys(ps)[0] != Keys(ps)[i];
      assert ps[1..][i - 1] == ps[i];
      ValuesOfDistinct(ps[1..], i - 1);
    }
  }

  lemma {:induction false} LookupOfDistinct(ps: seq<Pair>, i: nat)
    requires Distinct(Keys(ps)) && i < |ps|
    ensures Lookup(ps, ps[i].0) == Some(ps[i].1)
  {
    if i > 0 {
      DistinctTail(ps);
      assert Keys(ps)[0] != Keys(ps)[i];
      assert ps[1..][i - 1] == ps[i];
      LookupOfDistinct(ps[1..], i - 1);
    }
  }

  /** Distinct keys stay distinct in the tail, which misses the head's key. */
  lemma DistinctTail(ps: seq<Pair>)
    requires Distinct(Keys(ps)) && ps != []
    ensures Distinct(Keys(ps[1..])) && ps[0].0 !in Keys(ps[1..])
  {
    var ks, ts := Keys(ps), Keys(ps[1..]);
    forall i, j | 0 <= i < j < |ts| ensures ts[i] != ts[j] {
      assert ts[i] == ks[i + 1] && ts[j] == ks[j + 1];
    }
    forall i | 0 <= i < |ts| ensures ts[i] != ps[0].0 {
      assert ts[i] == ks[i + 1] && ks[0] == ps[0].0;
    }
  }

  /** A key that only the second list holds is read from the second list. */
  lemma LookupAfter(a: seq<Pair>, b: seq<Pair>, i: nat)
    requires Distinct(Keys(b)) && i < |b| && b[i].0 !in Keys(a)
    ensures Lookup(a + b, b[i].0) == Some(b[i].1)
  {
    LookupConcat(a, b, b[i].0);
    LookupOfDistinct(b, i);
  }

  lemma LookupAbsent(ps: seq<Pair>, key: string)
    requires key !in Keys(ps)
    ensures Lookup(ps, key) == None
  {
    LookupFindsKey(ps, key);
  }

  lemma {:induction false} LookupConcat(a: seq<Pair>, b: seq<Pair>, key: string)
    ensures Lookup(a + b, key) == if key in Keys(a) then Lookup(a, key) else Lookup(b, key)
  {
    if a == [] {
      assert a + b == b;
    } else {
      assert (a + b)[0] == a[0];
      assert (a + b)[1..] == a[1..] + b;
      assert Keys(a) == [a[0].0] + Keys(a[1..]);
      LookupConcat(a[1..], b, key);
    }
  }

  /** `Lookup` finds a key exactly when the key is present, and then at its first position. */
  lemma {:induction false} LookupFindsKey(ps: seq<Pair>, key: string)
    ensures Lookup(ps, key).Some? <==> key in Keys(ps)
    ensures Lookup(ps, key).Some? ==> exists i :: 0 <= i < |ps| && ps[i] == (key, Lookup(ps, key).value)
  {
    if ps != [] {
      assert Keys(ps) == [ps[0].0] + Keys(ps[1..]);
      LookupFindsKey(ps[1..], key);
      if ps[0].0 != key && Lookup(ps, key).Some? {
        var i :| 0 <= i < |ps[1..]| && ps[1..][i] == (key, Lookup(ps, key).value);
        assert ps[i + 1] == ps[1..][i];
      }
    }
  }

  /*
   * Value types.
   */

  /**
   * The client identity (`TalkApiAgent`).  Its module is not part of this
   * model, so the agent name and the user-agent formatter are data.
   */
  datatype TalkApiAgent = TalkApiAgent(name: string, userAgentFormat: (string, string) -> string)
  {
    /** `agent()`: the path segment and header component naming the client. */
    function Agent(): string
    {
      name
    }

    /** `get_user_agent(version, language)`. */
    function GetUserAgent(version: string, language: string): string
    {
      userAgentFormat(version, language)
    }
  }

  /** `AuthDeviceConfig`. */
  datatype AuthDeviceConfig = AuthDeviceConfig(name: string, model: Option<string>, uuidStringBase64: string)
  {
    /** `AuthDeviceConfig::new`: the UUID argument becomes the base64 UUID. */
    static function New(name: string, model: Option<string>, uuid: string): (d: AuthDeviceConfig)
      ensures d.name == name && d.model == model && d.uuidStringBase64 == uuid
    {
      AuthDeviceConfig(name, model, uuid)
    }

    /** `AuthDeviceConfig::new_pc`: a PC device has no model. */
    static function NewPc(name: string, uuid: string): (d: AuthDeviceConfig)
      ensures d.name == name && d.model == None && d.uuidStringBase64 == uuid
    {
      AuthDeviceConfig(name, None, uuid)
    }

    /** `AuthDeviceConfig::new_const_pc`. */
    static function NewConstPc(name: string, uuid: string): (d: AuthDeviceConfig)
      ensures d == NewPc(name, uuid)
    {
      AuthDeviceConfig(name, None, uuid)
    }
  }

  /** `AuthClientConfig`. */
  datatype AuthClientConfig = AuthClientConfig(device: AuthDeviceConfig, language: string, version: string, agent: TalkApiAgent)
  {
    /** `AuthClientConfig::new_const`. */
    static function NewConst(device: AuthDeviceConfig, language: string, version: string, agent: TalkApiAgent): (c: AuthClientConfig)
      ensures c.device == device && c.language == language && c.version == version
      ensures c.agent == agent
    {
      AuthClientConfig(device, language, version, agent)
    }
  }

  /** `AccountLoginForm`: e-mail and password. */
  datatype AccountLoginForm = AccountLoginForm(email: string, password: string)
  {
    static function NewConst(email: string, password: string): (f: AccountLoginForm)
      ensures f.email == email && f.password == password
    {
      AccountLoginForm(email, password)
    }
  }

  /** `TokenLoginForm`: e-mail, auto-login token and the locked flag. */
  datatype TokenLoginForm = TokenLoginForm(email: string, autoLoginToken: string, locked: bool)
  {
    static function NewConst(email: string, autoLoginToken: string, locked: bool): (f: TokenLoginForm)
      ensures f.email == email && f.autoLoginToken == autoLoginToken && f.locked == locked
    {
      TokenLoginForm(email, autoLoginToken, locked)
    }
  }

  /** `LoginMethod`. */
  datatype LoginMethod = Account(account: AccountLoginForm) | Token(token: TokenLoginForm)
  {
    function Email(): string
    {
      match this
      case Account(f) => f.email
      case Token(f) => f.email
    }
  }

  /*
   * Form bodies, as the URL-encoded serializer writes them: the fields in
   * declaration order, a flattened form's fields in its place, a `None`
   * marked `skip_serializing_if` left out, booleans as "true" or "false".
   */

  function BoolText(b: bool): string
  {
    if b then "true" else "false"
  }

  /** The fields every authentication form carries, in order. */
  const BaseKeys: seq<string> := ["email", "password", "device_uuid", "device_name"]

  /** `AuthRequestForm`: the base fields, with `model_name` skipped when it is `None`. */
  datatype AuthRequestForm = AuthRequestForm(email: string, password: string, deviceUuid: string, deviceName: string, modelName: Option<string>)
  {
    function Fields(): seq<Pair>
    {
      [("email", email), ("password", password), ("device_uuid", deviceUuid), ("device_name", deviceName)]
      + (match modelName case Some(m) => [("model_name", m)] case None => [])
    }

    function FieldKeys(): seq<string>
    {
      BaseKeys + (if modelName.Some? then ["model_name"] else [])
    }
  }

  /** `LoginRequestForm` (account login). */
  datatype LoginRequestForm = LoginRequestForm(auth: AuthRequestForm, forced: bool)
  {
    function Fields(): seq<Pair>
    {
      auth.Fields() + [("forced", BoolText(forced))]
    }
  }

  /** `TokenLoginRequestForm` (token login). */
  datatype TokenLoginRequestForm = TokenLoginRequestForm(auth: AuthRequestForm, autoLogin: bool, autowithlock: bool, forced: bool)
  {
    function Fields(): seq<Pair>
    {
      auth.Fields() + [("auto_login", BoolText(autoLogin)), ("autowithlock", BoolText(autowithlock)), ("forced", BoolText(forced))]
    }
  }

  /** `RegisterDeviceForm`. */
  datatype RegisterDeviceForm = RegisterDeviceForm(auth: AuthRequestForm, passcode: string, permanent: bool)
  {
    function Fields(): seq<Pair>
    {
      auth.Fields() + [("passcode", passcode), ("permanent", BoolText(permanent))]
    }
  }

  /**
   * The base form: the four fixed fields with the values given, then
   * `model_name` exactly when a model is set, and no key twice.
   */
  lemma AuthFormFields(f: AuthRequestForm)
    ensures Keys(f.Fields()) == f.FieldKeys()
    ensures Distinct(Keys(f.Fields()))
    ensures Lookup(f.Fields(), "email") == Some(f.email)
    ensures Lookup(f.Fields(), "password") == Some(f.password)
    ensures Lookup(f.Fields(), "device_uuid") == Some(f.deviceUuid)
    ensures Lookup(f.Fields(), "device_name") == Some(f.deviceName)
    ensures Lookup(f.Fields(), "model_name") == f.modelName
  {
    var fs := f.Fields();
    assert "password" != "passcode" by {
      assert "password"[4] != "passcode"[4];
    }
    var s1 := fs[1..];
    var s2 := s1[1..];
    var s3 := s2[1..];
    var tail := s3[1..];
    assert fs[0] == ("email", f.email) && s1[0] == ("password", f.password);
    assert s2[0] == ("device_uuid", f.deviceUuid) && s3[0] == ("device_name", f.deviceName);
    assert tail == (match f.modelName case Some(m) => [("model_name", m)] case None => []);
    assert Lookup(fs, "model_name") == Lookup(s1, "model_name") == Lookup(s2, "model_name")
        == Lookup(s3, "model_name") == Lookup(tail, "model_name");
    assert "device_uuid" != "device_name" by {
      assert "device_uuid"[7] != "device_name"[7];
    }
    assert Lookup(fs, "device_name") == Lookup(s1, "device_name") == Lookup(s2, "device_name")
        == Lookup(s3, "device_name") == Some(f.deviceName);
    assert Lookup(fs, "device_uuid") == Lookup(s1, "device_uuid") == Lookup(s2, "device_uuid") == Some(f.deviceUuid);
  }

  lemma BaseFormKeys(f: AuthRequestForm)
    ensures Keys(f.Fields()) == f.FieldKeys()
  {
  }

  /*
   * Requests.
   */

  type Header = Pair

  /** Header names as the `http` crate stores them (normalised to lower case). */
  const UserAgentName: string := "user-agent"
  const AName: string := "a"
  const AcceptName: string := "accept"
  const AcceptLanguageName: string := "accept-language"
  const XvcName: string := "x-vc"
  const HostName: string := "host"

  const LoginEndPoint: string := "account/login.json"
  const RequestPasscodeEndPoint: string := "account/request_passcode.json"
  const RegisterDeviceEndPoint: string := "account/register_device.json"

  /** A request about to be sent: path relative to the base URL, headers, form fields. */
  datatype Request = Request(path: string, headers: seq<Header>, form: seq<Pair>)
  {
    /** `client.post(url)`: no headers, no body yet. */
    static function Post(path: string): (r: Request)
      ensures r.path == path && r.headers == [] && r.form == []
    {
      Request(path, [], [])
    }

    /** `.form(&f)`: the body becomes the serialized fields. */
    function WithForm(fields: seq<Pair>): (r: Request)
      ensures r.path == path && r.headers == headers && r.form == fields
    {
      this.(form := fields)
    }
  }

  /** The base URL: its scheme and the host `host_str()` reports, if any. */
  datatype ApiUrl = ApiUrl(scheme: string, host: Option<string>)

  /** What `ApiURL::new("https", "katalk.kakao.com")` parses to. */
  const DefaultUrl: ApiUrl := ApiUrl("https", Some("katalk.kakao.com"))

  /** The X-VC header value for a full digest: `hex::encode(&full_hash[..8])`. */
  function XvcText(fullHash: seq<byte>): string
    requires |fullHash| >= 8
  {
    Hex.Encode(fullHash[..8])
  }

  /** The X-VC value is sixteen lower-case hex digits encoding exactly the first eight digest bytes. */
  lemma XvcTextEncodesFirstEightBytes(fullHash: seq<byte>)
    requires |fullHash| >= 8
    ensures |XvcText(fullHash)| == 16
    ensures forall i :: 0 <= i < 16 ==> Hex.IsLowerHexDigit(XvcText(fullHash)[i])
    ensures Hex.Decode(XvcText(fullHash)) == Some(fullHash[..8])
  {
    Hex.DecodeIffEncode(fullHash[..8], XvcText(fullHash));
  }

  /** `TalkAuthClient`: one immutable configuration, base URL and XVC hasher. */
  datatype TalkAuthClient = TalkAuthClient(config: AuthClientConfig, url: ApiUrl, xvcHasher: XvcHasher)
  {
    /** `TalkAuthClient::new`: the default base URL. */
    static function New(config: AuthClientConfig, xvcHasher: XvcHasher): (c: TalkAuthClient)
      ensures c.url == DefaultUrl && c.xvcHasher == xvcHasher
      ensures c.config == config
    {
      TalkAuthClient(config, DefaultUrl, xvcHasher)
    }

    /** `TalkAuthClient::new_with_url`. */
    static function NewWithUrl(config: AuthClientConfig, url: ApiUrl, xvcHasher: XvcHasher): (c: TalkAuthClient)
      ensures c.url == url && c.xvcHasher == xvcHasher
      ensures c.config == config
    {
      TalkAuthClient(config, url, xvcHasher)
    }

    function UserAgent(): string
    {
      config.agent.GetUserAgent(config.version, config.language)
    }

    /** The digest behind X-VC: the configured device UUID, the given user agent and e-mail. */
    function XvcDigest(sha: Sha512.HashFunction, userAgent: string, email: string): (d: seq<byte>)
      ensures |d| == Sha512.DigestLength
    {
      xvcHasher.Digest(sha, config.device.uuidStringBase64, userAgent, email)
    }

    /** The headers `build_auth_request` appends, in order. */
    function AuthHeaders(email: string, sha: Sha512.HashFunction): seq<Header>
    {
      [ (UserAgentName, UserAgent()),
        (AName, config.agent.Agent() + "/" + config.version + "/" + config.language),
        (AcceptName, "*/*"),
        (AcceptLanguageName, config.language),
        (XvcName, XvcText(XvcDigest(sha, UserAgent(), email))) ]
      + (match url.host case Some(h) => [(HostName, h)] case None => [])
    }

    /** `build_url`: the path "{agent}/{end_point}" joined onto the base URL. */
    function BuildUrl(endPoint: string): (path: string)
      ensures |path| == |config.agent.Agent()| + 1 + |endPoint|
      ensures path[..|config.agent.Agent()|] == config.agent.Agent()
      ensures path[|config.agent.Agent()|] == '/'
      ensures path[|config.agent.Agent()| + 1..] == endPoint
    {
      config.agent.Agent() + "/" + endPoint
    }

    /** `hash_auth_xvc`: hex of the first eight bytes of the hasher's digest. */
    method HashAuthXvc(userAgent: string, email: string, sha: Sha512.HashFunction) returns (xvc: string)
      ensures |xvc| == 16
      ensures Hex.Decode(xvc) == Some(XvcDigest(sha, userAgent, email)[..8])
      ensures xvc == XvcText(XvcDigest(sha, userAgent, email))
    {
      var fullHash := xvcHasher.FullXvcHash(config.device.uuidStringBase64, userAgent, email, sha);
      xvc := Hex.Encode(fullHash[..8]);
      XvcTextEncodesFirstEightBytes(fullHash);
    }

    /** `build_auth_request`: appends the authentication headers to the builder's. */
    method BuildAuthRequest(builder: Request, email: string, sha: Sha512.HashFunction) returns (r: Request)
      ensures r.path == builder.path && r.form == builder.form
      ensures r.headers == builder.headers + AuthHeaders(email, sha)
    {
      var userAgent := config.agent.GetUserAgent(config.version, config.language);
      var xvc := HashAuthXvc(userAgent, email, sha);
      var headers := builder.headers;
      var agentHeader := (UserAgentName, userAgent);
      var aHeader := (AName, config.agent.Agent() + "/" + config.version + "/" + config.language);
      var acceptHeader := (AcceptName, "*/*");
      var languageHeader := (AcceptLanguageName, config.language);
      var xvcHeader := (XvcName, xvc);
      headers := headers + [agentHeader];
      headers := headers + [aHeader];
      headers := headers + [acceptHeader];
      headers := headers + [languageHeader];
      headers := headers + [xvcHeader];
      AppendFive(builder.headers, agentHeader, aHeader, acceptHeader, languageHeader, xvcHeader);
      if url.host.Some? {
        var hostHeader := (HostName, url.host.value);
        headers := headers + [hostHeader];
        AppendAssoc(builder.headers, [agentHeader, aHeader, acceptHeader, languageHeader, xvcHeader], [hostHeader]);
      } else {
        assert AuthHeaders(email, sha) == [agentHeader, aHeader, acceptHeader, languageHeader, xvcHeader];
      }
      r := builder.(headers := headers);
    }

    /** `build_auth_form`: the credentials given, the device identity from the configuration. */
    function BuildAuthForm(email: string, password: string): (f: AuthRequestForm)
      ensures f.email == email && f.password == password
      ensures f.deviceUuid == config.device.uuidStringBase64 && f.deviceName == config.device.name
      ensures f.modelName == config.device.model
    {
      AuthRequestForm(email, password, config.device.uuidStringBase64, config.device.name, config.device.model)
    }

    /** The form `login` sends for a login method: the `match method` of the source. */
    function LoginForm(m: LoginMethod, forced: bool): seq<Pair>
    {
      match m
      case Account(f) => LoginRequestForm(BuildAuthForm(f.email, f.password), forced).Fields()
      case Token(f) => TokenLoginRequestForm(BuildAuthForm(f.email, f.autoLoginToken), true, f.locked, forced).Fields()
    }

    /** The request `login` sends. */
    method Login(m: LoginMethod, forced: bool, sha: Sha512.HashFunction) returns (r: Request)
      ensures r.path == BuildUrl(LoginEndPoint)
      ensures r.headers == AuthHeaders(m.Email(), sha)
      ensures r.form == LoginForm(m, forced)
      ensures Values(r.headers, UserAgentName) == [UserAgent()]
      ensures Lookup(r.form, "email") == Some(m.Email())
      ensures Values(r.headers, XvcName) == [XvcText(XvcDigest(sha, Values(r.headers, UserAgentName)[0], Lookup(r.form, "email").value))]
    {
      AuthHeadersContents(this, m.Email(), sha);
      match m
      case Account(f) =>
        r := BuildAuthRequest(Request.Post(BuildUrl(LoginEndPoint)), f.email, sha);
        r := r.WithForm(LoginRequestForm(BuildAuthForm(f.email, f.password), forced).Fields());
        LoginAccountForm(this, f, forced);
      case Token(f) =>
        r := BuildAuthRequest(Request.Post(BuildUrl(LoginEndPoint)), f.email, sha);
        r := r.WithForm(TokenLoginRequestForm(BuildAuthForm(f.email, f.autoLoginToken), true, f.locked, forced).Fields());
        LoginTokenForm(this, f, forced);
    }

    /** The request `request_passcode` sends. */
    method RequestPasscode(f: AccountLoginForm, sha: Sha512.HashFunction) returns (r: Request)
      ensures r.path == BuildUrl(RequestPasscodeEndPoint)
      ensures r.headers == AuthHeaders(f.email, sha)
      ensures r.form == BuildAuthForm(f.email, f.password).Fields()
      ensures Values(r.headers, UserAgentName) == [UserAgent()]
      ensures Lookup(r.form, "email") == Some(f.email)
      ensures Values(r.headers, XvcName) == [XvcText(XvcDigest(sha, Values(r.headers, UserAgentName)[0], Lookup(r.form, "email").value))]
    {
      AuthHeadersContents(this, f.email, sha);
      AuthFormFields(BuildAuthForm(f.email, f.password));
      r := BuildAuthRequest(Request.Post(BuildUrl(RequestPasscodeEndPoint)), f.email, sha);
      r := r.WithForm(BuildAuthForm(f.email, f.password).Fields());
    }

    /** The request `register_device` sends. */
    method RegisterDevice(passcode: string, f: AccountLoginForm, permanent: bool, sha: Sha512.HashFunction) returns (r: Request)
      ensures r.path == BuildUrl(RegisterDeviceEndPoint)
      ensures r.headers == AuthHeaders(f.email, sha)
      ensures r.form == RegisterDeviceForm(BuildAuthForm(f.email, f.password), passcode, permanent).Fields()
      ensures Values(r.headers, UserAgentName) == [UserAgent()]
      ensures Lookup(r.form, "email") == Some(f.email)
      ensures Values(r.headers, XvcName) == [XvcText(XvcDigest(sha, Values(r.headers, UserAgentName)[0], Lookup(r.form, "email").value))]
    {
      AuthHeadersContents(this, f.email, sha);
      RegisterDeviceFormFields(this, passcode, f, permanent);
      r := BuildAuthRequest(Request.Post(BuildUrl(RegisterDeviceEndPoint)), f.email, sha);
      r := r.WithForm(RegisterDeviceForm(BuildAuthForm(f.email, f.password), passcode, permanent).Fields());
    }
  }

  /*
   * Properties of the requests.
   */

  /** Five single appends make one append of the five, in order. */
  lemma AppendFive<T>(b: seq<T>, x1: T, x2: T, x3: T, x4: T, x5: T)
    ensures b + [x1] + [x2] + [x3] + [x4] + [x5] == b + [x1, x2, x3, x4, x5]
  {
    assert [x1] + [x2] + [x3] + [x4] + [x5] == [x1, x2, x3, x4, x5];
  }

  lemma AppendAssoc<T>(b: seq<T>, x: seq<T>, y: seq<T>)
    ensures b + x + y == b + (x + y)
  {
  }

  /**
   * The authentication headers: the five fixed ones in order, then `Host`
   * exactly when the base URL has a host; each name once, with its value.
   * The X-VC digest is computed over the very string sent as `User-Agent`.
   */
  lemma AuthHeadersContents(c: TalkAuthClient, email: string, sha: Sha512.HashFunction)
    ensures var h := c.AuthHeaders(email, sha);
      && Keys(h) == [UserAgentName, AName, AcceptName, AcceptLanguageName, XvcName]
                    + (if c.url.host.Some? then [HostName] else [])
      && Values(h, UserAgentName) == [c.UserAgent()]
      && Values(h, AName) == [c.config.agent.Agent() + "/" + c.config.version + "/" + c.config.language]
      && Values(h, AcceptName) == ["*/*"]
      && Values(h, AcceptLanguageName) == [c.config.language]
      && Values(h, XvcName) == [XvcText(c.XvcDigest(sha, Values(h, UserAgentName)[0], email))]
      && Values(h, HostName) == (if c.url.host.Some? then [c.url.host.value] else [])
  {
    var h := c.AuthHeaders(email, sha);
    AuthHeaderKeys(c, email, sha);
    ValuesOfDistinct(h, 0);
    ValuesOfDistinct(h, 1);
    ValuesOfDistinct(h, 2);
    ValuesOfDistinct(h, 3);
    ValuesOfDistinct(h, 4);
    if c.url.host.Some? {
      ValuesOfDistinct(h, 5);
    } else {
      ValuesAbsent(h, HostName);
    }
  }

  /** The names of the authentication headers, in order and each once. */
  lemma AuthHeaderKeys(c: TalkAuthClient, email: string, sha: Sha512.HashFunction)
    ensures Keys(c.AuthHeaders(email, sha)) == [UserAgentName, AName, AcceptName, AcceptLanguageName, XvcName]
                    + (if c.url.host.Some? then [HostName] else [])
    ensures Distinct(Keys(c.AuthHeaders(email, sha)))
  {
    var names := [UserAgentName, AName, AcceptName, AcceptLanguageName, XvcName, HostName];
    HeaderNamesDistinct();
    if c.url.host.Some? {
      assert Keys(c.AuthHeaders(email, sha)) == names;
    } else {
      assert Keys(c.AuthHeaders(email, sha)) == names[..5];
      assert Distinct(names[..5]);
    }
  }

  lemma HeaderNamesDistinct()
    ensures Distinct([UserAgentName, AName, AcceptName, AcceptLanguageName, XvcName, HostName])
  {
    assert XvcName != HostName by {
      assert XvcName[0] != HostName[0];
    }
  }

  /** Only the `Host` header depends on the base URL. */
  lemma HeadersIgnoreUrl(c: TalkAuthClient, url: ApiUrl, email: string, sha: Sha512.HashFunction)
    ensures |c.AuthHeaders(email, sha)| == 5 + (if c.url.host.Some? then 1 else 0)
    ensures c.(url := url).AuthHeaders(email, sha)[..5] == c.AuthHeaders(email, sha)[..5]
  {
  }

  /** A client built with `TalkAuthClient::new` sends `Host: katalk.kakao.com`. */
  lemma DefaultClientHost(config: AuthClientConfig, xvcHasher: XvcHasher, email: string, sha: Sha512.HashFunction)
    ensures Values(TalkAuthClient.New(config, xvcHasher).AuthHeaders(email, sha), HostName) == ["katalk.kakao.com"]
  {
    AuthHeadersContents(TalkAuthClient.New(config, xvcHasher), email, sha);
  }

  /** The base fields of a client's form, read back from a field list that extends them. */
  predicate CarriesBaseFields(c: TalkAuthClient, fs: seq<Pair>, email: string, password: string)
  {
    && Lookup(fs, "email") == Some(email)
    && Lookup(fs, "password") == Some(password)
    && Lookup(fs, "device_uuid") == Some(c.config.device.uuidStringBase64)
    && Lookup(fs, "device_name") == Some(c.config.device.name)
    && Lookup(fs, "model_name") == c.config.device.model
  }

  /** Extending the base form keeps its fields readable and, with fresh keys, distinct. */
  lemma ExtendBaseForm(c: TalkAuthClient, email: string, password: string, extra: seq<Pair>)
    requires Distinct(Keys(extra))
    requires forall j :: 0 <= j < |extra| ==> extra[j].0 !in BaseKeys && extra[j].0 != "model_name"
    ensures var base := c.BuildAuthForm(email, password);
      && Keys(base.Fields() + extra) == base.FieldKeys() + Keys(extra)
      && Distinct(Keys(base.Fields() + extra))
      && CarriesBaseFields(c, base.Fields() + extra, email, password)
  {
    var base := c.BuildAuthForm(email, password);
    var fs := base.Fields();
    AuthFormFields(base);
    KeysConcat(fs, extra);
    DistinctConcat(base.FieldKeys(), Keys(extra));
    LookupConcat(fs, extra, "email");
    LookupConcat(fs, extra, "password");
    LookupConcat(fs, extra, "device_uuid");
    LookupConcat(fs, extra, "device_name");
    LookupConcat(fs, extra, "model_name");
    if base.modelName.None? {
      LookupAbsent(extra, "model_name");
    }
  }

  /** A key that is neither a base key nor `model_name` is not in the base form. */
  lemma FreshKey(f: AuthRequestForm, k: string)
    requires k !in BaseKeys && k != "model_name"
    ensures k !in Keys(f.Fields())
  {
    BaseFormKeys(f);
    if f.modelName.Some? {
      assert f.FieldKeys() == BaseKeys + ["model_name"];
      assert k !in ["model_name"];
      assert k !in f.FieldKeys();
    } else {
      assert f.FieldKeys() == BaseKeys;
    }
  }

  /** A field added after the base form is read back with its own value. */
  lemma ExtraField(c: TalkAuthClient, email: string, password: string, extra: seq<Pair>, i: nat)
    requires Distinct(Keys(extra)) && i < |extra|
    requires forall j :: 0 <= j < |extra| ==> extra[j].0 !in BaseKeys && extra[j].0 != "model_name"
    ensures Lookup(c.BuildAuthForm(email, password).Fields() + extra, extra[i].0) == Some(extra[i].1)
  {
    var base := c.BuildAuthForm(email, password);
    FreshKey(base, extra[i].0);
    LookupAfter(base.Fields(), extra, i);
  }

  /** Account login: the base fields and `forced`, with no auto-login fields. */
  lemma LoginAccountForm(c: TalkAuthClient, f: AccountLoginForm, forced: bool)
    ensures var fs := c.LoginForm(Account(f), forced);
      && Keys(fs) == c.BuildAuthForm(f.email, f.password).FieldKeys() + ["forced"]
      && Distinct(Keys(fs))
      && CarriesBaseFields(c, fs, f.email, f.password)
      && Lookup(fs, "forced") == Some(BoolText(forced))
      && "auto_login" !in Keys(fs) && "autowithlock" !in Keys(fs)
  {
    var extra := [("forced", BoolText(forced))];
    ExtendBaseForm(c, f.email, f.password, extra);
    ExtraField(c, f.email, f.password, extra, 0);
    assert "auto_login" != "model_name" by {
      assert "auto_login"[0] != "model_name"[0];
    }
  }

  /** Token login: the token as `password`, then `auto_login=true`, `autowithlock` and `forced`. */
  lemma LoginTokenForm(c: TalkAuthClient, f: TokenLoginForm, forced: bool)
    ensures var fs := c.LoginForm(Token(f), forced);
      && Keys(fs) == c.BuildAuthForm(f.email, f.autoLoginToken).FieldKeys() + ["auto_login", "autowithlock", "forced"]
      && Distinct(Keys(fs))
      && CarriesBaseFields(c, fs, f.email, f.autoLoginToken)
      && Lookup(fs, "auto_login") == Some("true")
      && Lookup(fs, "autowithlock") == Some(BoolText(f.locked))
      && Lookup(fs, "forced") == Some(BoolText(forced))
  {
    var extra := [("auto_login", BoolText(true)), ("autowithlock", BoolText(f.locked)), ("forced", BoolText(forced))];
    assert "auto_login" != "model_name" by {
      assert "auto_login"[0] != "model_name"[0];
    }
    ExtendBaseForm(c, f.email, f.autoLoginToken, extra);
    ExtraField(c, f.email, f.autoLoginToken, extra, 0);
    ExtraField(c, f.email, f.autoLoginToken, extra, 1);
    ExtraField(c, f.email, f.autoLoginToken, extra, 2);
  }

  /** Device registration: the base fields, then `passcode` and `permanent`. */
  lemma RegisterDeviceFormFields(c: TalkAuthClient, passcode: string, f: AccountLoginForm, permanent: bool)
    ensures var fs := RegisterDeviceForm(c.BuildAuthForm(f.email, f.password), passcode, permanent).Fields();
      && Keys(fs) == c.BuildAuthForm(f.email, f.password).FieldKeys() + ["passcode", "permanent"]
      && Distinct(Keys(fs))
      && CarriesBaseFields(c, fs, f.email, f.password)
      && Lookup(fs, "passcode") == Some(passcode)
      && Lookup(fs, "permanent") == Some(BoolText(permanent))
  {
    var extra := [("passcode", passcode), ("permanent", BoolText(permanent))];
    assert "passcode" != "password" by {
      assert "passcode"[4] != "password"[4];
    }
    ExtendBaseForm(c, f.email, f.password, extra);
    ExtraField(c, f.email, f.password, extra, 0);
    ExtraField(c, f.email, f.password, extra, 1);
  }

  /**
   * A password login from a device without a model sends exactly the five
   * fields email, password, device_uuid, device_name and forced.
   */
  lemma PcAccountLogin(c: TalkAuthClient, f: AccountLoginForm)
    requires c.config.device.model.None?
    ensures Keys(c.LoginForm(Account(f), false)) == ["email", "password", "device_uuid", "device_name", "forced"]
    ensures Lookup(c.LoginForm(Account(f), false), "forced") == Some("false")
  {
    LoginAccountForm(c, f, false);
  }
}
