/**
 * The request/response rules of the webshare.cz API client, as functions of
 * the responses the server gives.  A request is the URL and the form fields
 * posted; a response is either a transport failure or the decoded fields of
 * the XML `response` element.  Each exchange function says which requests an
 * operation sends, what it makes of the replies, and which responses are left
 * for later requests; the client methods are proved against them.
 */
module Protocol {
  import opened Wrappers
  import opened Decimal

  type Fields = map<string, string>

  /**
   * Why an operation fails.  The first three are the client's WebshareAPIError;
   * MissingField is the KeyError of reading an absent element of the reply, and
   * NotAnInteger the ValueError of converting a size that is not a numeral.
   */
  datatype Failure =
    | TransportError(cause: string)
    | StatusError(status: string, message: string)
    | InvalidUrl
    | MissingField(key: string)
    | NotAnInteger(text: string)
  {
    predicate IsWebshareApiError() {
      TransportError? || StatusError? || InvalidUrl?
    }

    /** The text the exception carries. */
    function Message(): string {
      match this
      case TransportError(cause) => cause
      case StatusError(status, message) => StatusPrefix + status + StatusSeparator + message
      case InvalidUrl => "not a webshare.cz URL"
      case MissingField(key) => "'" + key + "'"
      case NotAnInteger(text) => "invalid literal for int() with base 10: '" + text + "'"
    }
  }

  const StatusPrefix: string := "webshare.cz returned "
  const StatusSeparator: string := " - "

  datatype Result<+T> = Ok(value: T) | Err(error: Failure) {
    predicate IsFailure() {
      Err?
    }

    function PropagateFailure<U>(): Result<U>
      requires Err?
    {
      Err(error)
    }

    function Extract(): T
      requires Ok?
    {
      value
    }
  }

  datatype Response = NetFail(cause: string) | Reply(fields: Fields)

  datatype Request = Request(url: string, data: Fields)

  /** The projection of a file's metadata that the client returns. */
  datatype FileInfo = FileInfo(name: string, desc: string, kind: string, size: nat)

  const BaseUrl: string := "https://webshare.cz/api"

  const SaltEndpoint: string := "salt"
  const FileSaltEndpoint: string := "file_password_salt"
  const LoginEndpoint: string := "login"
  const LogoutEndpoint: string := "logout"
  const FileLinkEndpoint: string := "file_link"
  const FileInfoEndpoint: string := "file_info"

  const WstKey: string := "wst"
  const StatusKey: string := "status"
  const MessageKey: string := "message"
  const UsernameKey: string := "username_or_email"
  const PasswordKey: string := "password"
  const KeepLoggedInKey: string := "keep_logged_in"
  const IdentKey: string := "ident"
  const SaltKey: string := "salt"
  const TokenKey: string := "token"
  const LinkKey: string := "link"
  const NameKey: string := "name"
  const DescriptionKey: string := "description"
  const TypeKey: string := "type"
  const SizeKey: string := "size"

  /** The URL an endpoint is posted to; the trailing slash is part of it. */
  function Url(endpoint: string): string {
    BaseUrl + "/" + endpoint + "/"
  }

  /** The response to the next request; with no response left the server is unreachable. */
  function Next(script: seq<Response>): Response {
    if script == [] then NetFail("") else script[0]
  }

  /** The responses left after the next request. */
  function Rest(script: seq<Response>): seq<Response> {
    if script == [] then [] else script[1..]
  }

  /** The responses left after `n` requests. */
  function Drop(script: seq<Response>, n: nat): seq<Response> {
    if n <= |script| then script[n..] else []
  }

  /**
   * The envelope check of every request: a transport failure or a status other
   * than "OK" is an error, and otherwise the reply is handed back as it came.
   */
  function Envelope(resp: Response): (r: Result<Fields>)
    ensures r.Ok? <==> resp.Reply? && StatusKey in resp.fields && resp.fields[StatusKey] == "OK"
    ensures r.Ok? ==> r.value == resp.fields
    ensures resp.NetFail? ==> r == Err(TransportError(resp.cause))
    ensures r.Err? && r.error.StatusError? ==>
      resp.Reply? && StatusKey in resp.fields && MessageKey in resp.fields &&
      r.error.status == resp.fields[StatusKey] && r.error.status != "OK" &&
      r.error.message == resp.fields[MessageKey]
    ensures resp.Reply? && StatusKey in resp.fields && resp.fields[StatusKey] != "OK" && MessageKey in resp.fields ==>
      r == Err(StatusError(resp.fields[StatusKey], resp.fields[MessageKey]))
    ensures resp.Reply? && StatusKey !in resp.fields ==> r == Err(MissingField(StatusKey))
    ensures resp.Reply? && StatusKey in resp.fields && resp.fields[StatusKey] != "OK" && MessageKey !in resp.fields ==>
      r == Err(MissingField(MessageKey))
  {
    match resp
    case NetFail(cause) => Err(TransportError(cause))
    case Reply(fields) =>
      if StatusKey !in fields then Err(MissingField(StatusKey))
      else if fields[StatusKey] != "OK" then
        if MessageKey !in fields then Err(MissingField(MessageKey))
        else Err(StatusError(fields[StatusKey], fields[MessageKey]))
      else Ok(fields)
  }

  /** A server that answers with a status other than "OK" and a message is reported with both, word for word. */
  lemma ServerErrorIsReported(resp: Response)
    requires resp.Reply? && StatusKey in resp.fields && MessageKey in resp.fields
    requires resp.fields[StatusKey] != "OK"
    ensures Envelope(resp).Err? && Envelope(resp).error.IsWebshareApiError()
    ensures var m := Envelope(resp).error.Message();
      && m[..|StatusPrefix|] == StatusPrefix
      && m[|StatusPrefix|..|StatusPrefix| + |resp.fields[StatusKey]|] == resp.fields[StatusKey]
      && m[|m| - |resp.fields[MessageKey]|..] == resp.fields[MessageKey]
  {
  }

  /** Reading the element `key` of a successful reply. */
  function Field(reply: Result<Fields>, key: string): (r: Result<string>)
    ensures r.Ok? <==> reply.Ok? && key in reply.value
    ensures r.Ok? ==> r.value == reply.value[key]
    ensures reply.Ok? && key !in reply.value ==> r == Err(MissingField(key))
    ensures reply.Err? ==> r == Err(reply.error)
  {
    match reply
    case Err(e) => Err(e)
    case Ok(fields) => if key in fields then Ok(fields[key]) else Err(MissingField(key))
  }

  /** What an operation sent, what came of it, and the responses left over. */
  datatype Exchange<+T> = Exchange(sent: seq<Request>, outcome: Result<T>, rest: seq<Response>)

  /**
   * One request to `endpoint` with the caller's fields and the session token
   * under "wst", which replaces any "wst" the caller gave.
   */
  function Post(endpoint: string, data: Fields, wst: string, script: seq<Response>): (x: Exchange<Fields>)
    ensures |x.sent| == 1 && x.sent[0].url == Url(endpoint)
    ensures x.sent[0].data.Keys == data.Keys + {WstKey} && x.sent[0].data[WstKey] == wst
    ensures forall k :: k in data && k != WstKey ==> x.sent[0].data[k] == data[k]
    ensures x.outcome.Ok? ==> Next(script).Reply? && x.outcome.value == Next(script).fields
    ensures x.outcome == Envelope(Next(script))
    ensures x.rest == Drop(script, 1)
  {
    Exchange([Request(Url(endpoint), data[WstKey := wst])], Envelope(Next(script)), Rest(script))
  }

  /** With no fields of the caller's, the request carries exactly the token. */
  lemma PostWithoutData(endpoint: string, wst: string, script: seq<Response>)
    ensures Post(endpoint, map[], wst, script).sent == [Request(Url(endpoint), map[WstKey := wst])]
  {
  }

  /** The salt of a user, asked for by user name or e-mail. */
  function UserSalt(username: string, wst: string, script: seq<Response>): (x: Exchange<string>)
    ensures x.sent == [Request(Url(SaltEndpoint), map[UsernameKey := username, WstKey := wst])]
    ensures x.outcome.Ok? <==> Envelope(Next(script)).Ok? && SaltKey in Next(script).fields
    ensures x.outcome.Ok? ==> x.outcome.value == Next(script).fields[SaltKey]
    ensures Envelope(Next(script)).Err? ==> x.outcome == Err(Envelope(Next(script)).error)
    ensures Envelope(Next(script)).Ok? && SaltKey !in Next(script).fields ==> x.outcome == Err(MissingField(SaltKey))
    ensures x.rest == Drop(script, 1)
  {
    var p := Post(SaltEndpoint, map[UsernameKey := username], wst, script);
    Exchange(p.sent, Field(p.outcome, SaltKey), p.rest)
  }

  /** The salt of a password-protected file, asked for by its identifier. */
  function FileSalt(ident: string, wst: string, script: seq<Response>): (x: Exchange<string>)
    ensures x.sent == [Request(Url(FileSaltEndpoint), map[IdentKey := ident, WstKey := wst])]
    ensures x.outcome.Ok? <==> Envelope(Next(script)).Ok? && SaltKey in Next(script).fields
    ensures x.outcome.Ok? ==> x.outcome.value == Next(script).fields[SaltKey]
    ensures Envelope(Next(script)).Err? ==> x.outcome == Err(Envelope(Next(script)).error)
    ensures Envelope(Next(script)).Ok? && SaltKey !in Next(script).fields ==> x.outcome == Err(MissingField(SaltKey))
    ensures x.rest == Drop(script, 1)
  {
    var p := Post(FileSaltEndpoint, map[IdentKey := ident], wst, script);
    Exchange(p.sent, Field(p.outcome, SaltKey), p.rest)
  }

  /** The fields of a login request; "keep_logged_in" is the integer 1, which the form encoding sends as "1". */
  function LoginForm(username: string, passwordHash: string): Fields {
    map[UsernameKey := username, PasswordKey := passwordHash, KeepLoggedInKey := "1"]
  }

  /**
   * Logging in from the logged-out state (token ""): ask for the user's salt,
   * then post the credentials with the password hashed under that salt; the
   * outcome is the token of the login reply.
   */
  function LoginExchange(username: string, password: string, hash: (string, string) -> string,
                         script: seq<Response>): (x: Exchange<string>)
    ensures 1 <= |x.sent| <= 2
    ensures x.sent[0] == Request(Url(SaltEndpoint), map[UsernameKey := username, WstKey := ""])
    ensures |x.sent| == 2 <==> UserSalt(username, "", script).outcome.Ok?
    ensures |x.sent| == 2 ==>
      var salt := Next(script).fields[SaltKey];
      x.sent[1] == Request(Url(LoginEndpoint),
        map[UsernameKey := username, PasswordKey := hash(password, salt), KeepLoggedInKey := "1", WstKey := ""])
    ensures x.outcome.Ok? ==>
      && |x.sent| == 2
      && Envelope(Next(Rest(script))).Ok?
      && TokenKey in Next(Rest(script)).fields
      && x.outcome.value == Next(Rest(script)).fields[TokenKey]
    ensures
      && UserSalt(username, "", script).outcome.Ok?
      && Envelope(Next(Rest(script))).Ok?
      && TokenKey in Next(Rest(script)).fields
      ==> x.outcome == Ok(Next(Rest(script)).fields[TokenKey])
    ensures UserSalt(username, "", script).outcome.Err? ==>
      x.outcome == Err(UserSalt(username, "", script).outcome.error)
    ensures UserSalt(username, "", script).outcome.Ok? && Envelope(Next(Rest(script))).Err? ==>
      x.outcome == Err(Envelope(Next(Rest(script))).error)
    ensures x.rest == Drop(script, |x.sent|)
  {
    var s := UserSalt(username, "", script);
    if s.outcome.Err? then Exchange(s.sent, Err(s.outcome.error), s.rest)
    else
      var l := Post(LoginEndpoint, LoginForm(username, hash(password, s.outcome.value)), "", s.rest);
      Exchange(s.sent + l.sent, Field(l.outcome, TokenKey), l.rest)
  }

  /** Logging out: one request that carries the token and nothing else. */
  function LogoutExchange(wst: string, script: seq<Response>): (x: Exchange<Fields>)
    ensures x.sent == [Request(Url(LogoutEndpoint), map[WstKey := wst])]
    ensures x.outcome.Ok? <==> Envelope(Next(script)).Ok?
    ensures x.outcome == Envelope(Next(script))
    ensures x.rest == Drop(script, 1)
  {
    Post(LogoutEndpoint, map[], wst, script)
  }

  /**
   * The request for a file's link or information: without a password one
   * request with the identifier; with a password, first the file's salt, then
   * the request with the password hashed under that salt.
   */
  function FileExchange(endpoint: string, ident: string, password: Option<string>, wst: string,
                        hash: (string, string) -> string, script: seq<Response>): (x: Exchange<Fields>)
    ensures password.None? ==>
      && x.sent == [Request(Url(endpoint), map[IdentKey := ident, WstKey := wst])]
      && x.outcome == Envelope(Next(script))
    ensures password.Some? ==>
      && 1 <= |x.sent| <= 2
      && x.sent[0] == Request(Url(FileSaltEndpoint), map[IdentKey := ident, WstKey := wst])
      && (|x.sent| == 2 <==> FileSalt(ident, wst, script).outcome.Ok?)
    ensures password.Some? && |x.sent| == 2 ==>
      var salt := Next(script).fields[SaltKey];
      && x.sent[1] == Request(Url(endpoint),
           map[IdentKey := ident, PasswordKey := hash(password.value, salt), WstKey := wst])
      && x.outcome == Envelope(Next(Rest(script)))
    ensures password.Some? && |x.sent| == 1 ==> x.outcome == Err(FileSalt(ident, wst, script).outcome.error)
    ensures x.rest == Drop(script, |x.sent|)
  {
    if password.None? then Post(endpoint, map[IdentKey := ident], wst, script)
    else
      var s := FileSalt(ident, wst, script);
      if s.outcome.Err? then Exchange(s.sent, Err(s.outcome.error), s.rest)
      else
        var form := map[IdentKey := ident, PasswordKey := hash(password.value, s.outcome.value)];
        var p := Post(endpoint, form, wst, s.rest);
        Exchange(s.sent + p.sent, p.outcome, p.rest)
  }

  /** Every request of every operation carries the session token it was made with. */
  lemma ExchangesCarryToken(username: string, password: string, endpoint: string, ident: string,
                            filePassword: Option<string>, wst: string,
                            hash: (string, string) -> string, script: seq<Response>)
    ensures forall q :: q in LoginExchange(username, password, hash, script).sent ==> q.data[WstKey] == ""
    ensures forall q :: q in LogoutExchange(wst, script).sent ==> q.data[WstKey] == wst
    ensures forall q :: q in FileExchange(endpoint, ident, filePassword, wst, hash, script).sent ==>
      q.data[WstKey] == wst
  {
  }

  /**
   * Nothing catches an error: when the first reply is a status other than
   * "OK" with a message, every operation fails with exactly that status and
   * message after its first request.
   */
  lemma FirstServerErrorSurfaces(username: string, password: string, endpoint: string, ident: string,
                                 filePassword: Option<string>, wst: string,
                                 hash: (string, string) -> string, script: seq<Response>)
    requires script != [] && script[0].Reply?
    requires StatusKey in script[0].fields && MessageKey in script[0].fields
    requires script[0].fields[StatusKey] != "OK"
    ensures var e := StatusError(script[0].fields[StatusKey], script[0].fields[MessageKey]);
      && UserSalt(username, wst, script).outcome == Err(e)
      && FileSalt(ident, wst, script).outcome == Err(e)
      && LoginExchange(username, password, hash, script).outcome == Err(e)
      && |LoginExchange(username, password, hash, script).sent| == 1
      && LogoutExchange(wst, script).outcome == Err(e)
      && FileExchange(endpoint, ident, filePassword, wst, hash, script).outcome == Err(e)
      && |FileExchange(endpoint, ident, filePassword, wst, hash, script).sent| == 1
  {
  }

  /** The link of a file: the "link" element of the reply, unchanged. */
  function LinkOf(reply: Result<Fields>): (r: Result<string>)
    ensures r.Ok? <==> reply.Ok? && LinkKey in reply.value
    ensures r.Ok? ==> r.value == reply.value[LinkKey]
    ensures reply.Ok? && LinkKey !in reply.value ==> r == Err(MissingField(LinkKey))
    ensures reply.Err? ==> r == Err(reply.error)
  {
    Field(reply, LinkKey)
  }

  /**
   * The metadata of a file: name, description, type and the integer size, read
   * in that order, so the first absent element is the one reported.
   */
  function InfoOf(reply: Result<Fields>): (r: Result<FileInfo>)
    ensures r.Ok? <==>
      && reply.Ok?
      && NameKey in reply.value && DescriptionKey in reply.value
      && TypeKey in reply.value && SizeKey in reply.value
      && ParseDecimal(reply.value[SizeKey]).Some?
    ensures r.Ok? ==>
      && r.value.name == reply.value[NameKey]
      && r.value.desc == reply.value[DescriptionKey]
      && r.value.kind == reply.value[TypeKey]
      && Some(r.value.size) == ParseDecimal(reply.value[SizeKey])
    ensures reply.Ok? && NameKey !in reply.value ==> r == Err(MissingField(NameKey))
    ensures reply.Err? ==> r == Err(reply.error)
  {
    var name :- Field(reply, NameKey);
    var desc :- Field(reply, DescriptionKey);
    var kind :- Field(reply, TypeKey);
    var size :- Field(reply, SizeKey);
    match ParseDecimal(size)
    case None => Err(NotAnInteger(size))
    case Some(n) => Ok(FileInfo(name, desc, kind, n))
  }

  /** A size sent as the numeral of `n` comes back as `n`. */
  lemma InfoSizeRoundTrip(fields: Fields, n: nat)
    requires NameKey in fields && DescriptionKey in fields && TypeKey in fields
    requires SizeKey in fields && fields[SizeKey] == Numeral(n)
    ensures InfoOf(Ok(fields)).Ok? && InfoOf(Ok(fields)).value.size == n
  {
    ParseDecimalRoundTrip(n);
  }
}
