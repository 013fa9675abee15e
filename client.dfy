/**
 * The webshare.cz API client.  Its one piece of mutable state is the session
 * token `wst`, with "" meaning "not logged in".  The network is a scripted
 * server: it answers each request with the next of a queue of canned responses
 * and logs the request, so that the requests an operation makes, and their
 * order, are part of each method's postcondition.
 */
module Client {
  import opened Wrappers
  import opened ShareUrl
  import opened Protocol

  /** The token as callers see it: None for the "" sentinel, the token otherwise. */
  function TokenOf(wst: string): (t: Option<string>)
    ensures t.None? <==> wst == ""
    ensures t.Some? ==> t.value == wst
  {
    if wst == "" then None else Some(wst)
  }

  /** What setting the token to `value` stores: "" for None, the value otherwise. */
  function WstOf(value: Option<string>): (w: string)
    ensures TokenOf(w) == if value == Some("") then None else value
  {
    if value.None? then "" else value.value
  }

  /** Reading back the stored token and storing it again changes nothing. */
  lemma TokenRoundTrip(wst: string)
    ensures WstOf(TokenOf(wst)) == wst
  {
  }

  /** A form-field dictionary that the client and its caller share and update in place. */
  class Form {
    var fields: Fields

    constructor (fields: Fields)
      ensures this.fields == fields
    {
      this.fields := fields;
    }
  }

  /** The remote service, answering from a script of responses and logging what it receives. */
  class Server {
    var script: seq<Response>
    ghost var log: seq<Request>

    constructor (script: seq<Response>)
      ensures this.script == script && log == []
    {
      this.script := script;
      log := [];
    }

    /** A form-encoded POST of `data` to `url`. */
    method Post(url: string, data: Fields) returns (resp: Response)
      modifies this
      ensures log == old(log) + [Request(url, data)]
      ensures resp == Next(old(script)) && script == Rest(old(script))
    {
      log := log + [Request(url, data)];
      if script == [] {
        resp := NetFail("");
      } else {
        resp := script[0];
        script := script[1..];
      }
    }
  }

  class WebshareApi {
    var wst: string
    const server: Server
    /** The password hash (salted MD5-crypt, then the SHA-1 hex digest of its text). */
    const hash: (string, string) -> string

    constructor (server: Server, hash: (string, string) -> string)
      ensures wst == "" && this.server == server && this.hash == hash
    {
      wst := "";
      this.server := server;
      this.hash := hash;
    }

    function Token(): Option<string>
      reads this
    {
      TokenOf(wst)
    }

    method SetToken(value: Option<string>)
      modifies this
      ensures wst == WstOf(value)
      ensures Token() == if value == Some("") then None else value
    {
      if value.None? {
        wst := "";
      } else {
        wst := value.value;
      }
    }

    function HashPassword(password: string, salt: string): string
    {
      hash(password, salt)
    }

    /**
     * Posts `data` (or, for null, no fields of the caller's) with the current
     * token written into it in place, and checks the reply's envelope.
     */
    method PostData(endpoint: string, data: Form?) returns (reply: Result<Fields>)
      modifies server, data
      ensures wst == old(wst)
      ensures data != null ==> data.fields == old(data.fields)[WstKey := wst]
      ensures var x := Post(endpoint, if data == null then map[] else old(data.fields), wst, old(server.script));
        && server.log == old(server.log) + x.sent
        && server.script == x.rest
        && reply == x.outcome
    {
      var sent: Fields;
      if data == null {
        sent := map[WstKey := wst];
      } else {
        data.fields := data.fields[WstKey := wst];
        sent := data.fields;
      }
      var resp := server.Post(Url(endpoint), sent);
      reply := Envelope(resp);
    }

    method GetUserSalt(username: string) returns (salt: Result<string>)
      modifies server
      ensures var x := UserSalt(username, wst, old(server.script));
        server.log == old(server.log) + x.sent && server.script == x.rest && salt == x.outcome
    {
      var form := new Form(map[UsernameKey := username]);
      var reply := PostData(SaltEndpoint, form);
      salt := Field(reply, SaltKey);
    }

    method GetFileSalt(ident: string) returns (salt: Result<string>)
      modifies server
      ensures var x := FileSalt(ident, wst, old(server.script));
        server.log == old(server.log) + x.sent && server.script == x.rest && salt == x.outcome
    {
      var form := new Form(map[IdentKey := ident]);
      var reply := PostData(FileSaltEndpoint, form);
      salt := Field(reply, SaltKey);
    }

    /**
     * Logs in unless a token is already held.  The token is stored only when
     * both the salt and the login request succeed.
     */
    method Login(username: string, password: string) returns (r: Result<()>)
      modifies this, server
      ensures old(wst) != "" ==>
        && r == Ok(())
        && wst == old(wst)
        && server.log == old(server.log)
        && server.script == old(server.script)
      ensures old(wst) == "" ==>
        var x := LoginExchange(username, password, hash, old(server.script));
        && server.log == old(server.log) + x.sent
        && server.script == x.rest
        && wst == (if x.outcome.Ok? then x.outcome.value else "")
        && r == (if x.outcome.Ok? then Ok(()) else Err(x.outcome.error))
    {
      if wst != "" {
        return Ok(());
      }
      var salt := GetUserSalt(username);
      if salt.Err? {
        return Err(salt.error);
      }
      var form := new Form(LoginForm(username, HashPassword(password, salt.value)));
      var reply := PostData(LoginEndpoint, form);
      var token := Field(reply, TokenKey);
      if token.Err? {
        return Err(token.error);
      }
      wst := token.value;
      r := Ok(());
    }

    /** Logs out if a token is held; the token is cleared only when the logout request succeeds. */
    method Logout() returns (r: Result<()>)
      modifies this, server
      ensures old(wst) == "" ==>
        && r == Ok(())
        && wst == ""
        && server.log == old(server.log)
        && server.script == old(server.script)
      ensures old(wst) != "" ==>
        var x := LogoutExchange(old(wst), old(server.script));
        && server.log == old(server.log) + x.sent
        && server.script == x.rest
        && wst == (if x.outcome.Ok? then "" else old(wst))
        && r == (if x.outcome.Ok? then Ok(()) else Err(x.outcome.error))
    {
      if wst == "" {
        return Ok(());
      }
      var reply := PostData(LogoutEndpoint, null);
      if reply.Err? {
        return Err(reply.error);
      }
      wst := "";
      r := Ok(());
    }

    /** The request shared by the link and the information queries, for an identifier already extracted. */
    method PostForFile(endpoint: string, ident: string, password: Option<string>) returns (reply: Result<Fields>)
      modifies server
      ensures var x := FileExchange(endpoint, ident, password, wst, hash, old(server.script));
        server.log == old(server.log) + x.sent && server.script == x.rest && reply == x.outcome
    {
      var form := new Form(map[IdentKey := ident]);
      if password.Some? {
        var salt := GetFileSalt(ident);
        if salt.Err? {
          return Err(salt.error);
        }
        form.fields := form.fields[PasswordKey := HashPassword(password.value, salt.value)];
      }
      reply := PostData(endpoint, form);
    }

    /** The direct download link of the file a share URL names. */
    method GetFileLink(url: string, password: Option<string>) returns (r: Result<string>)
      modifies server
      ensures wst == old(wst)
      ensures GetIdent(url).None? ==>
        r == Err(InvalidUrl) && server.log == old(server.log) && server.script == old(server.script)
      ensures GetIdent(url).Some? ==>
        var x := FileExchange(FileLinkEndpoint, GetIdent(url).value, password, wst, hash, old(server.script));
        server.log == old(server.log) + x.sent && server.script == x.rest && r == LinkOf(x.outcome)
    {
      var ident := GetIdent(url);
      if ident.None? {
        return Err(InvalidUrl);
      }
      var reply := PostForFile(FileLinkEndpoint, ident.value, password);
      r := LinkOf(reply);
    }

    /** The name, description, type and size of the file a share URL names. */
    method GetFileInfo(url: string, password: Option<string>) returns (r: Result<FileInfo>)
      modifies server
      ensures wst == old(wst)
      ensures GetIdent(url).None? ==>
        r == Err(InvalidUrl) && server.log == old(server.log) && server.script == old(server.script)
      ensures GetIdent(url).Some? ==>
        var x := FileExchange(FileInfoEndpoint, GetIdent(url).value, password, wst, hash, old(server.script));
        server.log == old(server.log) + x.sent && server.script == x.rest && r == InfoOf(x.outcome)
    {
      var ident := GetIdent(url);
      if ident.None? {
        return Err(InvalidUrl);
      }
      var reply := PostForFile(FileInfoEndpoint, ident.value, password);
      r := InfoOf(reply);
    }
  }
}
