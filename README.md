# webshare.cz API client — a Dafny model

This project models `WebshareAPI`, the client for the webshare.cz file-hosting
API in `webshare.py`. The client keeps one piece of session state, the token
`_wst` (`""` means "not logged in"). It turns share URLs into file
identifiers, logs in with a salted challenge (salt request, password hash,
login request), logs out, and resolves a file's direct link or its metadata.
A file may be password-protected; then a second salt, fetched per file, is used.

Layout:

- `wrappers.dfy`: `Option`, standing for Python's `None` or a value.
- `share_url.dfy` (module `ShareUrl`): `_get_ident`. The regular expression
  `webshare\.cz/#?/?file/([^/]+)` is written out as a string matcher.
  `MatchAt` runs the pattern at one position. `Search` tries positions left to
  right, as `re.search` does. `MatchesVia`/`Matches` describe the accepted
  shapes declaratively. The lemmas prove the matcher agrees with them.
- `decimal.dfy` (module `Decimal`): `int()` applied to the size string,
  restricted to strings of ASCII digits.
- `protocol.dfy` (module `Protocol`): the failure kinds, the envelope check of
  `_post_data`, and one pure exchange function per operation. Each exchange
  function gives the requests sent, the outcome, and the responses left over,
  as a function of the server's scripted responses.
- `client.dfy` (module `Client`): the token mapping and the classes. `Form` is
  a form dictionary updated in place. `Server` is the network: it answers from
  a queue of canned responses and keeps a ghost log of `(url, data)` requests.
  `WebshareApi` holds the `wst` field, and its methods are proved against the
  exchange functions.

Modelling choices:

- The network is the `Server` object. Each POST consumes the next scripted
  response. An exhausted script behaves as an unreachable server (a transport
  failure with an empty cause).
- `_hash_password` is the client's constant `hash: (string, string) -> string`,
  given at construction. It is uninterpreted and deterministic. Only what it is
  applied to, and where its result goes, is modelled.
- Replies are the decoded fields of the XML `response` element, as a
  string-to-string map. Reading an absent element (a Python `KeyError`) is the
  failure `MissingField`. A size that is not a numeral (a Python `ValueError`)
  is `NotAnInteger`. Neither is a `WebshareAPIError`, matching the code.
- `keep_logged_in` is the integer `1` in the source. It is sent as `"1"`,
  which is what form encoding puts on the wire.
- `get_file_info` returns a dictionary with exactly the keys `name`, `desc`,
  `type` and `size`. Here it is the record `FileInfo(name, desc, kind, size)`;
  `type` is a Dafny keyword, so that field is `kind`.
- The link and info queries share the helper `PostForFile` for the identical
  lines 103-108 and 117-122.

Behaviour of the code worth noting:

- The token is written into every request, overwriting any `wst` the caller
  supplied (webshare.py:44-47). No caller-supplied value is kept.
- All errors the client raises itself are one exception class,
  `WebshareAPIError`, with a message. The
  model keeps the kind (`TransportError`, `StatusError`, `InvalidUrl`). It also
  builds the exact message text of the status error and of the URL error.
- Identifier extraction takes the leftmost position where the whole pattern
  matches. That is not always the first occurrence of `webshare.cz/`: see
  `ExampleLaterMatchWins`.
- Logout clears the token only after the logout request succeeds. A failed
  logout leaves the session as it was.

## Model

| member | source | states |
|---|---|---|
| `ShareUrl.RunEnd` | webshare.py:15 | the greedy `[^/]+` run from a position holds no '/' and stops at a '/' or at the end of the URL |
| `ShareUrl.RunEndIs` | webshare.py:15 | the greedy run ends exactly at the first '/' after its start, or at the end of the URL when there is none |
| `ShareUrl.MatchAt` | webshare.py:15 | the pattern anchored at one position captures, when it matches, a non-empty identifier without '/' |
| `ShareUrl.MatchAtIff` | webshare.py:15 | the anchored matcher (greedy `#?` then `/?`, then `file/`, then the longest non-'/' run) accepts exactly the declarative shapes host + one of "", "#", "/", "#/" + "file/" + identifier followed by '/' or the end, and captures that identifier |
| `ShareUrl.SearchIsLeftmost` | webshare.py:36 | the search returns the match at the leftmost matching position, and nothing exactly when no position matches |
| `ShareUrl.GetIdent` | webshare.py:35-41 | the extracted identifier is non-empty and holds no '/' |
| `ShareUrl.GetIdentIsLeftmostMatch` | webshare.py:35-41 | `GetIdent` returns `id` if and only if the pattern matches at some position capturing `id` and matches at no earlier position |
| `ShareUrl.GetIdentNoneIffNoMatch` | webshare.py:38-41 | `GetIdent` returns None if and only if the pattern matches at no position of the URL |
| `ShareUrl.ExampleShareUrl` | webshare.py:15 | `https://webshare.cz/#/file/abc123/filename.ext` gives `abc123` |
| `ShareUrl.ExampleLaterMatchWins` | webshare.py:36 | in `webshare.cz/folder/webshare.cz/file/x` the second occurrence of the host is matched, giving `x` |
| `ShareUrl.ExampleEmptyIdentRejected` | webshare.py:15 | `webshare.cz/file/` with no identifier is rejected |
| `Decimal.ParseDecimal` | webshare.py:128 | a string has an integer value exactly when it is a non-empty string of digits |
| `Decimal.ParseDecimalRoundTrip` | webshare.py:128 | reading the decimal numeral of `n` gives back `n` |
| `Decimal.ParseDecimalLeadingZero` | webshare.py:128 | a leading zero does not change the value read |
| `Protocol.Envelope` | webshare.py:54-61 | a reply is accepted exactly when it carries status "OK", and then it is returned unmodified; a transport failure becomes a transport error carrying its cause; a non-"OK" status with a message gives exactly the status error with both, and a missing status or message is reported as that missing element |
| `Protocol.ServerErrorIsReported` | webshare.py:56-59 | a reply with a status other than "OK" and a message raises a `WebshareAPIError` whose text starts with "webshare.cz returned ", then the status, and ends with the message |
| `Protocol.Field` | webshare.py:65 | reading an element of a reply succeeds exactly when the reply is a success that has the element, gives its value, reports the absent key otherwise, and passes an earlier failure through |
| `Protocol.Post` | webshare.py:43-50 | one request to the endpoint's URL, whose fields are the caller's plus `wst`; `wst` is the current token, overwriting any caller value; every other caller field is sent unchanged; the outcome is the envelope check of the reply, failures included; one response is consumed |
| `Protocol.PostWithoutData` | webshare.py:44-45 | with no caller dictionary the request carries exactly `{wst: token}` |
| `Protocol.UserSalt` | webshare.py:63-65 | the user salt is one `salt` request with `username_or_email` and the token; it succeeds exactly when the reply is "OK" and has a salt, and then returns that salt; a failed envelope check passes its error through, and an "OK" reply without a salt reports the missing salt |
| `Protocol.FileSalt` | webshare.py:67-69 | the file salt is one `file_password_salt` request with `ident` and the token; it succeeds exactly when the reply is "OK" and has a salt, and then returns that salt; a failed envelope check passes its error through, and an "OK" reply without a salt reports the missing salt |
| `Protocol.LoginExchange` | webshare.py:79-89 | login sends a `salt` request and then, only if a salt came back, a `login` request with the password hashed under that salt and `keep_logged_in` 1, both with token ""; it yields the login reply's token if and only if both replies are "OK" and the login reply has a token; a failed salt request or a failed login envelope passes its error through unchanged |
| `Protocol.LogoutExchange` | webshare.py:95 | logout sends one `logout` request carrying exactly the token, and its outcome is the envelope check of the reply: success exactly when the reply is "OK", the reply's error otherwise |
| `Protocol.FileExchange` | webshare.py:103-108 | without a password, one request `{ident, wst}`; with one, first `file_password_salt` for the same identifier, then, only if a salt came back, the request with `password` = hash(password, that salt); a failed salt aborts with its error |
| `Protocol.ExchangesCarryToken` | webshare.py:43-47 | every request of login, logout and the file queries carries the session token it was made with |
| `Protocol.FirstServerErrorSurfaces` | webshare.py:49-59 | no error is caught: when the first reply is a non-"OK" status with a message, the salt requests, login, logout and the file queries all fail with exactly that status and message, and login and the file queries send no second request |
| `Protocol.LinkOf` | webshare.py:110 | the link is the reply's `link` element, unchanged, a failed reply passes its error through, and an "OK" reply without a link reports the missing link |
| `Protocol.InfoOf` | webshare.py:124-129 | the metadata is exactly name, description (as `desc`), type and the integer value of size; it succeeds exactly when all four are present and size is a numeral; a missing name is reported first |
| `Protocol.InfoSizeRoundTrip` | webshare.py:128 | a size sent as the numeral of `n` is returned as `n` |
| `Client.TokenOf` | webshare.py:21-26 | the token getter gives None exactly when `_wst` is "" and `_wst` otherwise |
| `Client.WstOf` | webshare.py:28-33 | after the setter stores `value`, the getter gives None for None and for "", and gives `value` for any other string |
| `Client.TokenRoundTrip` | webshare.py:21-33 | storing the value the getter gives leaves `_wst` as it was |
| `Client.Server.Post` | webshare.py:50-52 | a POST logs the request and answers with the next scripted response, a transport failure when none is left |
| `Client.WebshareApi.constructor` | webshare.py:14-19 | a new client is not logged in |
| `Client.WebshareApi.SetToken` | webshare.py:28-33 | the setter stores "" for None and the value otherwise |
| `Client.WebshareApi.PostData` | webshare.py:43-61 | writes the current token into the caller's dictionary in place, leaving its other keys alone; sends one request and returns the envelope check of its reply; never changes `_wst` |
| `Client.WebshareApi.GetUserSalt` | webshare.py:63-65 | sends exactly the `UserSalt` request and returns its salt or failure |
| `Client.WebshareApi.GetFileSalt` | webshare.py:67-69 | sends exactly the `FileSalt` request and returns its salt or failure |
| `Client.WebshareApi.Login` | webshare.py:75-89 | with a token held, does nothing and sends nothing; otherwise sends the login exchange's requests; `_wst` becomes the returned token when both requests succeed and stays "" when either fails |
| `Client.WebshareApi.Logout` | webshare.py:91-96 | with no token, does nothing and sends nothing; otherwise sends one logout request with the token; `_wst` becomes "" only when it succeeds |
| `Client.WebshareApi.PostForFile` | webshare.py:103-108 | sends exactly the file exchange's requests, with the password field added to the request dictionary only after a salt came back |
| `Client.WebshareApi.GetFileLink` | webshare.py:98-110 | a URL without an identifier fails with the URL error before any request; otherwise sends the file exchange for `file_link` and returns the reply's link; `_wst` is unchanged |
| `Client.WebshareApi.GetFileInfo` | webshare.py:112-129 | a URL without an identifier fails with the URL error before any request; otherwise sends the file exchange for `file_info` and returns name, description, type and integer size; `_wst` is unchanged |

## Left out

- HTTP transport: `requests.post`, the base URL joining beyond the string
  `https://webshare.cz/api/<endpoint>/`, the 4-second timeout and form encoding
  are replaced by the scripted `Server`. The order of keys in the encoded form
  is not modelled (fields are a map).
- XML decoding by `xmltodict`: replies are already decoded into a string map.
  A body that does not parse, a missing `response` root, and elements that
  decode to `None` or to nested dictionaries are not modelled.
- The password hash (`md5_crypt` with the salt, then the SHA-1 hex digest of
  its text) is a foreign library call. It is the uninterpreted `hash`, so no
  property of the digest itself (such as collision freedom) is stated. The
  model's `hash` is total, so the `ValueError` that `md5_crypt` raises for a
  salt longer than 8 characters or with characters outside `[./0-9A-Za-z]`
  is not modelled.
- `Decimal.ParseDecimal`: Python's `int()` also accepts surrounding
  whitespace, a sign, underscores between digits and non-ASCII digits. The
  model accepts only ASCII digit strings and reports the rest as
  `NotAnInteger`.
- The text of a transport error is the cause string of the failure. The texts
  of `KeyError` and `ValueError` are approximations; only their kind and key
  are meant.
- Python's dynamic typing: the token setter accepting non-string values, and
  arguments of other types, are not modelled.
- Concurrency: the client is single-threaded and has no locking, so none is
  modelled.
- `sledovanitv.py` (channel listing and playback) and `spotlight.py`
  (wallpaper download) are not part of this model. They are HTTP GET calls,
  subprocess and database plumbing, and an interactive retry loop, with no
  client state of their own.
