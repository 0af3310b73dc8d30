# Signed authentication requests of talk-api-client-rs, in Dafny

This project models how the authentication client of talk-api-client-rs builds
a request before sending it. It covers:

- the XVC signature: a per-platform SHA-512 digest over the seeds, the user
  agent, the e-mail and (for Win32) the device UUID, joined with `|`;
- the headers every authenticated request carries (`User-Agent`, `A`,
  `Accept`, `Accept-Language`, `X-VC`, and `Host` when the base URL has a
  host);
- the endpoint path `{agent}/{endpoint}`;
- the URL-encoded form fields of `login` (account and token), `request_passcode`
  and `register_device`.

A request is modelled as a record: a path relative to the base URL, an ordered
list of header (name, value) pairs, and an ordered list of form (key, value)
pairs. The model stops where the request would be sent.

Files, one module each:

- `wrappers.dfy` (`Wrappers`): `Option`.
- `utf8.dfy` (`Utf8`): bytes and the UTF-8 encoding of strings (RFC 3629,
  section 3). `Digest::update(&str)` feeds exactly these bytes.
- `hex.dfy` (`Hex`): the `hex` crate's lower-case encoding, and a decoder as
  its partner.
- `sha512.dfy` (`Sha512`): the SHA-512 digest function, taken as a parameter,
  and the incremental hasher state (`Sha512::new`, `update`, `finalize`) as a
  class that holds a byte buffer.
- `xvc.dfy` (`Xvc`): `Win32XVCHasher` and `AndroidSubXVCHasher` from
  `src/auth/xvc/default.rs`, their pre-images and their `full_xvc_hash`.
- `auth.dfy` (`Auth`): the value types, form structs and `TalkAuthClient`
  request building from `src/auth/mod.rs`.

Modelling choices:

- SHA-512 (FIPS 180-4, section 6.4) is not implemented. Every hasher method
  takes `sha: Sha512.HashFunction`. This is any total function on byte strings
  whose results are 64 bytes long. Every result is proved for all such
  functions.
- `TalkApiAgent` lives in a module that is not part of this model
  (`src/lib.rs:7`). Its `agent()` is the datatype field `name`. Its
  `get_user_agent(version, language)` is the function-valued field
  `userAgentFormat`.
- The `XVCHasher` trait is declared in `src/auth/xvc/mod.rs`, which is not
  part of this model. `TalkAuthClient` is generic over it. Here the two hashers
  form a closed datatype `XvcHasher`, and the client's properties hold for
  either one.
- Header names are written in lower case (`user-agent`, `a`, `accept`,
  `accept-language`, `x-vc`, `host`). The `http` crate that `reqwest` uses
  stores them that way: its standard name constants are lower case, and
  `"A"` and `"X-VC"` are lowercased when converted to header names. HTTP
  header names are case-insensitive.
- `RequestBuilder::header` appends, so the headers are an ordered list and a
  name could repeat. The lemmas read headers with `Values`, which returns
  every value under a name.
- The form serializer writes struct fields in declaration order. A
  `#[serde(flatten)]` form's fields stand in its place. A `None` marked
  `skip_serializing_if = "Option::is_none"` is left out, and a boolean is
  written as `"true"` or `"false"`.
- `model_name` is present exactly when the device model is `Some`, and then
  holds that model. So no `model_name` field is sent for `None`. A model of
  `Some("")` would still be sent as an empty value, as in the source.

Documentation and code disagree once. The doc comment of `AndroidSubXVCHasher`
(`src/auth/xvc/default.rs:60`) gives the order
`{first}|{email}|{second}|{user_agent}|{third}`. The code (lines 92-100) hashes
`{first}|{user_agent}|{second}|{email}|{third}`. The model follows the code
(`Xvc.AndroidSubPreimage`). The documented order is kept as
`Xvc.DocumentedAndroidSubPreimage`, and `Xvc.DocumentedOrderDiffers` shows the
two orders give different pre-images whenever the user agent and the e-mail
differ and contain no `|`. Which order the service expects cannot be decided
from the repository, so this is not reported as a defect of either.

## Model

| member | source | states |
|---|---|---|
| `Utf8.EncodeConcat` | src/auth/xvc/default.rs:44-52 | Feeding two strings one after the other feeds the UTF-8 bytes of their concatenation. |
| `Utf8.CountSeparatorBytes` | src/auth/xvc/default.rs:45-51 | The byte 0x7C occurs in a string's UTF-8 encoding exactly as often as the character `\|` occurs in the string. |
| `Utf8.CodePointOfEncoding` | src/auth/xvc/default.rs:44-52 | Reading back the one to four bytes of an encoded character gives that character's scalar value. |
| `Utf8.EncodeInjective` | src/auth/xvc/default.rs:44-52 | Two strings with the same UTF-8 bytes are equal. |
| `Hex.Encode` | src/auth/mod.rs:93 | The hex text of n bytes has 2n characters, and each is a lower-case hex digit. |
| `Hex.DecodeIffEncode` | src/auth/mod.rs:93 | Decoding lower-case hex inverts `hex::encode` in both directions: text decodes to some bytes exactly when those bytes encode to that text. |
| `Sha512.Hasher.constructor` | src/auth/xvc/default.rs:42 | `Sha512::new()` starts with nothing fed. |
| `Sha512.Hasher.Update` | src/auth/xvc/default.rs:44 | `update` with a string appends that string's UTF-8 bytes to the message. |
| `Sha512.Hasher.Finalize` | src/auth/xvc/default.rs:54 | `finalize().to_vec()` returns the 64-byte digest of everything fed. |
| `Xvc.Win32XvcHasher.New` | src/auth/xvc/default.rs:23-28 | `Win32XVCHasher::new` stores both seeds unchanged. |
| `Xvc.Win32XvcHasher.NewConst` | src/auth/xvc/default.rs:32-37 | `new_const` builds the same hasher as `new`. |
| `Xvc.Win32XvcHasher.FullXvcHash` | src/auth/xvc/default.rs:41-55 | The nine updates and `finalize` give SHA-512 of the UTF-8 bytes of `first\|user_agent\|second\|email\|device_uuid`, 64 bytes long. |
| `Xvc.AndroidSubXvcHasher.New` | src/auth/xvc/default.rs:69-75 | `AndroidSubXVCHasher::new` stores `first` and `third` unchanged, and its `mid` argument as the second seed. |
| `Xvc.AndroidSubXvcHasher.NewConst` | src/auth/xvc/default.rs:79-85 | `new_const` builds the same hasher as `new`. |
| `Xvc.AndroidSubXvcHasher.FullXvcHash` | src/auth/xvc/default.rs:89-103 | The nine updates and `finalize` give SHA-512 of the UTF-8 bytes of `first\|user_agent\|second\|email\|third`, 64 bytes long. The device UUID argument does not occur. |
| `Xvc.XvcHasher.FullXvcHash` | src/auth/mod.rs:89-91 | Whichever hasher the client holds, `full_xvc_hash` returns the 64-byte digest of that hasher's pre-image. |
| `Xvc.XvcHasher.Digest` | src/auth/xvc/default.rs:54 | The value `full_xvc_hash` returns is always a full 64-byte digest. |
| `Xvc.Win32PreimageShape` | src/auth/xvc/default.rs:44-52 | The Win32 pre-image starts with the first seed and ends with the device UUID. It holds exactly four `\|` besides those inside the operands, and so do the bytes hashed. |
| `Xvc.AndroidSubPreimageShape` | src/auth/xvc/default.rs:92-100 | The Android sub-device pre-image starts with the first seed and ends with the third seed. It holds exactly four `\|` besides those inside the operands, and so do the bytes hashed. |
| `Xvc.Win32PreimageInjective` | src/auth/xvc/default.rs:44-52 | With the other four operands fixed, changing any one of the five (either seed, UUID, user agent, e-mail) changes the bytes fed to SHA-512. |
| `Xvc.AndroidSubPreimageInjective` | src/auth/xvc/default.rs:92-100 | With the other four operands fixed, changing any one of the five (any seed, user agent, e-mail) changes the bytes fed to SHA-512. |
| `Xvc.AndroidSubIgnoresDeviceUuid` | src/auth/xvc/default.rs:89 | Two Android sub-device digests that differ only in the device UUID argument are equal. |
| `Xvc.DocumentedOrderDiffers` | src/auth/xvc/default.rs:60 | The order in the doc comment and the order in the code give different pre-images when the user agent and the e-mail differ and contain no `\|`. |
| `Auth.AuthDeviceConfig.New` | src/auth/mod.rs:252-254 | Name, model and UUID are stored as given. The UUID becomes `uuid_string_base64`. |
| `Auth.AuthDeviceConfig.NewPc` | src/auth/mod.rs:256-262 | A PC device stores name and UUID and has no model. |
| `Auth.AuthDeviceConfig.NewConstPc` | src/auth/mod.rs:266-272 | `new_const_pc` builds the same device as `new_pc`. |
| `Auth.AuthClientConfig.NewConst` | src/auth/mod.rs:229-241 | Device, language, version and agent are stored as given. |
| `Auth.AccountLoginForm.NewConst` | src/auth/mod.rs:282-287 | E-mail and password are stored as given. |
| `Auth.TokenLoginForm.NewConst` | src/auth/mod.rs:299-309 | E-mail, auto-login token and locked flag are stored as given. |
| `Auth.AuthFormFields` | src/auth/mod.rs:207-216 | The base form has the keys `email`, `password`, `device_uuid`, `device_name`, then `model_name` exactly when a model is set, and no key twice. Each key holds its value. `model_name` reads back as the optional model itself. |
| `Auth.Request.Post` | src/auth/mod.rs:121 | `client.post(url)` starts a request with the given path, no headers and no form. |
| `Auth.Request.WithForm` | src/auth/mod.rs:124-127 | `.form(...)` sets the form fields and leaves path and headers alone. |
| `Auth.TalkAuthClient.New` | src/auth/mod.rs:35-41 | `TalkAuthClient::new` uses the default base URL `https://katalk.kakao.com` and keeps the whole configuration, agent included, and the hasher. |
| `Auth.TalkAuthClient.NewWithUrl` | src/auth/mod.rs:43-52 | `new_with_url` keeps the whole configuration, agent included, the URL and the hasher. |
| `Auth.TalkAuthClient.XvcDigest` | src/auth/mod.rs:89-91 | The digest behind X-VC is 64 bytes, so the 8-byte slice never panics. |
| `Auth.TalkAuthClient.BuildUrl` | src/auth/mod.rs:82-86 | The path is the agent name, then `/`, then the endpoint. |
| `Auth.TalkAuthClient.HashAuthXvc` | src/auth/mod.rs:88-94 | X-VC is 16 characters and decodes to exactly the first 8 bytes of the digest over the configured base64 device UUID, the given user agent and the given e-mail. |
| `Auth.XvcTextEncodesFirstEightBytes` | src/auth/mod.rs:93 | For any digest of at least 8 bytes, `hex::encode(&d[..8])` is 16 lower-case hex digits that decode back to `d[..8]`. |
| `Auth.TalkAuthClient.BuildAuthRequest` | src/auth/mod.rs:54-80 | The builder's headers are kept and the authentication headers are appended after them, in order. Path and form are unchanged. |
| `Auth.AuthHeadersContents` | src/auth/mod.rs:54-80 | Header names come in the order User-Agent, A, Accept, Accept-Language, X-VC, then Host exactly when the URL has a host. Each name appears once. `A` is `agent/version/language` and Accept is `*/*`. Accept-Language is the configured language and Host is the URL's host. X-VC is computed over the very value sent as User-Agent. |
| `Auth.HeadersIgnoreUrl` | src/auth/mod.rs:75-77 | There are 5 headers, or 6 with a host. The first five are the same for every base URL. |
| `Auth.DefaultClientHost` | src/auth/mod.rs:35-41 | A client built with `new` sends `Host: katalk.kakao.com`. |
| `Auth.TalkAuthClient.BuildAuthForm` | src/auth/mod.rs:96-104 | E-mail and password come from the arguments. Device UUID, device name and model come from the configuration. |
| `Auth.LoginAccountForm` | src/auth/mod.rs:112-128 | Account login sends the base fields plus `forced` only, with no `auto_login` or `autowithlock`. The password is the account password. |
| `Auth.LoginTokenForm` | src/auth/mod.rs:130-150 | Token login sends the token as `password`, then `auto_login=true`, `autowithlock` set to the locked flag, and `forced`. Keys are distinct. |
| `Auth.RegisterDeviceFormFields` | src/auth/mod.rs:181-199 | Device registration sends the base fields, then `passcode` and `permanent`. Keys are distinct. |
| `Auth.PcAccountLogin` | src/auth/mod.rs:112-128 | For a device without a model, account login without force sends exactly `email`, `password`, `device_uuid`, `device_name`, `forced=false`. |
| `Auth.TalkAuthClient.Login` | src/auth/mod.rs:106-151 | The request goes to `{agent}/account/login.json` with the authentication headers and the form for the login method. The e-mail in the form is the e-mail hashed into X-VC, together with the User-Agent header's value. |
| `Auth.TalkAuthClient.RequestPasscode` | src/auth/mod.rs:158-168 | The request goes to `{agent}/account/request_passcode.json` and its form is exactly the base fields. The form's e-mail is the one hashed into X-VC. |
| `Auth.TalkAuthClient.RegisterDevice` | src/auth/mod.rs:175-199 | The request goes to `{agent}/account/register_device.json` with the base fields, `passcode` and `permanent`. The form's e-mail is the one hashed into X-VC. |

## Left out

- Sending and the response: `Client::new`, `.send().await` and `response.json().await` are network I/O and asynchronous suspension. The `TalkStatusResponse`/`LoginData` decoding, the status table in `src/auth/status.rs` and `ApiRequestError` are left out for the same reason.
- URL parsing and joining (`ApiURL::new`, `Url::join`) belong to the `url` crate. The base URL is modelled as a scheme and an optional host. A request holds only the relative path `{agent}/{endpoint}`. `DefaultUrl` is what parsing `https://katalk.kakao.com` yields.
- The SHA-512 compression function. The digest function is a parameter with 64-byte results, so nothing is claimed about any particular digest value or about collisions.
- Xvc.Win32PreimageInjective: changing an operand is proved to change the bytes fed to SHA-512, not the digest, because the digest function is a parameter.
- Xvc.AndroidSubPreimageInjective: as above, injectivity stops at the bytes fed to SHA-512.
- `TalkApiAgent::get_user_agent` and `agent()`: their module is not part of this model, so they are data of the agent value.
- Percent-encoding of the form body by `serde_urlencoded`. The model stops at the ordered key/value list.
- What `reqwest` does on top of the headers appended here. Its `.form()` also inserts `Content-Type: application/x-www-form-urlencoded`. A header value with characters it rejects makes `send` fail.
- The `Cow` borrowed/owned distinction and lifetimes (`new` versus `new_const`), and the `Debug`/`Clone` derives.
- The open `XVCHasher` trait: the model's hasher set is closed to the two strategies of `src/auth/xvc/default.rs`.
- The `client: Client` field of `TalkAuthClient`, which only serves sending.
