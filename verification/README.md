# TTSApp: user store and request decisions, modelled in Dafny

This project models the two pieces of the text-to-speech web application
that hold decisions of their own.

- **The user-record store** (`auth.py`). It is a dictionary from string
  user IDs to records with `username`, `password_hash`, `email` and
  `is_azure_ad`. The model keeps the dictionary's insertion order, because
  the scans return the first match in that order. `Auth.UserStore` holds
  the dictionary as a `map` plus a key order. Its methods are the module's
  operations: `get_user_by_username`, `create_user`,
  `create_azure_ad_user` and `init_demo_user`. `get_user` is a function
  that reads the store, and `User.check_password` is a function on users.
- **The request decisions** (`app.py`). `App.GenerateSpeech` and
  `App.DownloadFile` map a request to a response and a status.
  `App.HttpResponse.AddSecurityHeaders` updates a response's header map
  in place.

The new user ID is `str(len(users) + 1)`, and nothing checks that it is
free. The model states the dense-key invariant: the keys are exactly
`"1"` .. `"n"`. It proves that the empty store has this invariant and that
both creation operations keep it. While it holds, the new ID is fresh and
the store grows by one. `Auth.NewIdCanOverwrite` shows what happens
without it: with the single key `"2"`, the next ID is `"2"` again and the
existing record is overwritten. The lemma
`Auth.AzureRecordCanDuplicateUsername` shows that federated creation does
not check usernames. `Auth.NoEmailMatchesLocalRecord` shows that an
e-mail of `None` matches every local record, because those records have
no e-mail.

## Model

| member | source | states |
|---|---|---|
| `Auth.NatToString` | auth.py:93 | `str(n)`: at least one character, all of them decimal digits |
| `Auth.ParseNatToString` | auth.py:93 | reading the decimal text of `n` back gives `n` |
| `Auth.NatToStringInjective` | auth.py:93 | different counts give different ID strings |
| `Auth.KeyRangeExcludes` | auth.py:93 | `str(m)` is not among the keys `"1"`..`"n"` when `m > n` |
| `Auth.EmptyIsDense` | auth.py:36 | the empty store saved on first use is well formed and dense |
| `Auth.LocalRecord` | auth.py:96-99 | the local record has the username and the hash, no e-mail (so it matches an e-mail of `None`) and no federated flag (so its user is not federated) |
| `Auth.AzureRecord` | auth.py:122-126 | the federated record has the username and the e-mail; its user is federated and has no password hash |
| `Auth.NewId` | auth.py:93 | the chosen ID reads back as `len(users) + 1`; when the keys are `"1"`..`"n"` it is not yet a key |
| `Auth.Put` | auth.py:96 | storing sets the record under the key; the existing keys keep their places in the order; a new key is appended at the end |
| `Auth.ToUser` | auth.py:60-66 | the user has the record's fields; `is_azure_ad` is False when the record lacks it |
| `Auth.UserStore.constructor` | auth.py:41-48 | the store starts as the loaded dictionary |
| `Auth.UserStore.GetUser` | auth.py:55-67 | `None` exactly when the ID is absent; otherwise the record as a user, with `is_azure_ad` defaulting to False |
| `Auth.FirstKey` | auth.py:72-73 | a key the scan returns is in the store and its record matches |
| `Auth.FirstKeyAt` | auth.py:72-80 | the first matching key in insertion order is the one returned |
| `Auth.FirstKeyNone` | auth.py:72-81 | the scan returns nothing exactly when no record matches |
| `Auth.FindUser` | auth.py:72-81 | the scan gives `None` exactly when no key is found; a found user is built from a stored, matching record under its own ID |
| `Auth.FindUserByUsername` | auth.py:69-81 | the lookup fails exactly when no record has the username; a found user has it and its ID is in the store |
| `Auth.UserStore.GetUserByUsername` | auth.py:69-81 | the loop returns the first record in insertion order with the username, or `None` when there is none |
| `Auth.PutWellFormed` | auth.py:96 | storing under a key keeps the key order consistent with the dictionary |
| `Auth.PutFrame` | auth.py:96-99 | storing under a key sets that record; every other key and record is unchanged; the size grows by one only for a new key |
| `Auth.NewIdFreshWhenDense` | auth.py:93-96 | with keys `"1"`..`"n"`, the key `str(n+1)` is fresh; the store grows by one and keeps keys `"1"`..`"n+1"` |
| `Auth.NewIdCanOverwrite` | auth.py:121-122 | with keys other than `"1"`..`"n"`, the chosen key can already be in use and the old record is lost |
| `Auth.StoredUsernameIsFound` | auth.py:69-80 | after storing a record whose username nobody had, the lookup by that username finds it |
| `Auth.StoreFreshUsernameKeepsUnique` | auth.py:88-99 | storing a username nobody has keeps usernames unique |
| `Auth.CreateUserEffect` | auth.py:88-101 | a successful local creation keeps the store well formed, makes the user findable, keeps usernames unique and keeps keys dense |
| `Auth.UserStore.CreateUser` | auth.py:83-102 | a taken username gives "Username already exists" and leaves the store unchanged; otherwise a local record is stored under `str(len(users)+1)` and returned as a user; lookup, uniqueness and dense keys hold afterwards |
| `Auth.StoreNewIdEffect` | auth.py:121-128 | storing under `str(len(users)+1)` keeps the store well formed and keeps dense keys dense |
| `Auth.UserStore.CreateAzureAdUser` | auth.py:104-129 | the first record with the e-mail is returned as a federated user without saving; otherwise a federated record is stored under `str(len(users)+1)`; the user never has a password hash; dense keys are kept |
| `Auth.AzureRecordCanDuplicateUsername` | auth.py:120-126 | federated creation can store a username that a local account already has |
| `Auth.NoEmailMatchesLocalRecord` | auth.py:109-110 | an e-mail of `None` matches a local record that has no e-mail |
| `Auth.UserStore.InitDemoUser` | auth.py:131-136 | an empty store gets the single user "demo" under ID `"1"`; a non-empty store is unchanged |
| `Auth.CheckPassword` | auth.py:25-29 | a federated user is always refused; otherwise the answer is the hash check's |
| `Auth.AzureUserNeverPasswordLogin` | auth.py:120-126 | a user stored by federated creation fails the password check for every password |
| `Auth.LocalUserPasswordCheck` | auth.py:96-102 | a user stored by local creation is checked against the hash it was created with |
| `App.Status` | app.py:77-84 | an error response carries its own status; a JSON success is 200, and a sent file is 200 for a plain request (range and conditional requests are not modelled) |
| `App.VoiceOf` | app.py:52 | the backend voice is "alloy" when the body has no voice, `None` when it is null, and the given string otherwise |
| `App.GenerateSpeech` | app.py:47-84 | the backend is called at most once, and only with a body, non-empty text and a client; success means the backend wrote the file, which is added to the directory |
| `App.NonObjectIs500` | app.py:50-51 | a body that is not a JSON object gives 500 with Python's "object has no attribute 'get'" message for its type, and no backend call |
| `App.MissingTextIs400` | app.py:51-55 | missing, null or empty text gives 400 "No text provided" and no backend call, whether or not a client is configured |
| `App.UnconfiguredIs503` | app.py:57-61 | text without a client gives 503 and no backend call |
| `App.BackendCallArguments` | app.py:51-72 | the backend is called once, with the deployment name, the text and the request's voice: "alloy" when the body has none, `None` when it is null |
| `App.SuccessNamesTheFile` | app.py:63-81 | on success the file is `<token>.mp3`, `audio_url` is `/static/audio/` plus it, and the status is 200 |
| `App.BackendErrorIs500` | app.py:83-84 | an exception from the backend or the file write gives 500 with its message, and no file is added |
| `App.StatusCases` | app.py:49-84 | 400, 503 and 200 each hold exactly under their conditions, in the handler's order; every other outcome is 500 |
| `App.DownloadFile` | app.py:86-95 | a file not in the directory gives 404 "File not found"; a present file is sent, or 500 with the send error |
| `App.GeneratedFileIsDownloadable` | app.py:63-93 | the file a successful generation names can then be downloaded |
| `App.HttpResponse.constructor` | app.py:15 | the response handed to the hook has the given status, body and headers |
| `App.SecurityHeaders` | app.py:16-19 | the hook sets four distinct headers |
| `App.WithSecurityHeaders` | app.py:15-20 | the four headers get their fixed values; every other header is kept with its value |
| `App.SetOneByOne` | app.py:16-19 | setting the headers one at a time gives the same map |
| `App.HttpResponse.AddSecurityHeaders` | app.py:15-20 | the response's headers become the old headers with the four set on top; status and body are untouched |
| `App.SecurityHeadersIdempotent` | app.py:14-20 | adding the headers twice is the same as adding them once |

## Left out

- JSON persistence (`init_users_storage`, `load_users`, `save_users`) is file I/O. The store's fields stand for the saved dictionary, and "saved" means "the fields were reassigned". The store starts from whatever the load returned. A failed load returns `{}`, and a creation after it then saves a dictionary that holds only the new user, under ID "1". That loss of every stored user is not modelled.
- Password hashing is an external library call. `CreateUser` receives the hash that `generate_password_hash` produced, because salted hashes are not a function of the password. `check_password_hash` is the `hashMatches` parameter of `CheckPassword`.
- Auth.CheckPassword: does not model werkzeug raising on a record with no hash and no federated flag. The modelled operations never create such a record.
- The `print` calls in `init_demo_user` and at start-up are console output.
- `UserMixin`, Flask-Login, Flask routing, `render_template`, `send_file` and the app configuration are framework glue.
- The speech client's set-up, `client.audio.speech.create` and `stream_to_file` are network and file I/O. They are the `backend` oracle: for one call, the file is written or an exception is raised with a message. A partial file left by a failed write is not modelled.
- `uuid.uuid4()` is the `token` parameter. Its uniqueness across requests is not modelled.
- Request bodies whose `text` or `voice` is a JSON value other than a string or null (a number, a list, an object) are not modelled. Absent, null and string fields are.
- A body that is not a JSON object gets status 500 with Python's message for its type. Flask versions whose `request.json` raises on a request that is not JSON give a different message there, but still status 500.
- App.Status: a sent file is given status 200. Flask's `send_file` answers range requests with 206 and matching conditional requests with 304. Request headers are not part of the model, so those answers are not modelled.
- Header names are compared exactly. The case-insensitive matching of Flask's header map is not modelled.
- App.HttpResponse.AddSecurityHeaders: headers are a map with one value per name. A header sent several times, such as several `Set-Cookie` lines, cannot be represented. The hook leaves such headers alone, but the model cannot show it.
- Every auth operation loads the file, changes the dictionary and saves it, without a lock. Two creations running at the same time can both pick `str(len(users)+1)`, and the later save drops the earlier record. The model runs operations one after another, so "the store grows by one" and the dense-key results hold only for calls that do not overlap.
- `download_file` resolves the name inside the audio directory. The model checks membership in the set of file names and does not model path resolution.
- The browser scripts (`static/*.js`) and the tests are not part of this model. The tests call `is_safe_url` and a `/login` route, which `app.py` does not define.
