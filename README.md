# Authentication API: registration, login and profile-photo validation

The service is a small FastAPI front end to Firebase Authentication and Firebase
Storage. This project models the decisions it makes itself:

- `register_user` (app/auth_service.py) looks the email up in the identity
  provider. A known email is refused with 400 "Email already registered" and
  nothing is created. A new email leads to `create_user`, which answers
  201 `{error: false, message: "User Created"}`. Any other provider error
  becomes a 500 whose message is the error's text. The outer handler raises
  the duplicate-email 400 again unchanged; it never turns it into a 500.
- `login_user` looks the email up and answers 200 with `userId = "user-" +
  uid[:10]`, the display name (`""` when the record has none) and a custom
  token. An unknown email is a 404 "User not found"; other errors are 500.
  The password is never passed to the provider, so it cannot change the outcome.
- `upload_profile_photo` (app/storage.py) rejects content over 1,048,576
  bytes, then rejects a file whose `os.path.splitext` extension, lower-cased,
  is not `.jpg` or `.png`, and otherwise stores the content under
  `profile_photos/<uuid><ext>`.

Files:

- `schemas.dfy` (module `Schemas`): the request and response records of
  app/schemas.py, an HTTPException, and `Reply`. A `Reply` is either a body with
  the route's success status (201 for register, 200 for login, as app/auth.py
  declares them) or a raised HTTPException.
- `pylib.dfy` (module `PyLib`): the Python library operations the code relies
  on. These are `str.rfind`, `str.lower`, the slice `s[:n]` and
  `posixpath.splitext` as CPython's `genericpath._splitext` computes it.
  `ExtensionAt` is an independent description of "the extension" (the last
  dot, after the last '/', with a character other than '.' before it in the
  final path component). `ExtMatchesReference` proves `Ext` agrees with it.
- `auth_service.dfy` (module `AuthService`): the provider's user directory is a
  `map` from email to `UserRecord(uid, displayName)`. `Register` and
  `LoginUser` are the two operations as functions of the directory. The class
  `AuthService` holds the directory and updates it in place with
  `RegisterUser`. Whatever the provider decides for itself is a parameter:
  - `lookupFault` is an error of `get_user_by_email` other than "user not found";
  - `creation` is how `create_user` ends (the new uid, or an error text);
  - `minting` is how `create_custom_token` ends (the token, or an error text).
- `storage.dfy` (module `Storage`): `UploadProfilePhoto` takes the generated
  UUID as the parameter `id`. It returns either the ValueError message or the
  upload it would issue (key, content, content type).

Behaviour of the code worth knowing:

- Login does not verify the password. An unknown email gets 404. The token is
  an admin-minted custom token.
- Registration takes no photo. `upload_profile_photo` is not called by any
  route.
- FastAPI sends an HTTPException's envelope nested under a `detail` key, not at
  the top level of the body.

Two further observations:

- app/storage.py:6 and main.py:3 import `FirebaseInit`, which app/firebase.py
  does not define. As written, the application cannot start.
- The uid-derived `userId` is shorter than 15 characters when the uid has fewer
  than 10 characters. `AuthService.UserId` states this.

## Model

| member | source | states |
|---|---|---|
| `AuthService.GetUserByEmail` | app/auth_service.py:14-24 | the lookup finds the record exactly when the email is in the directory and the provider does not fail; "user not found" exactly when the email is absent and no fault occurs; otherwise the provider's error |
| `AuthService.RegisterErrorHandler` | app/auth_service.py:37-47 | an HTTPException (the duplicate-email 400) is re-raised unchanged; any other error becomes a 500 whose envelope has `error: true` and the error's text as message |
| `AuthService.Register` | app/auth_service.py:12-47 | known email: 400 "Email already registered" and the directory unchanged; success iff the email is new and both provider calls succeed, then 201 "User Created" and exactly one new record (the new uid, display name = name) with every other entry unchanged; every failure leaves the directory unchanged with `error: true`; lookup or create errors give 500 with the error text |
| `AuthService.AuthService.RegisterUser` | app/auth_service.py:12-47 | the in-place registration: its reply and the new directory are those of `Register` on the old directory; a known email leaves the directory untouched |
| `AuthService.UserId` | app/auth_service.py:57 | the user id is "user-" followed by the first min(10, \|uid\|) characters of the uid, so its length is 5 + min(10, \|uid\|); for uids shorter than 10 it is "user-" + the whole uid |
| `AuthService.LoginUser` | app/auth_service.py:49-84 | success iff the email is known and both provider calls succeed, then 200 with `error: false`, message "success", the derived user id, the display name or "" when absent, and the minted token; an unknown email gives 404 "User not found"; a lookup or mint error gives 500 with its text |
| `AuthService.RegisterTwiceIsDuplicate` | app/auth_service.py:15-35 | after a successful register, a second register with the same email gets the duplicate-email 400 and the directory stays as it was |
| `AuthService.RegisterThenLogin` | app/auth_service.py:26-66 | after registering a new email, login with it (any password) returns the new uid's user id and the registered name |
| `AuthService.LoginIgnoresPassword` | app/auth_service.py:50-66 | two logins that differ only in the password have the same outcome |
| `PyLib.Head` | app/auth_service.py:57 | the slice `s[:n]` is the prefix of `s` of length min(n, \|s\|) |
| `PyLib.RFind` | app/storage.py:18 | `rfind` gives -1 or an index holding the character, and no later index holds it |
| `PyLib.Lower` | app/storage.py:18 | `lower()` keeps the length, turns each ASCII letter `A`..`Z` into its lower-case letter and keeps every other character |
| `PyLib.SplitExt` | app/storage.py:18 | root + ext is the whole path; ext is empty or starts with '.', and contains no further '.' or '/' |
| `PyLib.ExtMatchesReference` | app/storage.py:18 | the extension is non-empty exactly when some dot qualifies under `ExtensionAt`, and then it is the suffix from that dot |
| `Storage.UploadProfilePhoto` | app/storage.py:14-22 | an upload happens iff the content is at most 1,048,576 bytes and the lower-cased extension is ".jpg" or ".png"; oversize is reported first with the size message; a bad extension gets the extension message; an upload carries the content and content type unchanged under the key "profile_photos/" + id + extension, which starts with "profile_photos/" and ends with ".jpg" or ".png" |
| `Storage.AcceptedExtension` | app/storage.py:18-20 | the extension check passes exactly when the filename has an extension that is ".jpg" or ".png" in any mix of upper and lower case |
| `Storage.SizeLimitInclusive` | app/storage.py:15-16 | content of exactly 1,048,576 bytes passes the size check |
| `Storage.ExampleUpperCaseAccepted` | app/storage.py:18-22 | "me.JPG" is accepted and stored under "profile_photos/u1.jpg" |
| `Storage.ExampleLastDot` | app/storage.py:18-22 | in "a.b.PNG" only the last dot counts; the key ends ".png" |
| `Storage.ExampleJpegRejected` | app/storage.py:18-20 | ".jpeg" is refused with the extension message |
| `Storage.ExampleNoExtensionRejected` | app/storage.py:18-20 | "photo" and ".png" have no extension and are refused |

## Left out

- Firebase SDK internals: password hashing, how `create_user` validates its
  arguments, how the new uid is chosen, and custom-token signing. The uid and
  token are parameters, and so is any error the SDK raises (as its text).
  The password is not stored in the modelled directory.
- The SDK's own uniqueness enforcement in `create_user`. The directory is keyed
  by email, so an email has at most one record.
- Email matching: the directory compares emails as exact strings, while
  Firebase Authentication matches them without regard to case, so the model
  treats `A@x.com` as new after `a@x.com` is registered.
- `uuid.uuid4()` is a parameter. Its randomness and uniqueness are not modelled.
- `await file.read()`, `blob.upload_from_string`, `make_public` and
  `public_url` (app/storage.py:14, 24-29) are external storage I/O. The model
  ends with the upload that would be issued; the returned public URL is not
  modelled.
- app/firebase.py (environment loading, service-key lookup, SDK
  initialisation, the module-global client) and main.py (application bootstrap,
  health and warm-up endpoints) are process set-up and I/O.
- app/auth.py contributes only the success statuses 201 and 200, which are
  folded into `Reply`. Request-body parsing by FastAPI/pydantic is not modelled.
- Logging calls.
- `PyLib.Lower`: only ASCII letters are lower-cased, while Python's
  `str.lower` covers all of Unicode. No other character lower-cases to
  'j', 'p', 'g' or 'n', so the accept/reject decision and the accepted key are
  the same as Python's.
- `PyLib.SplitExt`: models the POSIX path rules (separator '/' only), not
  Windows paths with '\\' separators and drive letters.
- A `None` filename (which would make `splitext` raise) is not modelled; the
  filename is a string.
