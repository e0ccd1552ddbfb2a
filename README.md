# Ship catalogue — a Dafny model

The repository is a small catalogue of historical ships: a FastAPI backend
that keeps ship records in memory behind a bearer-token check and a
per-client rate limiter, and a React frontend that lists, searches,
creates, edits and deletes them. This project models the logic of both
sides and proves what each piece promises.

- `ship_store.dfy` (module `ShipStore`): the backend's `ships_db`
  dictionary as the class `ShipStore`, with the keys in insertion order
  (Python dictionaries iterate that way). `create_ship`, `read_ship`,
  `update_ship` and `delete_ship` are methods with their 400 and 404
  errors. `search_ships` is a loop proved equal to an order-preserving
  filter of the listing.
- `rate_limit.dfy` (module `RateLimit`): the counter logic of
  `rate_limit_middleware` as the class `RateLimiter`. A replay function
  over a run of request times shows that one window lets through at most
  `RATE_LIMIT` requests.
- `oauth.dfy` (module `OAuthValidator`): `get_current_user` and its
  helpers as pure functions. These cover the base64url padding, splitting
  the JWS Compact Serialization (section 7.1 of RFC 7515), the JWS Signing
  Input (section 5.2 of RFC 7515), the JWK search with big-endian `n`/`e`
  (section 6.3.1 of RFC 7518) and the claim checks. Python's exceptions are
  modelled as values. `ValueError` and `KeyError` become 401; a
  `TypeError` or `AttributeError` escapes as a server error.
- `ship_form.dfy` (module `ShipFormComponent`): the frontend ship object
  and the `ShipForm` component's `formData` with its handlers.
- `app.dfy` (module `AppComponent`): the `App` component's state
  (`ships`, `searchTerm`, `editingShip`, `isCreating`, `notification`,
  `isLoading`, `error`) as a class. Each handler is one atomic step that
  takes the outcome of its `fetch` as an argument. The list updates and
  `filteredShips` are pure functions with lemmas.
- `wrappers.dfy`, `text.dfy`, `seqs.dfy`: Option/Result, ASCII
  lower-casing with substring search, and an order-preserving `Filter`
  with its lemmas.

Behaviour of the code worth knowing when reading the model:
- After a failed initial load, `App` stores the message in `error` but never
  renders it. It also sets `isLoading` and never reads it.
- Ids are generated on the client as uuids. The backend refuses an id it
  already holds with 400.
- An update on the frontend replaces every ship whose id equals the edited
  ship's id. The backend stores the body under the path id even when the
  body's own id differs. `UpdateShip` states that this breaks "stored under
  its own id" exactly in that case.
- A token is still accepted in the second its `exp` claim names (`<`, not
  `<=`, at backend/oauth_validator.py:106).

## Model

| member | source | states |
|---|---|---|
| `ShipStore.ShipStore.CreateShip` | backend/main.py:100-107 | an existing id is refused with 400 and nothing changes; otherwise the ship is stored under its id, last in iteration order, the size grows by one, and "stored under its own id" is preserved |
| `ShipStore.ShipStore.ReadShip` | backend/main.py:109-114 | the stored ship for a present id, 404 for an absent one; the store is not modified |
| `ShipStore.ShipStore.UpdateShip` | backend/main.py:116-122 | 404 and no change for an absent id; otherwise the entry becomes the body, keys and order unchanged; ids stay consistent iff the body's id equals the path id |
| `ShipStore.ShipStore.DeleteShip` | backend/main.py:124-130 | 404 and no change for an absent id; otherwise exactly that key is removed, the size drops by one, every other entry is untouched |
| `ShipStore.ShipStore.SearchShips` | backend/main.py:132-146 | the result is the ships in iteration order, keeping those that match every given parameter |
| `ShipStore.SearchResults` | backend/main.py:140-145 | a ship is in the search result iff it is stored and every given parameter occurs in its field ignoring case; the result keeps iteration order; with no parameters every ship is returned |
| `ShipStore.ShipStore.constructor` | backend/main.py:34-35 | the store starts empty |
| `RateLimit.RateLimiter.Admit` | backend/main.py:75-93 | an expired window restarts at count 1 with reset time `now + RATE_LIMIT_PERIOD`, otherwise the count goes up by one, rejected or not; the request passes iff the new count is at most `RATE_LIMIT`; other clients' entries are unchanged |
| `RateLimit.RateLimiter.constructor` | backend/main.py:67-73 | no client has been seen; limit and period are the configured ones |
| `RateLimit.Charge` | backend/main.py:80-84 | one request: a window whose reset time has passed restarts at count 0 with reset time `now + period`, then the count goes up by one |
| `RateLimit.ReplayWithinWindow` | backend/main.py:80-90 | while no request passes the reset time, the reset time stays, the count grows by the number of requests, and the number that pass is the room left under the limit |
| `RateLimit.RequestPassesIff` | backend/main.py:84-92 | within a window, request `j` passes iff the count it brings the window to, `count + j + 1`, is at most `RATE_LIMIT` |
| `RateLimit.AtMostLimitPerWindow` | backend/main.py:80-92 | a window opened by a request lets through `min(n, RATE_LIMIT)` of its `n` requests, so at most `RATE_LIMIT` reach `call_next` |
| `OAuthValidator.B64Decode` | backend/oauth_validator.py:39-43 | `base64url_decode`: pads the text, then decodes it; a decoding error is a `ValueError` |
| `OAuthValidator.Pad` | backend/oauth_validator.py:39-42 | the padded length is the least multiple of four not below the input's, the input is a prefix, the rest is `=` |
| `OAuthValidator.Split` | backend/oauth_validator.py:57 | one more piece than separators; no piece contains the separator |
| `OAuthValidator.JoinSplit` | backend/oauth_validator.py:57 | joining the pieces of a split gives the string back |
| `OAuthValidator.SplitJoin` | backend/oauth_validator.py:57 | splitting a join of separator-free pieces gives the pieces back |
| `OAuthValidator.DecodeJwt` | backend/oauth_validator.py:55-65 | `decode_jwt`: three '.'-separated segments (else `ValueError`); the first two decoded and parsed as JSON, the third decoded as the signature |
| `OAuthValidator.SegmentCount` | backend/oauth_validator.py:55-59 | a token without exactly two dots is refused with `ValueError`; a decoded token has three segments |
| `OAuthValidator.VerifySignature` | backend/oauth_validator.py:67-80 | `verify_signature`: `ValueError` unless three segments; otherwise the signature check over header "." payload, with an undecodable signature counting as a bad one |
| `OAuthValidator.SigningInputIsTokenPrefix` | backend/oauth_validator.py:67-69 | the signed message is the token up to its last dot: token = header "." payload "." signature |
| `OAuthValidator.SegmentsOfSignedToken` | backend/oauth_validator.py:67-69 | a signing input followed by "." and a signature splits back into its three segments |
| `OAuthValidator.BigEndian` | backend/oauth_validator.py:50-51 | the integer read from k bytes is below 256^k |
| `OAuthValidator.BigEndianIsWeighted` | backend/oauth_validator.py:50-51 | the value is the sum of the bytes weighted from the most significant (first) byte |
| `OAuthValidator.LeadingZero` | backend/oauth_validator.py:50-51 | a leading zero byte does not change the value |
| `OAuthValidator.KeyFromJwk` | backend/oauth_validator.py:50-52 | the RSA key of one JWK: `n` and `e` decoded and read big-endian; a missing field is a `KeyError`, a non-string one a `TypeError`, a key the constructor refuses a `ValueError` |
| `OAuthValidator.FindKey` | backend/oauth_validator.py:47-53 | the loop over `keys`: the key of the first JWK with equal `kid` and `kty == "RSA"`; an error reading `kid` (or `kty` on a match) stops the loop; none found is `ValueError` |
| `OAuthValidator.GetPublicKey` | backend/oauth_validator.py:45-53 | `get_public_key`: `keys` read from the cached JWK Set (`KeyError` if missing); a list is searched; an empty dictionary or string ends with `ValueError`, a non-empty one or any other value fails with `TypeError` |
| `OAuthValidator.FindKeyFirstMatch` | backend/oauth_validator.py:45-53 | the key comes from the first JWK whose `kid` matches and whose `kty` is `RSA`; a matching `kid` with another `kty` is skipped |
| `OAuthValidator.FindKeyNone` | backend/oauth_validator.py:45-53 | when every JWK is an object with a `kid` and none has both the equal `kid` and `kty == "RSA"`, the search raises `ValueError` (a JWK without `kid` would raise `KeyError` instead) |
| `OAuthValidator.FindKeyFound` | backend/oauth_validator.py:45-53 | a key is only returned from the first qualifying JWK |
| `OAuthValidator.CheckClaims` | backend/oauth_validator.py:101-113 | the claim checks in source order: `iss`, `aud`, `exp` (missing is 0), `nbf` (missing is 0), `sub` present; a non-number `exp` or `nbf` is a `TypeError`, a payload that is not an object an `AttributeError` |
| `OAuthValidator.ValidateToken` | backend/oauth_validator.py:88-113 | the body of the `try`: decode, `alg` check, key lookup by `kid`, signature check, claim checks, in that order, the first failure winning |
| `OAuthValidator.GetCurrentUser` | backend/oauth_validator.py:82-116 | a user is returned iff validation succeeds, and it is the validated `sub`; 401 iff validation failed with a failed check, `ValueError` or `KeyError` |
| `OAuthValidator.ClaimsIff` | backend/oauth_validator.py:101-113 | the claim checks pass with `user` iff `iss` and `aud` equal the settings, `exp` is at or after now, `nbf` at or before now (missing ones count as 0) and `sub` is present |
| `OAuthValidator.AcceptedIffAllChecksPass` | backend/oauth_validator.py:88-115 | a user is returned iff three segments decode, `alg` matches, a key is found for `kid`, the signature verifies over header "." payload, and the claims hold |
| `OAuthValidator.ExpiryIsInclusive` | backend/oauth_validator.py:106-107 | `exp == now` is accepted like a later expiry; `exp == now - 1` is refused with 401 |
| `OAuthValidator.MissingExpiryRejected` | backend/oauth_validator.py:106-107 | a payload without `exp` is refused with 401 whenever now > 0 |
| `OAuthValidator.MissingNotBeforeAccepted` | backend/oauth_validator.py:108-109 | for `now >= 0`, a payload without `nbf` behaves as one with `nbf == now` |
| `OAuthValidator.ArrayAudienceRejected` | backend/oauth_validator.py:104-105 | an array-valued `aud` is refused with 401 |
| `Text.Lower` | backend/main.py:142-144 | `lower()` / `toLowerCase()` on ASCII: every upper-case letter mapped to its lower case, one character at a time |
| `Text.LowerSpec` | backend/main.py:142-144 | lower-casing maps each character on its own and leaves no upper-case letter |
| `Text.Contains` | backend/main.py:142-144 | `needle in hay` / `includes`: the needle is a prefix of the haystack or of one of its suffixes |
| `Text.ContainsIff` | backend/main.py:142-144 | `needle in hay` holds iff the needle occurs at some position of the haystack |
| `Text.ContainsEmpty` | frontend/src/App.jsx:131-135 | the empty string occurs in every string |
| `Seqs.Filter` | frontend/src/App.jsx:124 | filtering keeps exactly the elements that pass, and is no longer than its input |
| `Seqs.FilterIsSubsequence` | frontend/src/App.jsx:124 | filtering keeps the relative order of what it keeps |
| `AppComponent.ReplaceById` | frontend/src/App.jsx:79 | same length; every ship with the edited id is replaced by the response, every other ship is unchanged |
| `AppComponent.ReplaceUnique` | frontend/src/App.jsx:79 | with unique ids the update changes exactly the one ship with that id; ids stay unique when the response carries that same id |
| `AppComponent.RemoveById` | frontend/src/App.jsx:124 | `ships.filter(ship => ship.id !== id)` |
| `AppComponent.RemoveByIdSpec` | frontend/src/App.jsx:124 | no ship with the id remains, every other ship stays in order, an absent id changes nothing |
| `AppComponent.RemovePresentId` | frontend/src/App.jsx:124 | with unique ids, deleting a present id shortens the list by exactly one |
| `AppComponent.RemoveKeepsUnique` | frontend/src/App.jsx:124 | deleting keeps ids unique |
| `AppComponent.WithId` | frontend/src/App.jsx:83-86 | the create request carries the generated id and otherwise the form data unchanged |
| `AppComponent.FilterShips` | frontend/src/App.jsx:131-135 | `filteredShips`: the ships whose name, type or country contains the search term, ignoring case |
| `AppComponent.FilterShipsSpec` | frontend/src/App.jsx:131-135 | a ship is shown iff the term occurs, ignoring case, in its name, type or country; order is kept; an empty term shows all |
| `AppComponent.AbsentLetterShowsNothing` | frontend/src/App.jsx:131-135 | a term with a character that, lower-cased, appears in no ship's lower-cased name, type or country shows nothing |
| `AppComponent.SearchFindsVictory` | frontend/src/App.jsx:131-135 | a catalogue holding Victory (Frigate, UK) shows it when searched for "vict" |
| `AppComponent.SearchXyzShowsNothing` | frontend/src/App.jsx:131-135 | the same catalogue searched for "xyz" shows nothing |
| `AppComponent.App.constructor` | frontend/src/App.jsx:15-21 | empty list, empty search, no form, no notification, loading |
| `AppComponent.App.FetchShips` | frontend/src/App.jsx:35-57 | success replaces the list; failure keeps it and records "Failed to fetch ships" or the thrown message in `error`; loading ends |
| `AppComponent.App.HandleSubmit` | frontend/src/App.jsx:62-109 | PUT to the edited id or POST with the uuid; on success replace-by-id or append; on failure the list is unchanged and the notification is "Error: " + message; the form closes either way |
| `AppComponent.App.HandleDelete` | frontend/src/App.jsx:111-129 | DELETE of the id; on success every ship with the id is removed; on failure the list is unchanged and the notification is "Error: " + message |
| `AppComponent.App.HandleEdit` | frontend/src/App.jsx:137-140 | the form is shown on the edited ship, not in create mode |
| `AppComponent.App.HandleAdd` | frontend/src/App.jsx:204 | the form is shown blank in create mode |
| `AppComponent.App.HandleCancel` | frontend/src/App.jsx:220 | the form is closed |
| `AppComponent.App.HandleSearch` | frontend/src/App.jsx:197 | the search term is the typed text and nothing else changes |
| `ShipFormComponent.InitialFormData` | frontend/src/components/ShipForm.jsx:6-13 | the given ship, or a record without id whose five inputs are empty and whose events are `['']` |
| `ShipFormComponent.SetField` | frontend/src/components/ShipForm.jsx:15-18 | the named input holds the new text; every other input, the id and the events are unchanged |
| `ShipFormComponent.DropIndex` | frontend/src/components/ShipForm.jsx:85-88 | for a valid index exactly that event is dropped and the rest keep their order; otherwise nothing changes |
| `ShipFormComponent.ShipForm.constructor` | frontend/src/components/ShipForm.jsx:6-13 | `formData` starts as the initial record |
| `ShipFormComponent.ShipForm.HandleChange` | frontend/src/components/ShipForm.jsx:15-18 | `formData` becomes the record with the named input set |
| `ShipFormComponent.ShipForm.HandleEventChange` | frontend/src/components/ShipForm.jsx:20-24 | the event at the index is replaced through a copied array; length and other events unchanged |
| `ShipFormComponent.ShipForm.RemoveEvent` | frontend/src/components/ShipForm.jsx:85-88 | the events lose exactly the one at the index |
| `ShipFormComponent.ShipForm.AddEvent` | frontend/src/components/ShipForm.jsx:97-100 | one empty event is appended; existing events unchanged |
| `ShipFormComponent.ShipForm.HandleSubmit` | frontend/src/components/ShipForm.jsx:26-29 | `onSubmit` receives the current `formData` unchanged |

## Left out

- Network I/O is not modelled. That covers `fetch` in `App`, `httpx` and
  the `TTLCache` expiry in `get_jwks`. Each `fetch` outcome is an argument,
  and the JWK Set is the cached value passed in.
- FastAPI routing, dependency injection, Pydantic coercion (for example
  `launch_year` from a string), CORS, logging and `.env` loading are not
  modelled. The handlers are modelled after authentication and rate
  limiting have let the request through.
- The startup load of `sample_ships.json` is file I/O.
- Library calls are arguments of `OAuthValidator.Env` and are not
  modelled: the base64 alphabet decoding, `json.loads`, the RSA key
  constructor's checks and the PKCS#1 v1.5 / SHA-256 signature check.
- Time: the limiter's `time.time()` is a float; here `now` is an integer.
  The JWT checks' `int(time.time())` is an integer argument too.
- `Text.Lower` covers ASCII letters only. Python's `lower()` and
  JavaScript's `toLowerCase()` follow Unicode case mapping.
- JSON numbers are integers, so floating-point claims are not modelled.
  Python `==` is modelled between numbers and booleans at the top level
  only. Inside arrays and objects the model uses structural equality
  (Python holds `[True] == [1]`).
- Iterating a JWK Set `keys` value that is a non-empty dictionary or string
  is modelled as a `TypeError` on the first `key['kid']`. That is what Python
  does, but not through the model of iteration.
- `OAuthValidator.FindKeyNone`: covers only JWK Sets whose entries are all
  objects with a `kid`. For other entries `FindKey` itself gives the
  `KeyError` or `TypeError` that the first bad entry raises.
- `ShipFormComponent.ShipForm.HandleEventChange`: requires an index within
  the events. The component only passes indexes of rendered events. JavaScript
  would extend the array for a larger index.
- The Descope authentication SDK and the login and loading gates are not
  modelled. That includes `useSession`, `useUser`, `getSessionToken`,
  `logout` and the sign-in widget.
- The `setTimeout` that clears a notification after 3 seconds is timer
  behaviour.
- Concurrent in-flight requests and stale closures over `ships` are not
  modelled; every handler is one atomic step.
- React keeps a mounted `ShipForm`'s state across re-renders. Choosing Edit
  on another ship while the form is open therefore keeps the first ship's
  data. `App` and `ShipForm` are modelled as separate state machines, so
  this is not captured.
- `uuidv4()` is called on every render; the uuid is an argument of
  `HandleSubmit`.
- Rendering is not modelled: `ShipCard.jsx`, `alert.jsx`, `main.jsx` and
  the JSX markup.
