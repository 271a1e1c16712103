# Appointment booking API — verified model

A Dafny model of a small appointment-booking web API. Users log in with a
username and password checked against a fixed user table and receive a
bearer token (subject = username, expiry = issue time + 30 minutes). Every
request resolves its token back to the user table's record, so the role is
always the live one. Any authenticated user may list the appointments; only
an admin may create, delete or update them. The appointments live in one
ordered in-memory list that allows duplicate ids: create appends, delete
removes every entry with the id, and update overwrites four fields of the
first entry with the id.

Files:

- `Wrappers.dfy` — `Option` and `Result`.
- `Auth.dfy` — the user table, HTTP errors (status code and detail message),
  tokens as claims plus a "signature verifies" flag, token issuance, token
  decoding, `GetCurrentUser`, `Login`, and the admin gate.
- `Appointments.dfy` — the `Appointment` record; the list operations as
  functions on sequences (`Without`, `FirstMatch`, `ApplyPatch`, `Updated`)
  with lemmas about them; the class `AppointmentApi` holding the user table
  and the list, whose four handler methods run the authentication and
  authorization chain and then change the list in place; and a method running
  the admin and user scenarios end to end.

Time is an integer number of seconds supplied by the caller. A token's
signature check is the boolean `signatureValid`. Decoding succeeds exactly
when the signature verifies and the current time is before the expiry, as
section 4.1.4 of RFC 7519 has it.

Behaviours of the code that a reader might not expect, which the model keeps:

- expiry and bad signatures are not told apart; both are the one 401 "Invalid token";
- an unknown subject is a 401 with detail "User not found";
- an empty subject is looked up in the table like any other and gets "User not found";
- duplicate ids are accepted on create;
- a zero `expires_delta` is false in Python, so it falls back to the
  30-minute default just like a missing one (`EffectiveTtl`);
- the token's subject is the stored record's `username` field, not the
  username typed at login. The two agree on a well-formed table (every record
  stored under its own name), and the fixed table is one (`FakeUsersDbWellFormed`).

## Model

| member | source | states |
|---|---|---|
| Auth.FakeUsersDbWellFormed | api.py:28-31 | the fixed table stores each record under its own username; "admin" has the admin role and "user" does not |
| Auth.FakeUsersLogin | api.py:28-31 | admin/admin123 and user/user123 log in; a wrong password or an unknown name is the 400 error |
| Auth.EffectiveTtl | api.py:35 | a missing or zero delta gives the 30-minute default, any other delta is used as given; the lifetime is never zero |
| Auth.CreateAccessToken | api.py:33-37 | the issued token is correctly signed, carries the given subject, and expires at issue time plus the delta, or plus 30 minutes when the delta is missing or zero |
| Auth.Decode | api.py:41 | decoding succeeds iff the signature verifies and the time is before the expiry, and then yields exactly the token's claims |
| Auth.GetCurrentUser | api.py:39-50 | succeeds iff the token decodes, has a subject and the subject is in the table; on success returns exactly the table's record (role included); every failure is 401, "Invalid token" for decode failures and a missing subject, "User not found" for an unknown subject |
| Auth.Login | api.py:54-60 | succeeds iff the username is in the table and the password equals the stored one; otherwise the 400 error and no token; on success a "bearer" token for the stored username expiring 30 minutes after now |
| Auth.RequireAdmin | api.py:68-69 | allows iff the role is "admin", otherwise the 403 "Not authorized" error |
| Auth.AdminGate | api.py:67-69 | a mutating handler proceeds iff the token authenticates to a user whose table role is admin; a refusal is 401 or 403, and 403 exactly when authentication succeeded but the role is not admin; a 401 refusal is exactly the authentication error and a 403 refusal is "Not authorized" |
| Auth.LoginThenAuthenticate | api.py:33-60 | on a well-formed table, the token from a successful login resolves to the user's stored record until 30 minutes after issue and to the 401 "Invalid token" from then on |
| Auth.ExpiryBoundary | api.py:33-41 | a token issued with nonzero lifetime T authenticates exactly at times before issue time + T |
| Auth.TamperedTokenRejected | api.py:41-50 | a token whose claims were changed without re-signing always gets the 401 "Invalid token" |
| Auth.RoleComesFromTable | api.py:45-48 | after the table changes the subject's role, an already-issued token resolves to the record with the new role, so the role is read from the live table and never from the token |
| Appointments.Without | api.py:78 | the kept entries are at most as many as before, none has the target id, and an entry is kept iff it was there and has another id |
| Appointments.FirstMatch | api.py:86 | finds the index of an entry with the id such that no earlier entry has it; finds nothing iff no entry has the id |
| Appointments.ApplyPatch | api.py:90-93 | the updated entry equals the body with the stored entry's id |
| Appointments.Updated | api.py:86-93 | the list keeps its length and every id; with no match it is unchanged; otherwise the first match becomes the body with the target id and every other entry, later duplicates included, is unchanged |
| Appointments.WithoutAppend | api.py:78 | deleting from a concatenation is the concatenation of the two deletions, so kept entries keep their relative order |
| Appointments.WithoutNoMatch | api.py:78 | deleting an id no entry has leaves the list as it was |
| Appointments.WithoutIdempotent | api.py:73-79 | deleting an id twice equals deleting it once |
| Appointments.WithoutAt | api.py:78 | a kept entry lands at the position given by the number of entries kept before it |
| Appointments.WithoutPrefixGrows | api.py:78 | a kept entry at position i makes every longer prefix keep more entries than the prefix before i |
| Appointments.WithoutKeepsOrder | api.py:78 | two kept entries at positions i < j appear in the result at positions i' < j' |
| Appointments.CreateThenDelete | api.py:70-78 | deleting the id of an appointment just appended gives the list as deleting it before the append |
| Appointments.DeleteThenUpdateNotFound | api.py:78-88 | after a delete of an id, an update of that id finds no entry (the 404 case) |
| Appointments.UpdatedFirstMatch | api.py:86-93 | an update leaves the first match of the id where it was |
| Appointments.UpdatedIdempotent | api.py:86-93 | updating twice with the same body equals updating once |
| Appointments.UpdateThenDelete | api.py:78-93 | deleting an id after updating it gives the same list as deleting it without the update |
| Appointments.AppointmentApi.constructor | api.py:14 | the list starts empty, under the given user table |
| Appointments.AppointmentApi.GetAppointments | api.py:62-64 | succeeds iff the token authenticates, returning the whole list in order; otherwise the authentication error |
| Appointments.AppointmentApi.CreateAppointment | api.py:66-71 | a refused request returns the gate's 401/403 and leaves the list unchanged; an admin's appends exactly the appointment at the end and returns it |
| Appointments.AppointmentApi.DeleteAppointment | api.py:73-79 | a refused request returns the gate's error and changes nothing; an admin's leaves exactly the entries with another id, in order, and reports success even when nothing matched |
| Appointments.AppointmentApi.UpdateAppointment | api.py:81-95 | a refused request returns the gate's error and changes nothing; with no entry of the id it is the 404 error and changes nothing; otherwise only the first match is patched and it is returned |

## Left out

- JWT encoding, HS256 signing and verification (section 3.2 of RFC 7518) and the secret key: modelled only as the `signatureValid` flag and the expiry comparison in `Decode`; the token string format and cryptography are a foreign library call.
- Auth.Decode: takes "before the expiry" from RFC 7519; the exact tie-breaking of the decoding library at the expiry second is not modelled.
- The clock (`datetime.utcnow()`) and `datetime`/`timedelta`: time is an integer of seconds passed as a parameter, lifetimes are whole seconds, and an appointment's date is an opaque integer.
- Auth.CreateAccessToken: takes the subject rather than an arbitrary claims dictionary, since its one caller passes only `sub`.
- Auth.GetCurrentUser: a `sub` claim of a non-string type is not modelled; the subject is a string or absent.
- FastAPI routing, dependency injection, the OAuth2 bearer scheme, form parsing, pydantic validation and response serialisation: handlers take already-parsed values and return a `Result` whose error is the status code and detail.
- Aliasing: the handlers return Python references to the stored list and objects, which serialisation copies at once; the model returns values and updates the stored entry by replacing it at its index.
- The uvicorn server start-up: process I/O.
- Concurrent requests on the shared list: the code has no synchronisation, and the model runs one handler at a time.
