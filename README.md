# Pokédex trainer accounts and session slot, in Dafny

This project models the trainer account and session mechanism of a small
Pokédex web application (`main.py`, with the `Trainer` record of
`models.py`). It treats that mechanism as one sequential state machine. The
state is the trainer store and the single process-wide session slot, the
global `TOKEN`. Three handlers change that state:

- `register_trainer` allocates the next id as max-plus-one, refuses a taken
  username, and appends a record with the hashed password and an empty
  collection.
- `login_trainer` has two distinct failures. On success it mints a 30-minute
  token and overwrites the whole slot.
- `add_pokemon` acts for whoever holds the slot. It tests membership with a
  substring test on the trainer's comma-joined collection string, then does a
  comma-aware append.

Beside them sit the token helpers (`create_access_token`, with its 15-minute
default, and `decode_token`, which yields `None` on expiry) and the slot
readers (`get_username_from_token`, `token_admin_auth` and the admin gate of
the admin routes).

Files:

- `wrappers.dfy`: `Option` and `Result`. `Err` stands for a raised exception.
- `crypto.dfy`: bcrypt (`Passwords`) and JWT (`Jose`), kept abstract. `Hash`
  takes its random salt as a parameter. `Verify(p, Hash(p, s))` holds.
  `Decode` returns the claims while `now < exp`, raises `ExpiredSignature`
  from then on, and raises `InvalidToken` for a missing token.
- `models.dfy`: the `Trainer` record.
- `decimal.dfy`: `str(n)` for an int, and its inverse.
- `collection.dfy`: Python's `in` on strings, the comma-aware append, and the
  list of comma-separated entries that the string stands for.
- `pokedex.dfy`: the token helpers, the slot readers, the id allocation, the
  username lookup, and class `App` with fields `trainers` and `slot` and one
  method per handler.
- `scenarios.dfy`: request sequences against one `App`. They show the
  shared-slot hazard, duplicate registration, the two login failures,
  repeated and colliding additions, and expiry.

Behaviour of the code that the model deliberately reproduces:

- `token_admin_auth` raises rather than returning false when the slot is
  empty or its token has expired. `get_username_from_token` raises 401
  "Invalid or expired token" for an expired token. For an empty slot,
  `TOKEN.get("access_token")` is `None`, and decoding `None` raises an error
  from the JWT library that `decode_token` does not catch (`Error.TokenError`).
- A creature already in the collection raises 404 "Pokemon already exists",
  not a conflict status.
- `if expires_delta:` is false for a zero `timedelta`, so a zero delta also
  gets the 15-minute default.
- `last_trainer_id + 1 if last_trainer_id else 1` gives max + 1 in every case,
  since 0 + 1 is 1. For an empty store it gives 1.

The clock is an integer number of seconds, passed to every operation that
reads it. A token is live while `now < exp` (see "## Left out" for the
instant `exp` itself). The `.first()` of a query is the
first matching record in store order.

## Model

| member | source | states |
|---|---|---|
| Passwords.Hash | main.py:193-194 | the digest records the salt it was made with |
| Passwords.Verify | main.py:189-190 | a password verifies against a digest exactly when hashing it with that digest's salt gives that digest |
| Passwords.VerifyHash | main.py:189-194 | a digest verifies exactly the password it was made from, with any salt |
| Jose.Decode | main.py:209-215 | decoding raises `InvalidToken` exactly for the missing token and `ExpiredSignature` exactly once `exp <= now` |
| Jose.Encode | main.py:205 | the encoded token decodes to its claims at every instant before their expiry and raises expiry at every instant from then on |
| Jose.DecodeEncode | main.py:205-212 | decoding an encoded token returns its claims before expiry and raises expiry afterwards |
| Pokedex.CreateAccessToken | main.py:198-206 | the token's subject is the given one; its expiry is now + delta for a non-zero delta and now + 15 minutes for no delta or a zero delta |
| Pokedex.SlotToken | main.py:63 | `TOKEN.get("access_token")` is absent exactly for an empty slot and is otherwise the stored token |
| Pokedex.DecodeToken | main.py:209-215 | a live token yields its payload, an expired one yields `None`, and only the missing token raises |
| Pokedex.TokenLifetime | main.py:198-215 | an issued token decodes to (subject, now + window) strictly before now + window and to `None` from then on |
| Pokedex.UsernameFromToken | main.py:62-71 | succeeds exactly when the slot holds a live token, and then returns its subject; an empty slot raises the library error; an expired token raises 401 "Invalid or expired token" |
| Pokedex.TokenAdminAuth | main.py:57-59 | true exactly when the slot's live subject is "admin", false exactly when it is live and anyone else; otherwise the reader's error propagates |
| Pokedex.RequireAdmin | main.py:85-86 | the admin gate passes exactly for a live "admin" subject; a live non-admin gets 401 "Unauthorized"; empty and expired slots raise as the reader does |
| Pokedex.NonAdminLoginIsUnauthorized | main.py:271-274 | after a login as anyone but "admin", the admin gate refuses with 401 "Unauthorized" for the whole 30-minute window |
| Pokedex.MaxId | main.py:237 | `None` exactly for an empty store; otherwise an existing id that no id exceeds |
| Pokedex.NextId | main.py:237-239 | the allocated id exceeds every existing id and is one more than the largest, or 1 for an empty store |
| Pokedex.FindByUsername | main.py:262 | the first record with that username, or `None` exactly when no record has it |
| Pokedex.AddedMessage | main.py:325 | the confirmation contains both the rendered id and the username |
| Pokedex.App.constructor | main.py:181 | the process starts with the given store and an empty slot |
| Pokedex.App.RegisterTrainer | main.py:228-251 | a taken username gives 400 "Username already registered" with the store unchanged; otherwise the record (NextId of the old store, username, Hash(password), "") is appended and returned; the slot never changes; distinct ids and usernames are preserved |
| Pokedex.App.LoginTrainer | main.py:255-275 | the store never changes; an unknown username gives 401 "Username not found" and a wrong password 401 "Incorrect password", both leaving the slot unchanged; success stores in the slot exactly the returned bearer token, with subject = username and expiry = now + 30 minutes |
| Pokedex.App.AddPokemon | main.py:305-325 | an empty slot or an expired token returns a 401 object with nothing changed; an unknown slot user raises 404 "User not found"; an id that is already a substring of the collection raises 404 "Pokemon already exists" with nothing changed; otherwise only that trainer's collection changes, to the comma-aware append; the id is then found in it, and the entries gained exactly that id; the slot never changes; under the invariant "User not found" cannot happen |
| Collection.Contains | main.py:319 | Python's `in` on strings: a needle found is no longer than the string, and the empty needle is always found |
| Collection.AddEntry | main.py:322 | the old collection is a prefix and the id a suffix of the result, which is one separator longer than both together unless the old collection was empty |
| Collection.ContainsOccurs | main.py:319 | the `in` test holds exactly when the needle occurs at some index of the collection string |
| Collection.AddEntryContains | main.py:322 | after the append the id passes the `in` test, and the old collection is a prefix of the new one |
| Collection.AddEntryEntries | main.py:322 | the comma-aware append adds exactly one entry, the id, at the end of the entry list |
| Collection.EntryIsContained | main.py:319 | every listed entry passes the `in` test, so the test has no false negatives |
| Collection.AddEntryOnce | main.py:319-322 | an id that passed the `in` test is listed exactly once after the append |
| Collection.SubstringFalsePositive | main.py:319 | "1" passes the `in` test on "12", whose only entry is "12" |
| Decimal.IntToString | main.py:319 | `f"{pokemon_id}"` is never empty and starts with a minus sign exactly for a negative id |
| Decimal.ParseIntToString | main.py:306 | the decimal rendering of an id parses back to the same id |
| Decimal.IntToStringShape | main.py:319 | distinct ids render differently, and a rendering is never empty and never contains a comma |
| Scenarios.SharedSlotHazard | main.py:273-274 | after Alice logs in and then Bob does, the next addition goes to Bob's collection and Alice's stays empty |
| Scenarios.DuplicateRegistration | main.py:241-243 | a second registration of a name is refused with 400, the store keeps one record, and the first account still logs in |
| Scenarios.LoginFailures | main.py:264-268 | an unknown name and a wrong password fail with their two distinct 401s, and the slot stays empty |
| Scenarios.RepeatedAdd | main.py:319-320 | adding 7 twice fails the second time with 404 and the collection stays "7" |
| Scenarios.CollidingAdd | main.py:319-320 | adding 1 to the collection "12" is refused with 404 by the substring test, and the collection stays "12" |
| Scenarios.ExpiredSession | main.py:309-311 | past the 30-minute window of the login token, an addition returns a 401 object and the collection stays empty |

## Left out

- HTML page handlers and templates (`hello`, `view_list_of_pokemons`, `view_detail_of_pokemon`, GET `/api/create`, `get_trainers`, the rendering part of `get_profile`): rendering glue with no state of its own.
- The query bodies of `get_pokemons`, `get_pokemon` and POST `/api/create`: catalog I/O. Only their shared admin gate (`RequireAdmin`) is modelled.
- The duplicate check of POST `/api/create` (main.py:165-168): it compares a raw form string with an integer column, and the result depends on the database's type coercion rules, which are not modelled.
- Database engines, sessions and commits; the raw sqlite `get_pokemon_list`; the static mount; the uvicorn start-up; the sqladmin `PokemonAdmin` view: I/O and third-party configuration.
- bcrypt and JWT internals, including salt generation, signature checks and malformed tokens other than the missing one: foreign library code, modelled only by the abstract `Passwords` and `Jose` modules.
- Pokedex.App.AddPokemon: does not model the JWT library raising on a token in the slot, because only login writes the slot and it always stores a well-formed token.
- Missing form fields (`form_data.get` returning `None`): usernames and passwords are modelled as strings. A login without a username compares the column with NULL, matches nothing and raises 401 "Username not found"; the model covers that as a name nobody registered. A missing password makes the bcrypt calls fail, and a registration without a username fails when the database refuses the NULL username at commit; neither failure is modelled.
- The `WWW-Authenticate: Bearer` header of the 401 raised by `get_username_from_token` (main.py:68) and the diagnostic `print("no trainer")` of login (main.py:265): `HttpError` carries only a status and a detail, and output is not modelled.
- Passwords.VerifyHash: the "only if" half is an idealisation. bcrypt as configured truncates passwords to 72 bytes, so two passwords agreeing on their first 72 bytes verify against each other's digest; the model does not capture this truncation.
- Passwords.Verify: the same idealisation; the model compares whole passwords.
- Jose.Decode: python-jose raises expiry only when `exp < now`, so at the instant `exp` a token still decodes; the model already treats that instant as expired. Everywhere else the two agree.
- Races on the global slot and on max-plus-one id allocation: the model is sequential.
- Wall-clock time: "now" is an integer parameter, in seconds.
- The serialisation of returned values (the returned `HTTPException` object and the returned trainer record, digest included) is modelled by the values themselves, not by their JSON.
