/**
 * The trainer account and session mechanism of the web application
 * (main.py): token issue and decode, the readers of the single
 * process-wide session slot, and the three handlers that change state —
 * registration, login and adding a creature to the current trainer's
 * collection. Time is an integer clock in seconds, passed to every
 * operation that reads it.
 */
module Pokedex {
  import opened Wrappers
  import opened Passwords
  import opened Jose
  import opened Models
  import opened Decimal
  import opened Collection

  /** Expiry used when `create_access_token` gets no (or a zero) delta: 15 minutes. */
  const DefaultExpiry: int := 15 * 60

  /** The literal window used at login: 30 minutes. */
  const LoginExpiry: int := 30 * 60

  /**
   * What a handler raises: an `HTTPException(status, detail)`, or the
   * JWT library's own error for a token that is not merely expired.
   */
  datatype Error = HttpError(status: nat, detail: string) | TokenError

  /** The dict `{"access_token": ..., "token_type": ...}` that login returns and stores. */
  datatype Session = Session(accessToken: Jwt, tokenType: string)

  /** The global `TOKEN`: empty (`{}`) until somebody logs in. */
  type Slot = Option<Session>

  /** What `add_pokemon` returns normally: a confirmation, or an `HTTPException` returned rather than raised. */
  datatype Reply = Message(text: string) | Returned(exception: Error)

  /** `TOKEN.get("access_token")`. */
  function SlotToken(slot: Slot): (token: Option<Jwt>)
    ensures token.None? <==> slot.None?
    ensures token.Some? ==> token.value == slot.value.accessToken
  {
    if slot.Some? then Some(slot.value.accessToken) else None
  }

  /** The slot holds a token that has not expired at `now`. */
  predicate Live(slot: Slot, now: int)
  {
    slot.Some? && now < slot.value.accessToken.payload.exp
  }

  /** The subject of the token in the slot. */
  function Subject(slot: Slot): string
    requires slot.Some?
  {
    slot.value.accessToken.payload.sub
  }

  /**
   * `create_access_token({"sub": sub}, expires_delta)` at clock `now`.
   * `if expires_delta:` is false for a zero timedelta as well as for
   * `None`, so both fall back to the 15-minute default.
   */
  function CreateAccessToken(sub: string, expiresDelta: Option<int>, now: int): (token: Jwt)
    ensures token.payload.sub == sub
    ensures expiresDelta.None? ==> token.payload.exp == now + DefaultExpiry
    ensures expiresDelta == Some(0) ==> token.payload.exp == now + DefaultExpiry
    ensures expiresDelta.Some? && expiresDelta.value != 0 ==> token.payload.exp == now + expiresDelta.value
  {
    var expire := if expiresDelta.Some? && expiresDelta.value != 0 then now + expiresDelta.value else now + DefaultExpiry;
    Encode(Claims(sub, expire))
  }

  /**
   * `decode_token(token)`: the payload, `None` once expired, and the
   * library's error propagated for anything else.
   */
  function DecodeToken(token: Option<Jwt>, now: int): (r: Result<Option<Claims>, Error>)
    ensures token.None? <==> r == Err(TokenError)
    ensures token.Some? && now < token.value.payload.exp ==> r == Ok(Some(token.value.payload))
    ensures token.Some? && token.value.payload.exp <= now ==> r == Ok(None)
  {
    match Decode(token, now)
    case Ok(payload) => Ok(Some(payload))
    case Err(ExpiredSignature) => Ok(None)
    case Err(InvalidToken) => Err(TokenError)
  }

  /** An issued token decodes to its subject until its window has elapsed, and to `None` from then on. */
  lemma TokenLifetime(sub: string, expiresDelta: Option<int>, now: int, later: int)
    ensures var token := CreateAccessToken(sub, expiresDelta, now);
      var window := if expiresDelta.Some? && expiresDelta.value != 0 then expiresDelta.value else DefaultExpiry;
      DecodeToken(Some(token), later) == if later < now + window then Ok(Some(Claims(sub, now + window))) else Ok(None)
  {
  }

  /** `get_username_from_token()`: the subject of the token in the slot. */
  function UsernameFromToken(slot: Slot, now: int): (r: Result<string, Error>)
    ensures r.Ok? <==> Live(slot, now)
    ensures r.Ok? ==> r.value == Subject(slot)
    ensures slot.None? ==> r == Err(TokenError)
    ensures slot.Some? && !Live(slot, now) ==> r == Err(HttpError(401, "Invalid or expired token"))
  {
    match DecodeToken(SlotToken(slot), now)
    case Err(e) => Err(e)
    case Ok(None) => Err(HttpError(401, "Invalid or expired token"))
    case Ok(Some(userInfo)) => Ok(userInfo.sub)
  }

  /** `token_admin_auth()`: whether the slot's subject is the literal "admin". */
  function TokenAdminAuth(slot: Slot, now: int): (r: Result<bool, Error>)
    ensures r == Ok(true) <==> Live(slot, now) && Subject(slot) == "admin"
    ensures r == Ok(false) <==> Live(slot, now) && Subject(slot) != "admin"
    ensures slot.None? ==> r == Err(TokenError)
    ensures slot.Some? && !Live(slot, now) ==> r == Err(HttpError(401, "Invalid or expired token"))
  {
    match UsernameFromToken(slot, now)
    case Err(e) => Err(e)
    case Ok(username) => Ok(username == "admin")
  }

  /** `if not token_admin_auth(): raise HTTPException(401, detail="Unauthorized")`, the gate of the admin routes. */
  function RequireAdmin(slot: Slot, now: int): (r: Result<(), Error>)
    ensures r.Ok? <==> Live(slot, now) && Subject(slot) == "admin"
    ensures Live(slot, now) && Subject(slot) != "admin" ==> r == Err(HttpError(401, "Unauthorized"))
    ensures slot.None? ==> r == Err(TokenError)
    ensures slot.Some? && !Live(slot, now) ==> r == Err(HttpError(401, "Invalid or expired token"))
  {
    match TokenAdminAuth(slot, now)
    case Err(e) => Err(e)
    case Ok(false) => Err(HttpError(401, "Unauthorized"))
    case Ok(true) => Ok(())
  }

  /**
   * Right after a non-admin login, every admin-gated route is refused with
   * 401, for as long as the login token lives.
   */
  lemma NonAdminLoginIsUnauthorized(username: string, now: int, later: int)
    requires username != "admin"
    requires now <= later < now + LoginExpiry
    ensures RequireAdmin(Some(Session(CreateAccessToken(username, Some(LoginExpiry), now), "bearer")), later)
      == Err(HttpError(401, "Unauthorized"))
  {
  }

  /** `select(func.max(Trainer.id))`: the largest id, `None` (SQL NULL) for an empty table. */
  function MaxId(trainers: seq<Trainer>): (m: Option<int>)
    ensures m.None? <==> trainers == []
    ensures m.Some? ==> forall k :: 0 <= k < |trainers| ==> trainers[k].id <= m.value
    ensures m.Some? ==> exists k :: 0 <= k < |trainers| && trainers[k].id == m.value
  {
    if trainers == [] then None
    else match MaxId(trainers[1..])
      case None => Some(trainers[0].id)
      case Some(rest) => Some(if trainers[0].id < rest then rest else trainers[0].id)
  }

  /**
   * The id `register_trainer` allocates: `result if result is not None else 0`,
   * then `last_trainer_id + 1 if last_trainer_id else 1`. It exceeds every
   * existing id, is one more than the largest, and is 1 for an empty store.
   */
  function NextId(trainers: seq<Trainer>): (id: int)
    ensures forall k :: 0 <= k < |trainers| ==> trainers[k].id < id
    ensures trainers != [] ==> exists k :: 0 <= k < |trainers| && id == trainers[k].id + 1
    ensures trainers == [] ==> id == 1
  {
    var result := MaxId(trainers);
    var lastTrainerId := if result.Some? then result.value else 0;
    if lastTrainerId != 0 then lastTrainerId + 1 else 1
  }

  /** `select(Trainer).where(Trainer.username == username)...first()`: the first matching record, in store order. */
  function FindByUsername(trainers: seq<Trainer>, username: string): (r: Option<nat>)
    ensures r.Some? ==> r.value < |trainers| && trainers[r.value].username == username
    ensures r.Some? ==> forall k :: 0 <= k < r.value ==> trainers[k].username != username
    ensures r.None? <==> forall k :: 0 <= k < |trainers| ==> trainers[k].username != username
  {
    if trainers == [] then None
    else if trainers[0].username == username then Some(0)
    else match FindByUsername(trainers[1..], username)
      case None => None
      case Some(i) => Some(i + 1)
  }

  /** The lookup depends only on the usernames, in order. */
  lemma FindBySameUsernames(trainers: seq<Trainer>, trainers': seq<Trainer>, username: string)
    requires |trainers| == |trainers'|
    requires forall k :: 0 <= k < |trainers| ==> trainers[k].username == trainers'[k].username
    ensures FindByUsername(trainers, username) == FindByUsername(trainers', username)
  {
  }

  /** Appending a record keeps every earlier match where it was. */
  lemma FindAfterAppend(trainers: seq<Trainer>, t: Trainer, username: string)
    requires FindByUsername(trainers, username).Some?
    ensures FindByUsername(trainers + [t], username) == FindByUsername(trainers, username)
  {
    var i := FindByUsername(trainers, username).value;
    assert (trainers + [t])[i].username == username;
  }

  /** A username identifies at most one record, and so does an id. */
  ghost predicate Distinct(trainers: seq<Trainer>)
  {
    forall i, j :: 0 <= i < j < |trainers| ==> trainers[i].id != trainers[j].id && trainers[i].username != trainers[j].username
  }

  /** The confirmation `add_pokemon` returns. */
  function AddedMessage(pokemonId: int, username: string): (text: string)
    ensures Contains(text, IntToString(pokemonId)) && Contains(text, username)
  {
    var prefix := "Pokemon with ID ";
    var middle := " added to trainer ";
    var t := prefix + IntToString(pokemonId) + middle + username + "'s pokemons";
    assert OccursAt(t, IntToString(pokemonId), |prefix|);
    assert OccursAt(t, username, |prefix| + |IntToString(pokemonId)| + |middle|);
    ContainsOccurs(t, IntToString(pokemonId));
    ContainsOccurs(t, username);
    t
  }

  /**
   * The application's state: the trainer store and the global session slot.
   * Each handler is a method that changes them in place.
   */
  class App {
    var trainers: seq<Trainer>
    var slot: Slot

    /**
     * The invariant the handlers keep: ids and usernames are distinct, and
     * a token in the slot was issued by login, as a bearer token, for a
     * trainer that is in the store.
     */
    ghost predicate Valid()
      reads this
    {
      && Distinct(trainers)
      && (slot.Some? ==> slot.value.tokenType == "bearer" && FindByUsername(trainers, Subject(slot)).Some?)
    }

    /** The process starts with whatever the trainer database holds and an empty slot. */
    constructor (store: seq<Trainer>)
      ensures trainers == store && slot == None
      ensures Distinct(store) ==> Valid()
    {
      trainers := store;
      slot := None;
    }

    /**
     * POST /api/register. The id is allocated before the duplicate check and
     * the password hashed with a fresh `salt`; a taken username raises 400 and
     * changes nothing; otherwise the new record, with an empty collection, is
     * appended and returned (digest included).
     */
    method RegisterTrainer(username: string, password: string, salt: string) returns (r: Result<Trainer, Error>)
      modifies this
      ensures slot == old(slot)
      ensures FindByUsername(old(trainers), username).Some? ==>
        r == Err(HttpError(400, "Username already registered")) && trainers == old(trainers)
      ensures FindByUsername(old(trainers), username).None? ==>
        && r == Ok(Trainer(NextId(old(trainers)), username, Hash(password, salt), ""))
        && trainers == old(trainers) + [r.value]
      ensures old(Valid()) ==> Valid()
    {
      ghost var before := trainers;
      var hashedPassword := Hash(password, salt);
      var id := NextId(trainers);
      var existing := FindByUsername(trainers, username);
      if existing.Some? {
        return Err(HttpError(400, "Username already registered"));
      }
      var newTrainer := Trainer(id, username, hashedPassword, "");
      trainers := trainers + [newTrainer];
      r := Ok(newTrainer);
      if old(Valid()) && slot.Some? {
        FindAfterAppend(before, newTrainer, Subject(slot));
      }
    }

    /**
     * POST /api/login. An unknown username and a wrong password raise two
     * distinct 401s and leave the slot alone; otherwise a 30-minute token
     * for the trainer is minted, stored as the whole slot, and returned.
     */
    method LoginTrainer(username: string, password: string, now: int) returns (r: Result<Session, Error>)
      modifies this
      ensures trainers == old(trainers)
      ensures FindByUsername(trainers, username).None? ==>
        r == Err(HttpError(401, "Username not found")) && slot == old(slot)
      ensures FindByUsername(trainers, username).Some? ==>
        var trainer := trainers[FindByUsername(trainers, username).value];
        if !Verify(password, trainer.passwordHash) then
          r == Err(HttpError(401, "Incorrect password")) && slot == old(slot)
        else
          && r.Ok?
          && slot == Some(r.value)
          && r.value.tokenType == "bearer"
          && r.value.accessToken.payload == Claims(username, now + LoginExpiry)
      ensures old(Valid()) ==> Valid()
    {
      var found := FindByUsername(trainers, username);
      if found.None? {
        return Err(HttpError(401, "Username not found"));
      }
      var trainer := trainers[found.value];
      if !Verify(password, trainer.passwordHash) {
        return Err(HttpError(401, "Incorrect password"));
      }
      var accessToken := CreateAccessToken(trainer.username, Some(LoginExpiry), now);
      slot := Some(Session(accessToken, "bearer"));
      r := Ok(Session(accessToken, "bearer"));
    }

    /**
     * POST /api/add_pokemon/{pokemon_id}, on behalf of whoever holds the
     * slot. An empty slot or an expired token returns (does not raise) a
     * 401; an unknown trainer or an identifier that is already a substring
     * of the collection raises 404; otherwise the identifier is appended to
     * that trainer's collection and to no other record.
     */
    method AddPokemon(pokemonId: int, now: int) returns (r: Result<Reply, Error>)
      modifies this
      ensures slot == old(slot)
      ensures !Live(slot, now) ==>
        r == Ok(Returned(HttpError(401, "Unauthorized"))) && trainers == old(trainers)
      ensures Live(slot, now) && FindByUsername(old(trainers), Subject(slot)).None? ==>
        r == Err(HttpError(404, "User not found")) && trainers == old(trainers)
      ensures Live(slot, now) && FindByUsername(old(trainers), Subject(slot)).Some? ==>
        var i := FindByUsername(old(trainers), Subject(slot)).value;
        var entry := IntToString(pokemonId);
        var pokemons := old(trainers)[i].pokemons;
        if Contains(pokemons, entry) then
          r == Err(HttpError(404, "Pokemon already exists")) && trainers == old(trainers)
        else
          && r == Ok(Message(AddedMessage(pokemonId, Subject(slot))))
          && trainers == old(trainers)[i := old(trainers)[i].(pokemons := AddEntry(pokemons, entry))]
          && Contains(trainers[i].pokemons, entry)
          && Entries(trainers[i].pokemons) == Entries(pokemons) + [entry]
      ensures old(Valid()) ==> Valid() && r != Err(HttpError(404, "User not found"))
    {
      if slot.None? {
        return Ok(Returned(HttpError(401, "Unauthorized")));
      }
      // The slot is only ever written by login, so its token is well formed
      // and decoding it cannot raise.
      var userInfo := DecodeToken(Some(slot.value.accessToken), now);
      if userInfo.value.None? {
        return Ok(Returned(HttpError(401, "Unauthorized")));
      }
      var username := userInfo.value.value.sub;
      var found := FindByUsername(trainers, username);
      if found.None? {
        return Err(HttpError(404, "User not found"));
      }
      var i := found.value;
      var entry := IntToString(pokemonId);
      if Contains(trainers[i].pokemons, entry) {
        return Err(HttpError(404, "Pokemon already exists"));
      }
      ghost var before := trainers;
      trainers := trainers[i := trainers[i].(pokemons := AddEntry(trainers[i].pokemons, entry))];
      r := Ok(Message(AddedMessage(pokemonId, username)));
      AddEntryContains(before[i].pokemons, entry);
      IntToStringShape(pokemonId, pokemonId);
      AddEntryEntries(before[i].pokemons, entry);
      FindBySameUsernames(before, trainers, username);
    }
  }
}
