/**
 * Request sequences against one `App`, showing what its handlers' contracts
 * imply when they are composed: the shared session slot, duplicate
 * registration, repeated and colliding additions, and token expiry.
 */
module Scenarios {
  import opened Wrappers
  import opened Passwords
  import opened Models
  import opened Pokedex

  /**
   * Alice logs in, then Bob does; the next addition lands in Bob's
   * collection, whoever sent it, because there is one slot per process.
   */
  method SharedSlotHazard(now: int) returns (reply: Result<Reply, Error>, alicePokemons: string, bobPokemons: string)
    ensures reply == Ok(Message(AddedMessage(25, "bob")))
    ensures alicePokemons == "" && bobPokemons == "25"
  {
    var app := new App([]);
    var alice := app.RegisterTrainer("alice", "pw-a", "salt-a");
    var bob := app.RegisterTrainer("bob", "pw-b", "salt-b");
    assert app.trainers == [Trainer(1, "alice", Hash("pw-a", "salt-a"), ""), Trainer(2, "bob", Hash("pw-b", "salt-b"), "")];
    assert FindByUsername(app.trainers, "alice") == Some(0);
    assert FindByUsername(app.trainers, "bob") == Some(1);
    var asAlice := app.LoginTrainer("alice", "pw-a", now);
    var asBob := app.LoginTrainer("bob", "pw-b", now);
    assert Live(app.slot, now) && Subject(app.slot) == "bob";
    assert Decimal.IntToString(25) == "25";
    assert !Collection.Contains("", "25");
    reply := app.AddPokemon(25, now);
    alicePokemons, bobPokemons := app.trainers[0].pokemons, app.trainers[1].pokemons;
  }

  /** A second registration under a taken name is refused, and the first account still logs in. */
  method DuplicateRegistration(now: int) returns (second: Result<Trainer, Error>, login: Result<Session, Error>, count: nat)
    ensures second == Err(HttpError(400, "Username already registered"))
    ensures login.Ok? && login.value.accessToken.payload.sub == "ash"
    ensures count == 1
  {
    var app := new App([]);
    var first := app.RegisterTrainer("ash", "pikachu", "s1");
    second := app.RegisterTrainer("ash", "other", "s2");
    login := app.LoginTrainer("ash", "pikachu", now);
    count := |app.trainers|;
  }

  /** The two login failures are distinct and neither touches the slot. */
  method LoginFailures(now: int) returns (unknown: Result<Session, Error>, wrong: Result<Session, Error>, slot: Slot)
    ensures unknown == Err(HttpError(401, "Username not found"))
    ensures wrong == Err(HttpError(401, "Incorrect password"))
    ensures slot == None
  {
    var app := new App([]);
    var reg := app.RegisterTrainer("misty", "starmie", "s");
    unknown := app.LoginTrainer("brock", "onix", now);
    wrong := app.LoginTrainer("misty", "psyduck", now);
    slot := app.slot;
  }

  /** Adding 7 twice fails the second time, and 7 stays listed once. */
  method RepeatedAdd(now: int) returns (again: Result<Reply, Error>, pokemons: string)
    ensures again == Err(HttpError(404, "Pokemon already exists"))
    ensures pokemons == "7"
  {
    var app := new App([]);
    var reg := app.RegisterTrainer("gary", "eevee", "s");
    var login := app.LoginTrainer("gary", "eevee", now);
    assert Decimal.IntToString(7) == "7";
    assert !Collection.Contains("", "7");
    var first := app.AddPokemon(7, now);
    assert app.trainers[0].pokemons == "7";
    again := app.AddPokemon(7, now);
    pokemons := app.trainers[0].pokemons;
  }

  /** Adding 1 to a collection holding 12 is refused, although 1 is not listed. */
  method CollidingAdd(now: int) returns (collide: Result<Reply, Error>, pokemons: string)
    ensures collide == Err(HttpError(404, "Pokemon already exists"))
    ensures pokemons == "12"
  {
    var app := new App([]);
    var reg := app.RegisterTrainer("gary", "eevee", "s");
    var login := app.LoginTrainer("gary", "eevee", now);
    assert Decimal.IntToString(12) == "12";
    assert Decimal.IntToString(1) == "1";
    assert !Collection.Contains("", "12");
    var twelve := app.AddPokemon(12, now);
    assert app.trainers[0].pokemons == "12";
    assert Collection.Contains("12", "1");
    collide := app.AddPokemon(1, now);
    pokemons := app.trainers[0].pokemons;
  }

  /** Past the 30-minute window of the login token, adding returns a 401 object and changes nothing. */
  method ExpiredSession(now: int) returns (reply: Result<Reply, Error>, pokemons: string)
    ensures reply == Ok(Returned(HttpError(401, "Unauthorized")))
    ensures pokemons == ""
  {
    var app := new App([]);
    var reg := app.RegisterTrainer("dawn", "piplup", "s");
    var login := app.LoginTrainer("dawn", "piplup", now);
    reply := app.AddPokemon(4, now + LoginExpiry + 1);
    pokemons := app.trainers[0].pokemons;
  }
}
