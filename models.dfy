/** The trainer table (models.py). */
module Models {
  import opened Passwords

  /**
   * One trainer account: its primary key, its username, the bcrypt digest of
   * its password and `pokemons`, the comma-joined identifiers of the creatures
   * it owns (empty for a new account).
   */
  datatype Trainer = Trainer(id: int, username: string, passwordHash: Digest, pokemons: string)
}
