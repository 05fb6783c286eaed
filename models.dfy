/** The one stored entity of the service. */
module Models {

  /**
   * A stored user: an identifier assigned by the database, a name and an
   * email. Length limits and the uniqueness of the email are enforced by the
   * database, not by the modelled code, so they are not part of this type.
   */
  datatype User = User(id: int, name: string, email: string)
}
