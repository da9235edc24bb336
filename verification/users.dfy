/** The part of the persisted User record that the login/refresh handler reads:
    the identifier, the stored password hash and the account status. */
module Users {

  type Id = string

  /** The stored one-way hash of the user's password. */
  type PasswordHash = string

  /** Account status. Only ACTIVE is named by the handler; every other value of
      the status enumeration is carried by its name. */
  datatype UserStatus = Active | NotActive(name: string)

  datatype User = User(id: Id, password: PasswordHash, status: UserStatus)

  predicate IsActive(u: User) {
    u.status.Active?
  }
}
