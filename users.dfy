/** The signed-in user record that the stores and helpers read. */
module Users {
  import opened Wrappers

  /** A user: a login name and a role that may be missing. */
  datatype User = User(username: string, role: Option<string>)
}
