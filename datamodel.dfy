/** The application's user record (Auth.Datamodel ApplicationUser): only the
    fields the claim code reads. A null name is None. */
module Datamodel {
  import opened Wrappers

  datatype ApplicationUser = ApplicationUser(id: string, firstName: Option<string>, lastName: Option<string>)
}
