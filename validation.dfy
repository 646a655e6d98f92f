/** The request-body checks in front of signup and login. Each either answers
    400 with a message and an error text, or passes the request on (`next`). */
module Validation {
  import opened Common

  datatype Outcome = Next | Respond(status: int, message: string, error: string)

  /** A body value is missing when it is absent, null or the empty string. */
  predicate Present(s: Option<string>)
  {
    Truthy(s)
  }

  /** `validateSignup`: the username is checked before the password. */
  function ValidateSignup(username: Option<string>, password: Option<string>): (r: Outcome)
    ensures r.Next? <==> username.Some? && |username.value| >= 3 && password.Some? && |password.value| >= 6
    ensures !Present(username) || |username.value| < 3 ==>
              r == Respond(400, "Invalid username", "Username must be at least 3 characters long")
    ensures Present(username) && |username.value| >= 3 && (!Present(password) || |password.value| < 6) ==>
              r == Respond(400, "Invalid password", "Password must be at least 6 characters long")
  {
    if !Present(username) || |username.value| < 3 then
      Respond(400, "Invalid username", "Username must be at least 3 characters long")
    else if !Present(password) || |password.value| < 6 then
      Respond(400, "Invalid password", "Password must be at least 6 characters long")
    else
      Next
  }

  /** `validateLogin`: presence only, username first, no length rules. */
  function ValidateLogin(username: Option<string>, password: Option<string>): (r: Outcome)
    ensures r.Next? <==> Present(username) && Present(password)
    ensures !Present(username) ==> r == Respond(400, "Username is required", "Username must be provided")
    ensures Present(username) && !Present(password) ==>
              r == Respond(400, "Password is required", "Password must be provided")
  {
    if !Present(username) then Respond(400, "Username is required", "Username must be provided")
    else if !Present(password) then Respond(400, "Password is required", "Password must be provided")
    else Next
  }

  /** Credentials that pass the signup checks also pass the login checks. */
  lemma SignupImpliesLogin(username: Option<string>, password: Option<string>)
    requires ValidateSignup(username, password).Next?
    ensures ValidateLogin(username, password).Next?
  {
  }

  /** Of the bodies login accepts, signup refuses exactly those with a username
      shorter than 3 or a password shorter than 6 characters. */
  lemma LoginIsLaxer(username: Option<string>, password: Option<string>)
    requires ValidateLogin(username, password).Next?
    ensures ValidateSignup(username, password).Respond? <==> |username.value| < 3 || |password.value| < 6
  {
  }
}
