/** The admin login route: a plain credential check against a store of
    admin accounts keyed by username. */
module AdminRoutes {
  import opened Common

  /** Admin accounts: username to stored password. */
  type Admins = map<string, string>

  const InvalidCredentials := "Invalid credentials"

  /** POST /api/admin/login. Success carries nothing but itself: no token
      and no session. */
  function Login(admins: Admins, username: string, password: string): (r: Reply<(), Admins>)
    ensures r.state == admins
    ensures r.result.Ok? <==> username in admins && admins[username] == password
    ensures r.result.Err? ==> r.result.error == Unauthorized(InvalidCredentials)
  {
    if username !in admins || admins[username] != password then Reply(Err(Unauthorized(InvalidCredentials)), admins)
    else Reply(Ok(()), admins)
  }

  /** An unknown username and a wrong password get the same reply, so a
      caller cannot tell which usernames exist. */
  lemma FailuresIndistinguishable(admins: Admins, unknown: string, known: string, wrong: string, any: string)
    requires unknown !in admins
    requires known in admins && admins[known] != wrong
    ensures Login(admins, unknown, any) == Login(admins, known, wrong)
  {
  }
}
