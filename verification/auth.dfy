/** `registerUser` of src/actions/auth.ts: validate the sign-up data, refuse
    an e-mail that is already registered, otherwise store the user with a
    hashed password. The schema check and the hash are parameters; a hash that
    throws is `None`. */
module Auth {
  import opened Results

  datatype SignupData = SignupData(name: string, email: string, password: string)

  /** A row of the `user` table; `password` holds the hash. */
  datatype User = User(name: string, email: string, password: string)

  /** `{sucess: true}` (spelled so in the source) or `{error: ...}`. */
  datatype Reply = Registered | Rejected(error: string)

  datatype Outcome = Outcome(reply: Reply, users: seq<User>)

  /** The cost factor passed to the password hash. */
  const HashRounds: nat := 12

  /** Where the first user with this e-mail sits, if any. */
  function FindByEmail(users: seq<User>, email: string): (r: Option<nat>)
    ensures r.None? <==> forall i :: 0 <= i < |users| ==> users[i].email != email
    ensures r.Some? ==>
      (r.value < |users| && users[r.value].email == email &&
       forall j :: 0 <= j < r.value ==> users[j].email != email)
    decreases |users|
  {
    if |users| == 0 then None
    else if users[0].email == email then Some(0)
    else match FindByEmail(users[1..], email)
      case None => None
      case Some(i) => Some(i + 1)
  }

  /** At most one user per e-mail. */
  ghost predicate UniqueEmails(users: seq<User>) {
    forall i, j :: 0 <= i < j < |users| ==> users[i].email != users[j].email
  }

  function RegisterUser(users: seq<User>, data: SignupData, schemaAccepts: SignupData -> bool,
                        hash: (string, nat) -> Option<string>): (o: Outcome)
    // the table changes only by appending the new user, with the hash of the
    // password in place of the password
    ensures o.reply == Registered <==> o.users != users
    ensures o.reply == Registered ==>
      && schemaAccepts(data)
      && (forall i :: 0 <= i < |users| ==> users[i].email != data.email)
      && hash(data.password, HashRounds).Some?
      && o.users == users + [User(data.name, data.email, hash(data.password, HashRounds).value)]
    ensures !schemaAccepts(data) ==> o == Outcome(Rejected("Invalid data"), users)
    ensures schemaAccepts(data) && (exists i :: 0 <= i < |users| && users[i].email == data.email) ==>
      o == Outcome(Rejected("User already exists"), users)
    // an accepted sign-up with a new e-mail is registered iff hashing succeeds
    ensures schemaAccepts(data) && (forall i :: 0 <= i < |users| ==> users[i].email != data.email) ==>
      if hash(data.password, HashRounds).Some? then o.reply == Registered
      else o == Outcome(Rejected("Something went wrong"), users)
    ensures o.reply.Rejected? ==>
      o.reply.error in {"Invalid data", "User already exists", "Something went wrong"}
  {
    if !schemaAccepts(data) then Outcome(Rejected("Invalid data"), users)
    else if FindByEmail(users, data.email).Some? then Outcome(Rejected("User already exists"), users)
    else match hash(data.password, HashRounds)
      case None => Outcome(Rejected("Something went wrong"), users)
      case Some(hashed) => Outcome(Registered, users + [User(data.name, data.email, hashed)])
  }

  /** Registration keeps e-mails unique. */
  lemma RegisterPreservesUniqueEmails(users: seq<User>, data: SignupData, schemaAccepts: SignupData -> bool,
                                      hash: (string, nat) -> Option<string>)
    requires UniqueEmails(users)
    ensures UniqueEmails(RegisterUser(users, data, schemaAccepts, hash).users)
  {
  }

  /** Registering the same e-mail twice never yields two users: the second
      attempt is refused and the table is left as the first one left it. */
  lemma SecondRegistrationRefused(users: seq<User>, first: SignupData, second: SignupData,
                                  schemaAccepts: SignupData -> bool, hash: (string, nat) -> Option<string>)
    requires RegisterUser(users, first, schemaAccepts, hash).reply == Registered
    requires second.email == first.email && schemaAccepts(second)
    ensures var after := RegisterUser(users, first, schemaAccepts, hash).users;
      RegisterUser(after, second, schemaAccepts, hash) == Outcome(Rejected("User already exists"), after)
  {
    var after := RegisterUser(users, first, schemaAccepts, hash).users;
    assert after[|users|].email == second.email;
  }
}
