/**
 * The User record of the user directory: identity fields with their schema
 * constraints, the per-peer unread counters and the pinned-chat list.
 */
module UserModel {
  import opened Wrappers
  import Seqs

  type UserId = string

  /** Paths of the schema, as Mongoose names them in a validation error. */
  const EmailPath := "email"
  const FullNamePath := "fullName"
  const PasswordPath := "password"

  /** The schema's `minlength` for passwords. */
  const MinPasswordLength := 6

  datatype User = User(
    id: UserId,
    email: string,
    fullName: string,
    password: string,
    profilePic: string,
    pinnedChats: seq<UserId>,
    unreadCounts: map<UserId, nat>)

  /** What leaves the server for the contact list: a User without its password. */
  datatype PublicUser = PublicUser(
    id: UserId,
    email: string,
    fullName: string,
    profilePic: string,
    pinnedChats: seq<UserId>,
    unreadCounts: map<UserId, nat>)

  /** `.select("-password")`: every field but the password. */
  function WithoutPassword(u: User): (p: PublicUser)
    ensures p.id == u.id && p.email == u.email && p.fullName == u.fullName
    ensures p.profilePic == u.profilePic
    ensures p.pinnedChats == u.pinnedChats && p.unreadCounts == u.unreadCounts
  {
    PublicUser(u.id, u.email, u.fullName, u.profilePic, u.pinnedChats, u.unreadCounts)
  }

  /** The unread counter for `peer`; an absent key reads as zero (`get(peer) || 0`). */
  function CountOf(counts: map<UserId, nat>, peer: UserId): nat {
    if peer in counts then counts[peer] else 0
  }

  datatype SchemaError =
    | ValidationError(paths: set<string>)
    | DuplicateKey(path: string)

  /** The schema paths whose validators reject the given values. */
  function FailingPaths(email: string, fullName: string, password: string): (paths: set<string>)
    ensures EmailPath in paths <==> email == ""
    ensures FullNamePath in paths <==> fullName == ""
    ensures PasswordPath in paths <==> |password| < MinPasswordLength
    ensures paths <= {EmailPath, FullNamePath, PasswordPath}
  {
    (if email == "" then {EmailPath} else {})
    + (if fullName == "" then {FullNamePath} else {})
    + (if |password| < MinPasswordLength then {PasswordPath} else {})
  }

  /**
   * A new User document: validated against the schema (`required` rejects
   * the empty string, `minlength` the short password), with `profilePic`,
   * `pinnedChats` and `unreadCounts` taking their defaults when not given.
   */
  function NewUser(id: UserId, email: string, fullName: string, password: string,
                   profilePic: Option<string>): (r: Result<User, SchemaError>)
    ensures r.Ok? <==> email != "" && fullName != "" && |password| >= MinPasswordLength
    ensures r.Ok? ==> (r.value.id == id && r.value.email == email
                       && r.value.fullName == fullName && r.value.password == password)
    ensures r.Ok? && profilePic.None? ==> r.value.profilePic == ""
    ensures r.Ok? && profilePic.Some? ==> r.value.profilePic == profilePic.value
    ensures r.Ok? ==> r.value.pinnedChats == [] && r.value.unreadCounts == map[]
    ensures r.Err? ==> r.error.ValidationError?
    ensures r.Err? ==> r.error == ValidationError(FailingPaths(email, fullName, password))
    ensures r.Err? ==> (PasswordPath in r.error.paths <==> |password| < MinPasswordLength)
    ensures r.Err? ==> (EmailPath in r.error.paths <==> email == "")
    ensures r.Err? ==> (FullNamePath in r.error.paths <==> fullName == "")
  {
    var failing := FailingPaths(email, fullName, password);
    if failing != {} then Err(ValidationError(failing))
    else Ok(User(id, email, fullName, password, profilePic.GetOr(""), [], map[]))
  }

  /** A user record that satisfies the schema and the no-duplicate pin rule. */
  predicate WellFormedUser(u: User) {
    && u.email != ""
    && u.fullName != ""
    && |u.password| >= MinPasswordLength
    && Seqs.NoDups(u.pinnedChats)
  }

  /** Every user is stored under its own id, is well formed, and emails are unique. */
  predicate WellFormedDirectory(users: map<UserId, User>) {
    && (forall k :: k in users ==> users[k].id == k && WellFormedUser(users[k]))
    && (forall a, b :: a in users && b in users && a != b ==> users[a].email != users[b].email)
  }

  /** Insert into the collection: the `_id` and the `email` index are unique. */
  function Insert(users: map<UserId, User>, u: User): (r: Result<map<UserId, User>, SchemaError>)
    ensures r.Err? <==> u.id in users || exists k :: k in users && users[k].email == u.email
    ensures r.Ok? ==> r.value == users[u.id := u]
    ensures r.Err? && u.id !in users ==> r.error == DuplicateKey(EmailPath)
  {
    if u.id in users then Err(DuplicateKey("_id"))
    else if exists k :: k in users && users[k].email == u.email then Err(DuplicateKey(EmailPath))
    else Ok(users[u.id := u])
  }

  /** Registering a schema-valid user keeps the directory well formed. */
  lemma InsertKeepsDirectoryWellFormed(users: map<UserId, User>, id: UserId, email: string,
                                       fullName: string, password: string, profilePic: Option<string>)
    requires WellFormedDirectory(users)
    requires NewUser(id, email, fullName, password, profilePic).Ok?
    requires Insert(users, NewUser(id, email, fullName, password, profilePic).value).Ok?
    ensures WellFormedDirectory(Insert(users, NewUser(id, email, fullName, password, profilePic).value).value)
  {
  }
}
