/**
 * The two tables, `users` and `scripts`: row shapes, column defaults, the reserved
 * bootstrap username, the user record as sent to clients (no password), and the
 * insert schemas, which keep only the columns they pick.
 */
module Schema {
  import opened Wrappers

  /** A row of `users`. `verified` and `isAdmin` are always written explicitly, so they are plain booleans. */
  datatype User = User(
    id: int,
    username: string,
    password: string,
    verified: bool,
    profilePicture: string,
    isAdmin: bool)

  /** A user as every route sends it: the same record with `password` removed. */
  datatype PublicUser = PublicUser(
    id: int,
    username: string,
    verified: bool,
    profilePicture: string,
    isAdmin: bool)

  /** A row of `scripts`. `downloads` and `rating` are nullable integer columns. */
  datatype Script = Script(
    id: int,
    title: string,
    description: string,
    code: string,
    language: string,
    category: string,
    userId: int,
    downloads: Option<int>,
    rating: Option<int>)

  const BootstrapUsername: string := "Faze"

  const DefaultVerified := false
  const DefaultProfilePicture: string := ""
  const DefaultIsAdmin := false
  const DefaultDownloads := 0
  const DefaultRating := 0

  /** `const { password, ...userWithoutPassword } = user`. */
  function StripPassword(u: User): (p: PublicUser)
    ensures WithPassword(p, u.password) == u
  {
    PublicUser(u.id, u.username, u.verified, u.profilePicture, u.isAdmin)
  }

  /** Puts a password back on a public user record; the inverse of StripPassword. */
  function WithPassword(p: PublicUser, password: string): User
  {
    User(p.id, p.username, password, p.verified, p.profilePicture, p.isAdmin)
  }

  /** Two users with the same public view differ at most in their password. */
  lemma StripPasswordKeepsTheRest(u: User, v: User)
    requires StripPassword(u) == StripPassword(v)
    ensures u == v.(password := u.password)
  {
  }

  /** The columns `insertUserSchema` picks: username, password, and an optional profile picture. */
  datatype InsertUser = InsertUser(username: string, password: string, profilePicture: Option<string>)

  /** The columns `insertScriptSchema` picks. */
  datatype InsertScript = InsertScript(
    title: string,
    description: string,
    code: string,
    language: string,
    category: string,
    userId: int)

  /**
   * A JSON object offered to `insertUserSchema`, with every column a client could try
   * to send; `None` is a missing (or non-string / non-boolean) field.
   */
  datatype UserFields = UserFields(
    id: Option<int>,
    username: Option<string>,
    password: Option<string>,
    verified: Option<bool>,
    profilePicture: Option<string>,
    isAdmin: Option<bool>)

  /** A JSON object offered to `insertScriptSchema`, with every column of `scripts`. */
  datatype ScriptFields = ScriptFields(
    id: Option<int>,
    title: Option<string>,
    description: Option<string>,
    code: Option<string>,
    language: Option<string>,
    category: Option<string>,
    userId: Option<int>,
    downloads: Option<int>,
    rating: Option<int>)

  /**
   * `insertUserSchema.parse`: username and password are required strings, profilePicture
   * is optional; every other key is dropped.
   */
  function ParseInsertUser(f: UserFields): (r: Option<InsertUser>)
    ensures r.Some? <==> f.username.Some? && f.password.Some?
    ensures r.Some? ==> r.value == InsertUser(f.username.value, f.password.value, f.profilePicture)
  {
    if f.username.Some? && f.password.Some? then
      Some(InsertUser(f.username.value, f.password.value, f.profilePicture))
    else None
  }

  /**
   * `insertScriptSchema.parse`: the five text columns and userId are required; id,
   * downloads, rating and every other key are dropped.
   */
  function ParseInsertScript(f: ScriptFields): (r: Option<InsertScript>)
    ensures r.Some? <==>
      f.title.Some? && f.description.Some? && f.code.Some? && f.language.Some? && f.category.Some? && f.userId.Some?
    ensures r.Some? ==>
      r.value == InsertScript(f.title.value, f.description.value, f.code.value, f.language.value,
                              f.category.value, f.userId.value)
  {
    match (f.title, f.description, f.code, f.language, f.category, f.userId)
    case (Some(t), Some(d), Some(c), Some(l), Some(k), Some(u)) => Some(InsertScript(t, d, c, l, k, u))
    case _ => None
  }

  /** Values given for the dropped columns cannot change what the schema lets through. */
  lemma ParseInsertScriptIgnoresUnpicked(f: ScriptFields, id: Option<int>, downloads: Option<int>, rating: Option<int>)
    ensures ParseInsertScript(f.(id := id, downloads := downloads, rating := rating)) == ParseInsertScript(f)
  {
  }

  /** The row `insert(users).values(v)` stores for explicit values `v`, with the column defaults filled in. */
  function UserRow(id: int, username: string, password: string, verified: bool,
                   profilePicture: Option<string>, isAdmin: bool): User
  {
    User(id, username, password, verified, profilePicture.GetOr(DefaultProfilePicture), isAdmin)
  }

  /** The row `insert(scripts).values(s)` stores for a picked script: downloads and rating take their defaults. */
  function ScriptRow(id: int, s: InsertScript): (row: Script)
    ensures row.downloads == Some(DefaultDownloads) && row.rating == Some(DefaultRating)
  {
    Script(id, s.title, s.description, s.code, s.language, s.category, s.userId,
           Some(DefaultDownloads), Some(DefaultRating))
  }

  /** `x || 0` for a nullable integer column. */
  function OrZero(n: Option<int>): int
  {
    n.GetOr(0)
  }
}
