/**
 * `DatabaseStorage`: the `users` and `scripts` tables held in memory, with the
 * serial counters that hand out ids. Each table is a sequence of rows in insertion
 * order, which (ids being serial) is ascending id order.
 *
 * Queries are written once, generically (IndexWhere, Filter); the class methods are
 * the storage operations, each stating the new contents of both tables.
 */
module Storage {
  import opened Wrappers
  import opened Schema
  import Credential

  // ---------------------------------------------------------------------------
  // Queries over a table

  /** The position of the first row that `matches`, if any (`select ... where ... limit 1`). */
  function IndexWhere<T>(rows: seq<T>, matches: T -> bool): (r: Option<nat>)
    ensures r.Some? ==> r.value < |rows| && matches(rows[r.value])
    ensures r.Some? ==> forall k :: 0 <= k < r.value ==> !matches(rows[k])
    ensures r.None? ==> forall k :: 0 <= k < |rows| ==> !matches(rows[k])
  {
    if rows == [] then None
    else if matches(rows[0]) then Some(0)
    else match IndexWhere(rows[1..], matches)
      case None => None
      case Some(k) => Some(k + 1)
  }

  /** The rows that satisfy `keep`, in table order (`select ... where ...`). */
  function Filter<T(!new)>(rows: seq<T>, keep: T -> bool): (r: seq<T>)
    ensures |r| <= |rows|
    ensures forall x :: x in r <==> x in rows && keep(x)
  {
    if rows == [] then []
    else (if keep(rows[0]) then [rows[0]] else []) + Filter(rows[1..], keep)
  }

  function UserIndex(rows: seq<User>, id: int): (r: Option<nat>)
    ensures r.Some? ==> r.value < |rows| && rows[r.value].id == id
    ensures r.None? ==> forall k :: 0 <= k < |rows| ==> rows[k].id != id
  {
    IndexWhere(rows, (u: User) => u.id == id)
  }

  function UsernameIndex(rows: seq<User>, name: string): (r: Option<nat>)
    ensures r.Some? ==> r.value < |rows| && rows[r.value].username == name
    ensures r.None? ==> forall k :: 0 <= k < |rows| ==> rows[k].username != name
  {
    IndexWhere(rows, (u: User) => u.username == name)
  }

  function ScriptIndex(rows: seq<Script>, id: int): (r: Option<nat>)
    ensures r.Some? ==> r.value < |rows| && rows[r.value].id == id
    ensures r.None? ==> forall k :: 0 <= k < |rows| ==> rows[k].id != id
  {
    IndexWhere(rows, (s: Script) => s.id == id)
  }

  /** The user with this id, if any. */
  function FindUser(rows: seq<User>, id: int): (r: Option<User>)
    ensures r.Some? ==> r.value in rows && r.value.id == id
    ensures r.None? <==> forall k :: 0 <= k < |rows| ==> rows[k].id != id
  {
    match UserIndex(rows, id)
    case Some(k) => Some(rows[k])
    case None => None
  }

  /** The user with this username, if any. */
  function FindUserByName(rows: seq<User>, name: string): (r: Option<User>)
    ensures r.Some? ==> r.value in rows && r.value.username == name
    ensures r.None? <==> !HasUsername(rows, name)
  {
    match UsernameIndex(rows, name)
    case Some(k) => Some(rows[k])
    case None => None
  }

  /** The script with this id, if any. */
  function FindScript(rows: seq<Script>, id: int): (r: Option<Script>)
    ensures r.Some? ==> r.value in rows && r.value.id == id
    ensures r.None? <==> forall k :: 0 <= k < |rows| ==> rows[k].id != id
  {
    match ScriptIndex(rows, id)
    case Some(k) => Some(rows[k])
    case None => None
  }

  predicate HasUsername(rows: seq<User>, name: string)
  {
    exists k :: 0 <= k < |rows| && rows[k].username == name
  }

  // ---------------------------------------------------------------------------
  // Table invariants

  /** Serial ids: positive, below the next value of the sequence, and ascending in table order. */
  predicate UserIdsSerial(rows: seq<User>, next: int)
  {
    && 1 <= next
    && (forall k :: 0 <= k < |rows| ==> 1 <= rows[k].id < next)
    && (forall i, j :: 0 <= i < j < |rows| ==> rows[i].id < rows[j].id)
  }

  predicate ScriptIdsSerial(rows: seq<Script>, next: int)
  {
    && 1 <= next
    && (forall k :: 0 <= k < |rows| ==> 1 <= rows[k].id < next)
    && (forall i, j :: 0 <= i < j < |rows| ==> rows[i].id < rows[j].id)
  }

  /** The `unique()` constraint on `users.username`. */
  predicate UsernamesUnique(rows: seq<User>)
  {
    forall i, j :: 0 <= i < |rows| && 0 <= j < |rows| && i != j ==> rows[i].username != rows[j].username
  }

  /** Only the bootstrap username holds admin rights. */
  predicate AdminsAreBootstrap(rows: seq<User>)
  {
    forall k :: 0 <= k < |rows| && rows[k].isAdmin ==> rows[k].username == BootstrapUsername
  }

  /** Serial ids identify rows: looking a row's id up finds that very row. */
  lemma FindUserById(rows: seq<User>, next: int, u: User)
    requires UserIdsSerial(rows, next) && u in rows
    ensures FindUser(rows, u.id) == Some(u)
  {
  }

  /** A row appended under a username nobody held is the one that username then finds. */
  lemma {:induction false} FindAppendedUser(rows: seq<User>, u: User)
    requires !HasUsername(rows, u.username)
    ensures FindUserByName(rows + [u], u.username) == Some(u)
  {
    var all := rows + [u];
    assert all[|rows|] == u;
  }

  /** With unique usernames, at most one user is an admin. */
  lemma AtMostOneAdmin(rows: seq<User>, i: nat, j: nat)
    requires UsernamesUnique(rows) && AdminsAreBootstrap(rows)
    requires i < |rows| && j < |rows| && rows[i].isAdmin && rows[j].isAdmin
    ensures i == j
  {
  }

  // ---------------------------------------------------------------------------
  // Records written by the storage operations

  /** What `updateUser` may be asked to set (`Partial<User>` without id and createdAt). */
  datatype UserPatch = UserPatch(
    username: Option<string>,
    password: Option<string>,
    verified: Option<bool>,
    profilePicture: Option<string>,
    isAdmin: Option<bool>)

  /** `.set(updates)`: the given columns take the new values, the others keep theirs. */
  function ApplyPatch(u: User, p: UserPatch): (v: User)
    ensures v.id == u.id
    ensures p == UserPatch(None, None, None, None, None) ==> v == u
    ensures p.username.Some? ==> v.username == p.username.value
    ensures p.username.None? ==> v.username == u.username
    ensures p.password.Some? ==> v.password == p.password.value
    ensures p.password.None? ==> v.password == u.password
    ensures p.verified.Some? ==> v.verified == p.verified.value
    ensures p.verified.None? ==> v.verified == u.verified
    ensures p.profilePicture.Some? ==> v.profilePicture == p.profilePicture.value
    ensures p.profilePicture.None? ==> v.profilePicture == u.profilePicture
    ensures p.isAdmin.Some? ==> v.isAdmin == p.isAdmin.value
    ensures p.isAdmin.None? ==> v.isAdmin == u.isAdmin
  {
    User(u.id,
         p.username.GetOr(u.username),
         p.password.GetOr(u.password),
         p.verified.GetOr(u.verified),
         p.profilePicture.GetOr(u.profilePicture),
         p.isAdmin.GetOr(u.isAdmin))
  }

  /** The row `createUser` stores: the password hashed, and both flags set exactly for the bootstrap name. */
  function CreatedUserRow(id: int, insert: InsertUser, hashed: string): (u: User)
    ensures u.verified <==> insert.username == BootstrapUsername
    ensures u.isAdmin <==> insert.username == BootstrapUsername
    ensures insert.username != BootstrapUsername ==> u.verified == DefaultVerified && u.isAdmin == DefaultIsAdmin
  {
    var bootstrap := insert.username == BootstrapUsername;
    UserRow(id, insert.username, hashed, bootstrap, insert.profilePicture, bootstrap)
  }

  const AdminPassword: string := "fzx"

  /** The administrator `initializeDatabase` creates. */
  function AdminRow(id: int, hashed: string): User
  {
    UserRow(id, BootstrapUsername, hashed, true, Some(""), true)
  }

  const SeedTitle: string := "Auto Game Bot"
  const SeedDescription: string :=
    "A powerful automation script for Roblox games that handles resource collection and combat."
  /** The sample script's Lua source, block by block (`\U{0070}` is the letter p). */
  const SeedCode: string :=
    SeedCodeHeader + SeedCodeBotTable + SeedCodeStart + SeedCodeStop +
    SeedCodeCollect + SeedCodeAttack + SeedCodeReturn
  const SeedCodeHeader: string :=
    "-- Auto Game Bot by Faze\n" +
    "local RunService = game:GetService(\"RunService\")\n" +
    "local Players = game:GetService(\"Players\")\n" +
    "local Player = Players.LocalPlayer\n" +
    "\n"
  const SeedCodeBotTable: string :=
    "local Bot = {}\n" +
    "Bot.Running = false\n" +
    "\n"
  const SeedCodeStart: string :=
    "function Bot:Start()\n" +
    "    self.Running = true\n" +
    "    \n" +
    "    -- Connection that will run every frame\n" +
    "    self.Connection = RunService.RenderStepped:Connect(function(deltaTime)\n" +
    "        if not self.Running then return end\n" +
    "        \n" +
    "        -- Bot logic here\n" +
    "        self:CollectResources()\n" +
    "        self:AttackEnemies()\n" +
    "    end)\n" +
    "    \n" +
    "    \U{0070}rint(\"Bot started successfully!\")\n" +
    "end\n" +
    "\n"
  const SeedCodeStop: string :=
    "function Bot:Stop()\n" +
    "    self.Running = false\n" +
    "    if self.Connection then\n" +
    "        self.Connection:Disconnect()\n" +
    "        self.Connection = nil\n" +
    "    end\n" +
    "    \U{0070}rint(\"Bot stopped\")\n" +
    "end\n" +
    "\n"
  const SeedCodeCollect: string :=
    "function Bot:CollectResources()\n" +
    "    -- Add your resource collection logic here\n" +
    "    local resources = workspace:FindFirstChild(\"Resources\")\n" +
    "    if resources then\n" +
    "        -- Collect nearby resources\n" +
    "    end\n" +
    "end\n" +
    "\n"
  const SeedCodeAttack: string :=
    "function Bot:AttackEnemies()\n" +
    "    -- Add your combat logic here\n" +
    "    local enemies = workspace:FindFirstChild(\"Enemies\")\n" +
    "    if enemies then\n" +
    "        -- Attack nearby enemies\n" +
    "    end\n" +
    "end\n" +
    "\n"
  const SeedCodeReturn: string :=
    "return Bot"

  /** The sample script `initializeDatabase` creates for the administrator. */
  function SeedScript(adminId: int): InsertScript
  {
    InsertScript(SeedTitle, SeedDescription, SeedCode, "lua", "combat", adminId)
  }

  /** Why a write was refused: only the unique constraint on usernames can refuse one here. */
  datatype StoreError = UniqueViolation

  // ---------------------------------------------------------------------------
  // The storage object

  class DatabaseStorage {
    var users: seq<User>
    var scripts: seq<Script>
    var nextUserId: int
    var nextScriptId: int
    /** scrypt, as used by `hashPassword`. */
    const kdf: Credential.Kdf

    ghost predicate Valid()
      reads this
    {
      && UserIdsSerial(users, nextUserId)
      && UsernamesUnique(users)
      && ScriptIdsSerial(scripts, nextScriptId)
    }

    /** An empty database whose serial sequences start at 1. */
    constructor (kdf: Credential.Kdf)
      ensures Valid()
      ensures users == [] && scripts == [] && nextUserId == 1 && nextScriptId == 1 && this.kdf == kdf
    {
      users, scripts := [], [];
      nextUserId, nextScriptId := 1, 1;
      this.kdf := kdf;
    }

    /** `getUser`: the user with this id, if any; reads only. */
    method GetUser(id: int) returns (r: Option<User>)
      ensures r == FindUser(users, id)
    {
      var k := UserIndex(users, id);
      r := if k.Some? then Some(users[k.value]) else None;
    }

    /** `getUserByUsername`: the user with this username, if any; reads only. */
    method GetUserByUsername(username: string) returns (r: Option<User>)
      ensures r == FindUserByName(users, username)
    {
      var k := UsernameIndex(users, username);
      r := if k.Some? then Some(users[k.value]) else None;
    }

    /** `db.insert(users).values(...).returning()`: a fresh serial id, or a unique-constraint violation. */
    method InsertUserRow(username: string, password: string, verified: bool,
                         profilePicture: Option<string>, isAdmin: bool)
      returns (r: Result<User, StoreError>)
      requires Valid()
      modifies this
      ensures Valid()
      ensures scripts == old(scripts) && nextScriptId == old(nextScriptId)
      ensures old(HasUsername(users, username)) ==>
        r == Failure(UniqueViolation) && users == old(users) && nextUserId == old(nextUserId)
      ensures !old(HasUsername(users, username)) ==>
        && r == Success(UserRow(old(nextUserId), username, password, verified, profilePicture, isAdmin))
        && users == old(users) + [r.value]
        && nextUserId == old(nextUserId) + 1
    {
      var existing := UsernameIndex(users, username);
      if existing.Some? {
        return Failure(UniqueViolation);
      }
      var row := UserRow(nextUserId, username, password, verified, profilePicture, isAdmin);
      users := users + [row];
      nextUserId := nextUserId + 1;
      r := Success(row);
    }

    /** `createUser`: stores the hashed password; only the bootstrap name becomes verified and admin. */
    method CreateUser(insert: InsertUser, salt: Credential.Salt) returns (r: Result<User, StoreError>)
      requires Valid()
      modifies this
      ensures Valid()
      ensures AdminsAreBootstrap(old(users)) ==> AdminsAreBootstrap(users)
      ensures scripts == old(scripts) && nextScriptId == old(nextScriptId)
      ensures old(HasUsername(users, insert.username)) ==>
        r == Failure(UniqueViolation) && users == old(users) && nextUserId == old(nextUserId)
      ensures !old(HasUsername(users, insert.username)) ==>
        && r == Success(CreatedUserRow(old(nextUserId), insert, Credential.HashPassword(kdf, insert.password, salt)))
        && users == old(users) + [r.value]
        && nextUserId == old(nextUserId) + 1
    {
      var hashed := Credential.HashPassword(kdf, insert.password, salt);
      var bootstrap := insert.username == BootstrapUsername;
      r := InsertUserRow(insert.username, hashed, bootstrap, insert.profilePicture, bootstrap);
    }

    /** `updateUser`: applies the patch to the user with this id; undefined when there is none or the new username is taken. */
    method UpdateUser(id: int, patch: UserPatch) returns (r: Option<User>)
      requires Valid()
      modifies this
      ensures Valid()
      ensures scripts == old(scripts) && nextUserId == old(nextUserId) && nextScriptId == old(nextScriptId)
      ensures match UserIndex(old(users), id)
        case None => r.None? && users == old(users)
        case Some(k) =>
          var updated := ApplyPatch(old(users)[k], patch);
          if exists j :: 0 <= j < |old(users)| && j != k && old(users)[j].username == updated.username
          then r.None? && users == old(users)
          else r == Some(updated) && users == old(users)[k := updated]
    {
      var k := UserIndex(users, id);
      if k.None? {
        return None;
      }
      var updated := ApplyPatch(users[k.value], patch);
      var holder := UsernameIndex(users, updated.username);
      if holder.Some? && holder.value != k.value {
        return None;
      }
      users := users[k.value := updated];
      r := Some(updated);
    }

    /** `updateUserVerification`: sets `verified` of the user with this id and nothing else. */
    method UpdateUserVerification(id: int, verified: bool) returns (r: Option<User>)
      requires Valid()
      modifies this
      ensures Valid()
      ensures AdminsAreBootstrap(old(users)) ==> AdminsAreBootstrap(users)
      ensures scripts == old(scripts) && nextUserId == old(nextUserId) && nextScriptId == old(nextScriptId)
      ensures match UserIndex(old(users), id)
        case None => r.None? && users == old(users)
        case Some(k) =>
          var updated := old(users)[k].(verified := verified);
          r == Some(updated) && users == old(users)[k := updated]
    {
      r := UpdateUser(id, UserPatch(None, None, Some(verified), None, None));
    }

    /** `updateUserProfilePicture`: sets `profilePicture` of the user with this id and nothing else. */
    method UpdateUserProfilePicture(id: int, profilePicture: string) returns (r: Option<User>)
      requires Valid()
      modifies this
      ensures Valid()
      ensures AdminsAreBootstrap(old(users)) ==> AdminsAreBootstrap(users)
      ensures scripts == old(scripts) && nextUserId == old(nextUserId) && nextScriptId == old(nextScriptId)
      ensures match UserIndex(old(users), id)
        case None => r.None? && users == old(users)
        case Some(k) =>
          var updated := old(users)[k].(profilePicture := profilePicture);
          r == Some(updated) && users == old(users)[k := updated]
    {
      r := UpdateUser(id, UserPatch(None, None, None, Some(profilePicture), None));
    }

    /** `getScripts`: every script, in ascending id order; reads only. */
    method GetScripts() returns (r: seq<Script>)
      requires Valid()
      ensures r == scripts
      ensures forall i, j :: 0 <= i < j < |r| ==> r[i].id < r[j].id
    {
      r := scripts;
    }

    /** `getScriptById`: the script with this id, if any; reads only. */
    method GetScriptById(id: int) returns (r: Option<Script>)
      ensures r == FindScript(scripts, id)
    {
      var k := ScriptIndex(scripts, id);
      r := if k.Some? then Some(scripts[k.value]) else None;
    }

    /** `getScriptsByUserId`: exactly the scripts this user owns (none is an empty list); reads only. */
    method GetScriptsByUserId(userId: int) returns (r: seq<Script>)
      ensures forall s :: s in r <==> s in scripts && s.userId == userId
      ensures r == [] <==> forall k :: 0 <= k < |scripts| ==> scripts[k].userId != userId
    {
      r := Filter(scripts, (s: Script) => s.userId == userId);
      if r != [] {
        assert r[0] in r;
      }
    }

    /** `createScript`: stores the picked columns under a fresh serial id, with the column defaults. */
    method CreateScript(insert: InsertScript) returns (s: Script)
      requires Valid()
      modifies this
      ensures Valid()
      ensures AdminsAreBootstrap(old(users)) ==> AdminsAreBootstrap(users)
      ensures users == old(users) && nextUserId == old(nextUserId)
      ensures s == ScriptRow(old(nextScriptId), insert)
      ensures scripts == old(scripts) + [s] && nextScriptId == old(nextScriptId) + 1
    {
      s := ScriptRow(nextScriptId, insert);
      scripts := scripts + [s];
      nextScriptId := nextScriptId + 1;
    }

    /**
     * `updateScriptDownloads`: reads the script, then writes back its download count
     * (null counting as 0) plus one; undefined and no change when there is no such script.
     */
    method UpdateScriptDownloads(id: int) returns (r: Option<Script>)
      requires Valid()
      modifies this
      ensures Valid()
      ensures AdminsAreBootstrap(old(users)) ==> AdminsAreBootstrap(users)
      ensures users == old(users) && nextUserId == old(nextUserId) && nextScriptId == old(nextScriptId)
      ensures match ScriptIndex(old(scripts), id)
        case None => r.None? && scripts == old(scripts)
        case Some(k) =>
          var updated := old(scripts)[k].(downloads := Some(OrZero(old(scripts)[k].downloads) + 1));
          r == Some(updated) && scripts == old(scripts)[k := updated]
    {
      var current := GetScriptById(id);
      if current.None? {
        return None;
      }
      var k := ScriptIndex(scripts, id);
      assert k.Some?;
      var updated := scripts[k.value].(downloads := Some(OrZero(current.value.downloads) + 1));
      scripts := scripts[k.value := updated];
      r := Some(updated);
    }

    /**
     * `initializeDatabase`: when no user is named "Faze", creates that administrator
     * (password "fzx") and one sample script owned by it; otherwise changes nothing.
     */
    method InitializeDatabase(salt: Credential.Salt)
      requires Valid()
      modifies this
      ensures Valid()
      ensures AdminsAreBootstrap(old(users)) ==> AdminsAreBootstrap(users)
      ensures HasUsername(users, BootstrapUsername)
      ensures old(HasUsername(users, BootstrapUsername)) ==>
        && users == old(users) && scripts == old(scripts)
        && nextUserId == old(nextUserId) && nextScriptId == old(nextScriptId)
      ensures !old(HasUsername(users, BootstrapUsername)) ==>
        && users == old(users) + [AdminRow(old(nextUserId), Credential.HashPassword(kdf, AdminPassword, salt))]
        && scripts == old(scripts) + [ScriptRow(old(nextScriptId), SeedScript(old(nextUserId)))]
        && nextUserId == old(nextUserId) + 1 && nextScriptId == old(nextScriptId) + 1
    {
      var admin := GetUserByUsername(BootstrapUsername);
      if admin.None? {
        var hashed := Credential.HashPassword(kdf, AdminPassword, salt);
        var inserted := InsertUserRow(BootstrapUsername, hashed, true, Some(""), true);
        assert inserted.Success?;
        var row := inserted.value;
        assert users[|users| - 1] == row;
        var seed := SeedScript(row.id);
        var _ := CreateScript(seed);
        assert users[|users| - 1].username == BootstrapUsername;
      } else {
        assert admin.value in users;
      }
    }
  }
}
