/**
 * The script and user routes. Each handler takes the request's parts it reads
 * (path parameter text, body fields, the logged-in user if any) and answers with a
 * `Response`; the handlers that write go through the storage methods.
 */
module Routes {
  import opened Wrappers
  import opened Schema
  import opened Http
  import Storage
  import JsString

  // A path parameter goes through `parseInt`; `None` there is NaN.

  /** The columns `insertScriptSchema` requires that a body lacks, in the schema's order. */
  function MissingScriptFields(f: ScriptFields): (missing: seq<string>)
    ensures missing == [] <==> ParseInsertScript(f).Some?
    ensures |missing| <= 6
  {
    (if f.title.None? then ["title"] else [])
    + (if f.description.None? then ["description"] else [])
    + (if f.code.None? then ["code"] else [])
    + (if f.language.None? then ["language"] else [])
    + (if f.category.None? then ["category"] else [])
    + (if f.userId.None? then ["userId"] else [])
  }

  /** GET /api/scripts: every script, ascending by id. Reads only. */
  method GetScripts(store: Storage.DatabaseStorage) returns (resp: Response)
    requires store.Valid()
    ensures resp == Ok(ScriptListJson(store.scripts))
    ensures forall i, j :: 0 <= i < j < |resp.body.scripts| ==> resp.body.scripts[i].id < resp.body.scripts[j].id
  {
    var scripts := store.GetScripts();
    resp := Ok(ScriptListJson(scripts));
  }

  /** GET /api/scripts/:id: 400 when the id is not a number, 404 when no script has it, else the script. Reads only. */
  method GetScript(store: Storage.DatabaseStorage, idParam: string) returns (resp: Response)
    ensures match JsString.ParseInt(idParam)
      case None => resp == Error(400, "Invalid script ID")
      case Some(id) =>
        match Storage.FindScript(store.scripts, id)
        case None => resp == Error(404, "Script not found")
        case Some(s) => resp == Ok(ScriptJson(s))
  {
    var id := JsString.ParseInt(idParam);
    if id.None? {
      return Error(400, "Invalid script ID");
    }
    var script := store.GetScriptById(id.value);
    if script.None? {
      return Error(404, "Script not found");
    }
    resp := Ok(ScriptJson(script.value));
  }

  /** GET /api/scripts/user/:userId: 400 when the id is not a number, else exactly that user's scripts. Reads only. */
  method GetScriptsByUser(store: Storage.DatabaseStorage, userIdParam: string) returns (resp: Response)
    ensures JsString.ParseInt(userIdParam).None? <==> resp == Error(400, "Invalid user ID")
    ensures JsString.ParseInt(userIdParam).Some? ==>
      && resp.status == 200 && resp.body.ScriptListJson?
      && forall s :: s in resp.body.scripts <==> s in store.scripts && s.userId == JsString.ParseInt(userIdParam).value
  {
    var userId := JsString.ParseInt(userIdParam);
    if userId.None? {
      return Error(400, "Invalid user ID");
    }
    var scripts := store.GetScriptsByUserId(userId.value);
    resp := Ok(ScriptListJson(scripts));
  }

  /**
   * POST /api/scripts: 401 unless logged in; the owner is always the logged-in user,
   * whatever `userId` the body names; 400 listing the missing columns; otherwise the
   * stored script with 201.
   */
  method CreateScript(store: Storage.DatabaseStorage, reqUser: Option<User>, body: ScriptFields)
    returns (resp: Response)
    requires store.Valid()
    modifies store
    ensures store.Valid()
    ensures store.users == old(store.users) && store.nextUserId == old(store.nextUserId)
    ensures store.nextScriptId == old(store.nextScriptId) + (if resp.status == 201 then 1 else 0)
    ensures reqUser.None? ==> resp == Error(401, "Authentication required") && store.scripts == old(store.scripts)
    ensures reqUser.Some? ==>
      var data := body.(userId := Some(reqUser.value.id));
      match ParseInsertScript(data)
      case None =>
        resp == Response(400, ValidationErrorJson(MissingScriptFields(data))) && store.scripts == old(store.scripts)
      case Some(insert) =>
        var s := ScriptRow(old(store.nextScriptId), insert);
        && s.userId == reqUser.value.id
        && resp == Response(201, ScriptJson(s))
        && store.scripts == old(store.scripts) + [s]
  {
    if reqUser.None? {
      return Error(401, "Authentication required");
    }
    var scriptData := body.(userId := Some(reqUser.value.id));
    var validatedData := ParseInsertScript(scriptData);
    if validatedData.None? {
      return Response(400, ValidationErrorJson(MissingScriptFields(scriptData)));
    }
    var script := store.CreateScript(validatedData.value);
    resp := Response(201, ScriptJson(script));
  }

  /** POST /api/scripts/:id/download: 400 / 404 as for reading, otherwise the script with one more download. */
  method RecordDownload(store: Storage.DatabaseStorage, idParam: string) returns (resp: Response)
    requires store.Valid()
    modifies store
    ensures store.Valid()
    ensures store.users == old(store.users)
    ensures store.nextUserId == old(store.nextUserId) && store.nextScriptId == old(store.nextScriptId)
    ensures match JsString.ParseInt(idParam)
      case None => resp == Error(400, "Invalid script ID") && store.scripts == old(store.scripts)
      case Some(id) =>
        match Storage.ScriptIndex(old(store.scripts), id)
        case None => resp == Error(404, "Script not found") && store.scripts == old(store.scripts)
        case Some(k) =>
          var s := old(store.scripts)[k];
          && resp == Ok(ScriptJson(s.(downloads := Some(OrZero(s.downloads) + 1))))
          && store.scripts == old(store.scripts)[k := resp.body.script]
  {
    var id := JsString.ParseInt(idParam);
    if id.None? {
      return Error(400, "Invalid script ID");
    }
    var script := store.UpdateScriptDownloads(id.value);
    if script.None? {
      return Error(404, "Script not found");
    }
    resp := Ok(ScriptJson(script.value));
  }

  /** GET /api/users/check-username/:username: whether no user holds the name. Reads only. */
  method CheckUsernameParam(store: Storage.DatabaseStorage, username: string) returns (resp: Response)
    ensures resp == Ok(AvailabilityJson(!Storage.HasUsername(store.users, username)))
  {
    var user := store.GetUserByUsername(username);
    resp := Ok(AvailabilityJson(user.None?));
  }

  /**
   * POST /api/users/:id/profile-picture: 401 unless logged in, 400 for a bad id,
   * 403 unless the id is the caller's own, 400 without a non-empty picture, 404 for
   * an unknown user, else the updated user without its password.
   */
  method UpdateProfilePicture(store: Storage.DatabaseStorage, reqUser: Option<User>, idParam: string,
                              profilePicture: Option<string>)
    returns (resp: Response)
    requires store.Valid()
    modifies store
    ensures store.Valid()
    ensures Storage.AdminsAreBootstrap(old(store.users)) ==> Storage.AdminsAreBootstrap(store.users)
    ensures store.scripts == old(store.scripts)
    ensures store.nextUserId == old(store.nextUserId) && store.nextScriptId == old(store.nextScriptId)
    ensures resp.status != 200 ==> store.users == old(store.users)
    ensures reqUser.None? ==> resp == Error(401, "Authentication required")
    ensures reqUser.Some? && JsString.ParseInt(idParam).None? ==> resp == Error(400, "Invalid user ID")
    ensures reqUser.Some? && JsString.ParseInt(idParam).Some? && JsString.ParseInt(idParam).value != reqUser.value.id ==>
      resp == Error(403, "Not authorized to update this user's profile")
    ensures reqUser.Some? && JsString.ParseInt(idParam) == Some(reqUser.value.id) ==>
      if profilePicture.None? || profilePicture.value == "" then
        resp == Error(400, "Profile picture URL is required")
      else match Storage.UserIndex(old(store.users), reqUser.value.id)
        case None => resp == Error(404, "User not found")
        case Some(k) =>
          var updated := old(store.users)[k].(profilePicture := profilePicture.value);
          resp == Ok(UserJson(StripPassword(updated))) && store.users == old(store.users)[k := updated]
  {
    if reqUser.None? {
      return Error(401, "Authentication required");
    }
    var id := JsString.ParseInt(idParam);
    if id.None? {
      return Error(400, "Invalid user ID");
    }
    if reqUser.value.id != id.value {
      return Error(403, "Not authorized to update this user's profile");
    }
    if profilePicture.None? || profilePicture.value == "" {
      return Error(400, "Profile picture URL is required");
    }
    var user := store.UpdateUserProfilePicture(id.value, profilePicture.value);
    if user.None? {
      return Error(404, "User not found");
    }
    resp := Ok(UserJson(StripPassword(user.value)));
  }

  /** GET /api/users/:id: 400 for a bad id, 404 for an unknown user, else the user without its password. Reads only. */
  method GetUserById(store: Storage.DatabaseStorage, idParam: string) returns (resp: Response)
    ensures match JsString.ParseInt(idParam)
      case None => resp == Error(400, "Invalid user ID")
      case Some(id) =>
        match Storage.FindUser(store.users, id)
        case None => resp == Error(404, "User not found")
        case Some(u) => resp == Ok(UserJson(StripPassword(u)))
  {
    var id := JsString.ParseInt(idParam);
    if id.None? {
      return Error(400, "Invalid user ID");
    }
    var user := store.GetUser(id.value);
    if user.None? {
      return Error(404, "User not found");
    }
    resp := Ok(UserJson(StripPassword(user.value)));
  }

  /**
   * POST /api/users/:id/verify: 401 unless logged in, 403 unless the caller is an
   * admin (checked before the id), 400 for a bad id, 400 without a `verified` value,
   * 404 for an unknown user, else the user with its new status, without its password.
   */
  method VerifyUser(store: Storage.DatabaseStorage, reqUser: Option<User>, idParam: string, verified: Option<bool>)
    returns (resp: Response)
    requires store.Valid()
    modifies store
    ensures store.Valid()
    ensures Storage.AdminsAreBootstrap(old(store.users)) ==> Storage.AdminsAreBootstrap(store.users)
    ensures store.scripts == old(store.scripts)
    ensures store.nextUserId == old(store.nextUserId) && store.nextScriptId == old(store.nextScriptId)
    ensures resp.status != 200 ==> store.users == old(store.users)
    ensures reqUser.None? ==> resp == Error(401, "Authentication required")
    ensures reqUser.Some? && !reqUser.value.isAdmin ==> resp == Error(403, "Only admins can verify users")
    ensures reqUser.Some? && reqUser.value.isAdmin ==>
      match JsString.ParseInt(idParam)
      case None => resp == Error(400, "Invalid user ID")
      case Some(id) =>
        if verified.None? then resp == Error(400, "Verified status is required")
        else match Storage.UserIndex(old(store.users), id)
          case None => resp == Error(404, "User not found")
          case Some(k) =>
            var updated := old(store.users)[k].(verified := verified.value);
            resp == Ok(UserJson(StripPassword(updated))) && store.users == old(store.users)[k := updated]
  {
    if reqUser.None? {
      return Error(401, "Authentication required");
    }
    if !reqUser.value.isAdmin {
      return Error(403, "Only admins can verify users");
    }
    var id := JsString.ParseInt(idParam);
    if id.None? {
      return Error(400, "Invalid user ID");
    }
    if verified.None? {
      return Error(400, "Verified status is required");
    }
    var user := store.UpdateUserVerification(id.value, verified.value);
    if user.None? {
      return Error(404, "User not found");
    }
    resp := Ok(UserJson(StripPassword(user.value)));
  }
}
