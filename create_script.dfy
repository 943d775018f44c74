/**
 * The script submission page: the form schema's bounds, the payload sent to
 * POST /api/scripts, and the code and language handlers that drive the preview.
 */
module CreateScriptPage {
  import opened Wrappers
  import opened Schema
  import JsString

  /**
   * A zod `.min(min).max(max)` rule on a string: between `min` and `max` code units.
   * In characters that is at least half of `min`, and exactly the range when every
   * character is in the Basic Multilingual Plane.
   */
  function WithinLength(s: string, min: nat, max: nat): (ok: bool)
    ensures ok ==> min <= 2 * |s| && |s| <= max
    ensures JsString.InBmp(s) ==> (ok <==> min <= |s| <= max)
  {
    JsString.JsLengthIfBmp(s);
    min <= JsString.JsLength(s) <= max
  }

  datatype ScriptFormValues = ScriptFormValues(
    title: string,
    description: string,
    code: string,
    language: string,
    category: string)

  /** `scriptSchema`. */
  function ScriptFormAccepts(v: ScriptFormValues): (ok: bool)
    ensures JsString.InBmp(v.title) && JsString.InBmp(v.description) && JsString.InBmp(v.code) ==>
      (ok <==> && 5 <= |v.title| <= 100 && 20 <= |v.description| <= 1000 && 10 <= |v.code| <= 50000
               && v.language != "" && v.category != "")
  {
    && WithinLength(v.title, 5, 100)
    && WithinLength(v.description, 20, 1000)
    && WithinLength(v.code, 10, 50000)
    && JsString.JsLength(v.language) >= 1
    && JsString.JsLength(v.category) >= 1
  }

  /** An accepted form has a title of 3 to 100, a description of 10 to 1000, code of 5 to 50000 characters, and a language and a category. */
  lemma AcceptedFormBounds(v: ScriptFormValues)
    requires ScriptFormAccepts(v)
    ensures 3 <= |v.title| <= 100 && 10 <= |v.description| <= 1000 && 5 <= |v.code| <= 50000
    ensures v.language != "" && v.category != ""
  {
  }

  /**
   * The mutation's payload: fails before any request without a logged-in user;
   * otherwise the form values plus the user's id as `userId`.
   */
  function BuildPayload(v: ScriptFormValues, userId: Option<int>): (r: Result<ScriptFields, string>)
    ensures userId.None? <==> r == Failure("You must be logged in to create a script")
    ensures userId.Some? ==>
      r.Success? && ParseInsertScript(r.value) == Some(InsertScript(v.title, v.description, v.code, v.language, v.category, userId.value))
    ensures userId.Some? ==> r.value.id.None? && r.value.downloads.None? && r.value.rating.None?
  {
    if userId.None? then Failure("You must be logged in to create a script")
    else Success(ScriptFields(None, Some(v.title), Some(v.description), Some(v.code), Some(v.language),
                              Some(v.category), Some(userId.value), None, None))
  }

  /**
   * What the server stores for a payload the page sends is the form's own values,
   * owned by the logged-in user.
   */
  lemma ServerStoresFormValues(v: ScriptFormValues, userId: int)
    ensures var data := BuildPayload(v, Some(userId)).value.(userId := Some(userId));
      ParseInsertScript(data) == Some(InsertScript(v.title, v.description, v.code, v.language, v.category, userId))
  {
  }

  /** The form's code and language fields and the preview shown beside them. */
  class CreateScriptForm {
    var code: string
    var language: string
    var previewCode: string
    var previewLanguage: string

    /** The preview language is always in lower case. */
    ghost predicate Valid()
      reads this
    {
      JsString.AsciiLower(previewLanguage) == previewLanguage
    }

    constructor ()
      ensures Valid()
      ensures code == "" && language == "" && previewCode == "" && previewLanguage == "javascript"
    {
      code, language, previewCode, previewLanguage := "", "", "", "javascript";
    }

    /** `handleCodeChange`: the field and the preview both take the new code. */
    method HandleCodeChange(value: string)
      requires Valid()
      modifies this
      ensures Valid()
      ensures code == value && previewCode == value
      ensures language == old(language) && previewLanguage == old(previewLanguage)
    {
      code := value;
      previewCode := value;
    }

    /** `handleLanguageChange`: the field takes the value, the preview its lower-case form. */
    method HandleLanguageChange(value: string)
      requires Valid()
      modifies this
      ensures Valid()
      ensures language == value && previewLanguage == JsString.AsciiLower(value)
      ensures code == old(code) && previewCode == old(previewCode)
    {
      language := value;
      previewLanguage := JsString.AsciiLower(value);
      JsString.AsciiLowerIdempotent(value);
    }
  }
}
