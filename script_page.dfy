/**
 * The script detail page: the file extension chosen for a language, the name a
 * downloaded file gets, the line count in the footer, and the download handler.
 */
module ScriptPage {
  import opened Wrappers
  import opened Schema
  import JsString

  /** The languages the `extensions` record of `getFileExtension` lists, in lower case. */
  const ListedLanguages: set<string> :=
    {"javascript", "typescript", "python", "ruby", "php", "java", "csharp", "cpp", "go", "rust", "bash", "powershell"}

  const DefaultExtension: string := "txt"

  /** The `extensions` record: the extension of a listed (lower-case) language. */
  function ExtensionFor(key: string): (r: Option<string>)
    ensures r.Some? <==> key in ListedLanguages
  {
    if key == "javascript" then Some("js")
    else if key == "typescript" then Some("ts")
    else if key == "python" then Some("py")
    else if key == "ruby" then Some("rb")
    else if key == "php" then Some("php")
    else if key == "java" then Some("java")
    else if key == "csharp" then Some("cs")
    else if key == "cpp" then Some("cpp")
    else if key == "go" then Some("go")
    else if key == "rust" then Some("rs")
    else if key == "bash" then Some("sh")
    else if key == "powershell" then Some("ps1")
    else None
  }

  /** Every extension the page can choose. */
  const Extensions: set<string> := {"js", "ts", "py", "rb", "php", "java", "cs", "cpp", "go", "rs", "sh", "ps1", "txt"}

  /** An extension is not empty and holds no whitespace and no '.'. */
  predicate PlainExtension(ext: string)
  {
    ext != "" && forall i :: 0 <= i < |ext| ==> !JsString.IsJsWhitespace(ext[i]) && ext[i] != '.'
  }

  lemma ExtensionsArePlain(ext: string)
    requires ext in Extensions
    ensures PlainExtension(ext)
  {
  }

  /**
   * `getFileExtension`: the extension listed for the lower-cased language, and "txt"
   * for a language the record does not list.
   */
  function FileExtension(language: string): (ext: string)
    ensures JsString.AsciiLower(language) in ListedLanguages ==> Some(ext) == ExtensionFor(JsString.AsciiLower(language))
    ensures JsString.AsciiLower(language) !in ListedLanguages ==> ext == DefaultExtension
    ensures ext in Extensions
  {
    ExtensionFor(JsString.AsciiLower(language)).GetOr(DefaultExtension)
  }

  /** Languages that differ only in letter case get the same extension. */
  lemma FileExtensionIgnoresCase(a: string, b: string)
    requires JsString.AsciiLower(a) == JsString.AsciiLower(b)
    ensures FileExtension(a) == FileExtension(b)
  {
  }

  /** The seeded script's language, "lua", is not listed and gets "txt". */
  lemma SeedLanguageGetsTxt()
    ensures FileExtension("lua") == DefaultExtension
  {
  }

  /** The lookup ignores case: "JavaScript" gets "js" like the form's "javascript". */
  lemma JavaScriptGetsJs()
    ensures FileExtension("JavaScript") == "js"
  {
  }

  // ---------------------------------------------------------------------------
  // the record lookup as the page writes it

  /**
   * `extensions[key]` on a plain object also finds what the object inherits. Of
   * Object.prototype's properties only `constructor` and `__proto__` are spelt in
   * lower case; a template literal renders them as the text below. That text is
   * the one-line rendering of `String(Object)`; other engines lay it out over several
   * lines, but every rendering contains a space.
   */
  function RecordLookupAsWritten(key: string): (r: Option<string>)
    ensures key in ListedLanguages ==> r == ExtensionFor(key)
  {
    if key in ListedLanguages then ExtensionFor(key)
    else if key == "constructor" then Some("function Object() { [native code] }")
    else if key == "__proto__" then Some("[object Object]")
    else None
  }

  /** `getFileExtension` with the inherited properties: `extensions[language.toLowerCase()] || "txt"`. */
  function FileExtensionAsWritten(language: string): (ext: string)
    ensures JsString.AsciiLower(language) in ListedLanguages ==> ext == FileExtension(language)
    ensures ext != ""
  {
    RecordLookupAsWritten(JsString.AsciiLower(language)).GetOr(DefaultExtension)
  }

  /** Away from the two inherited names, the page's lookup and the table lookup agree. */
  lemma AsWrittenAgreesOffPrototype(language: string)
    requires JsString.AsciiLower(language) != "constructor" && JsString.AsciiLower(language) != "__proto__"
    ensures FileExtensionAsWritten(language) == FileExtension(language)
  {
  }

  // ---------------------------------------------------------------------------
  // the download filename

  /** `s.replace(/\s+/g, "-")`: every run of whitespace becomes one '-'. */
  function CollapseWhitespace(s: string): (r: string)
    ensures |r| <= |s|
    ensures forall i :: 0 <= i < |r| ==> !JsString.IsJsWhitespace(r[i])
    decreases |s|
  {
    if s == [] then []
    else if JsString.IsJsWhitespace(s[0]) then "-" + CollapseWhitespace(JsString.TrimStart(s[1..]))
    else [s[0]] + CollapseWhitespace(s[1..])
  }

  /** A title without whitespace is kept as it is. */
  lemma {:induction false} CollapseKeepsPlainTitle(s: string)
    requires forall i :: 0 <= i < |s| ==> !JsString.IsJsWhitespace(s[i])
    ensures CollapseWhitespace(s) == s
  {
    if s != [] {
      CollapseKeepsPlainTitle(s[1..]);
    }
  }

  /** Removing a run of whitespace from the front of `w + b`, where `b` does not start with one, leaves `b`. */
  lemma {:induction false} TrimStartRun(w: string, b: string)
    requires forall i :: 0 <= i < |w| ==> JsString.IsJsWhitespace(w[i])
    requires b == [] || !JsString.IsJsWhitespace(b[0])
    ensures JsString.TrimStart(w + b) == b
  {
    if w != [] {
      assert (w + b)[1..] == w[1..] + b;
      TrimStartRun(w[1..], b);
    }
  }

  /** A run of whitespace, then the rest: the run becomes a single '-'. */
  lemma CollapseLeadingRun(w: string, b: string)
    requires |w| >= 1 && forall i :: 0 <= i < |w| ==> JsString.IsJsWhitespace(w[i])
    requires b == [] || !JsString.IsJsWhitespace(b[0])
    ensures CollapseWhitespace(w + b) == "-" + CollapseWhitespace(b)
  {
    var s := w + b;
    assert s[0] == w[0];
    assert s[1..] == w[1..] + b;
    TrimStartRun(w[1..], b);
  }

  /**
   * A word, then a run of whitespace, then the rest: the word is kept, the whole run
   * becomes a single '-', and the rest is collapsed in turn.
   */
  lemma {:induction false} CollapseRun(a: string, w: string, b: string)
    requires forall i :: 0 <= i < |a| ==> !JsString.IsJsWhitespace(a[i])
    requires |w| >= 1 && forall i :: 0 <= i < |w| ==> JsString.IsJsWhitespace(w[i])
    requires b == [] || !JsString.IsJsWhitespace(b[0])
    ensures CollapseWhitespace(a + w + b) == a + "-" + CollapseWhitespace(b)
  {
    if a == [] {
      assert a + w + b == w + b;
      CollapseLeadingRun(w, b);
    } else {
      var s, tail, rest := a + w + b, a[1..], CollapseWhitespace(b);
      assert s[0] == a[0] && s[1..] == tail + w + b;
      assert CollapseWhitespace(s) == [a[0]] + CollapseWhitespace(tail + w + b);
      CollapseRun(tail, w, b);
      JsString.Associative([a[0]], tail + "-", rest);
      JsString.Associative([a[0]], tail, "-");
      assert [a[0]] + tail == a;
    }
  }

  /** Lower-casing an ASCII letter never yields whitespace. */
  lemma AsciiLowerKeepsNonWhitespace(s: string)
    requires forall i :: 0 <= i < |s| ==> !JsString.IsJsWhitespace(s[i])
    ensures forall i :: 0 <= i < |JsString.AsciiLower(s)| ==> !JsString.IsJsWhitespace(JsString.AsciiLower(s)[i])
  {
  }

  /**
   * The `download` attribute: the title with whitespace runs turned into '-',
   * lower-cased, then "." and the extension. It holds no whitespace, and it ends in
   * exactly the extension after its last '.'.
   */
  function DownloadFilename(title: string, language: string): (name: string)
    ensures forall i :: 0 <= i < |name| ==> !JsString.IsJsWhitespace(name[i])
    ensures var ext := FileExtension(language);
      |name| > |ext| && name[|name| - |ext| - 1] == '.' && name[|name| - |ext|..] == ext
  {
    var slug := JsString.AsciiLower(CollapseWhitespace(title));
    AsciiLowerKeepsNonWhitespace(CollapseWhitespace(title));
    ExtensionsArePlain(FileExtension(language));
    slug + "." + FileExtension(language)
  }

  /** The name the page as written gives a script whose language is "Constructor". */
  function DownloadFilenameAsWritten(title: string, language: string): (name: string)
    ensures FileExtensionAsWritten(language) == FileExtension(language) ==> name == DownloadFilename(title, language)
  {
    JsString.AsciiLower(CollapseWhitespace(title)) + "." + FileExtensionAsWritten(language)
  }

  lemma ConstructorNotListed()
    ensures "constructor" !in ListedLanguages
  {
  }

  lemma ConstructorLookup()
    ensures RecordLookupAsWritten("constructor") == Some("function Object() { [native code] }")
  {
    ConstructorNotListed();
  }

  /**
   * Lower-casing "Constructor" gives the name of an inherited property, whose text is
   * taken in its one-line rendering (the exact layout depends on the engine).
   */
  lemma ConstructorExtension()
    ensures FileExtensionAsWritten("Constructor") == "function Object() { [native code] }"
  {
    ConstructorLookup();
  }

  /** With the language "Constructor", the downloaded file's name contains spaces and braces. */
  lemma ConstructorLanguageBreaksFilename(title: string)
    ensures FileExtensionAsWritten("Constructor") == "function Object() { [native code] }"
    ensures ' ' in DownloadFilenameAsWritten(title, "Constructor")
  {
    ConstructorExtension();
    SpaceAfter(JsString.AsciiLower(CollapseWhitespace(title)) + ".");
  }

  lemma SpaceAfter(prefix: string)
    ensures ' ' in prefix + "function Object() { [native code] }"
  {
    assert (prefix + "function Object() { [native code] }")[|prefix| + 8] == ' ';
  }

  // ---------------------------------------------------------------------------

  /** The footer's `code.split('\n').length`: one more than the number of line breaks. */
  function LineCount(code: string): (n: nat)
    ensures n == JsString.Count(code, '\n') + 1
  {
    |JsString.Split(code, '\n')|
  }

  /** What a download produces: the file's name and text, and the script whose count goes up. */
  datatype Download = Download(filename: string, content: string, countedScriptId: int)

  /**
   * `handleDownload`: nothing at all, and no count update, before the script has
   * loaded; otherwise a file named by `DownloadFilename` holding the code, and a
   * download recorded for that script.
   */
  function HandleDownload(script: Option<Script>): (r: Option<Download>)
    ensures r.None? <==> script.None?
    ensures r.Some? ==>
      && r.value.content == script.value.code
      && r.value.countedScriptId == script.value.id
      && r.value.filename == DownloadFilename(script.value.title, script.value.language)
  {
    match script
    case None => None
    case Some(s) => Some(Download(DownloadFilename(s.title, s.language), s.code, s.id))
  }
}
