/** The script card: the code preview and the conditions for showing the rating and the author. */
module ScriptCard {
  import opened Wrappers
  import opened Schema
  import JsString

  function Min(a: int, b: int): int
  {
    if a <= b then a else b
  }

  /** `code.split('\n').slice(0, 6).join('\n')`. */
  function PreviewCode(code: string): (preview: string)
    ensures preview <= code
  {
    var lines := JsString.Split(code, '\n');
    JsString.JoinPrefix(lines, '\n', Min(6, |lines|));
    JsString.JoinSplit(code, '\n');
    JsString.Join(lines[..Min(6, |lines|)], '\n')
  }

  /**
   * The preview is the first six lines (or all lines when there are fewer): it begins
   * the code, holds at most five line breaks, and splits back into those lines.
   */
  lemma {:induction false} PreviewIsFirstLines(code: string)
    ensures var lines := JsString.Split(code, '\n');
      JsString.Split(PreviewCode(code), '\n') == lines[..Min(6, |lines|)]
    ensures PreviewCode(code) <= code
    ensures JsString.Count(PreviewCode(code), '\n') <= 5
  {
    var lines := JsString.Split(code, '\n');
    var k := Min(6, |lines|);
    var first := lines[..k];
    assert forall i :: 0 <= i < |first| ==> '\n' !in first[i] by {
      forall i | 0 <= i < |first| ensures '\n' !in first[i] {
        assert first[i] == lines[i];
      }
    }
    JsString.SplitJoin(first, '\n');
    JsString.CountJoin(first, '\n');
    JsString.JoinPrefix(lines, '\n', k);
    JsString.JoinSplit(code, '\n');
  }

  /** Code of at most six lines is shown whole. */
  lemma {:induction false} ShortCodeShownWhole(code: string)
    requires JsString.Count(code, '\n') <= 5
    ensures PreviewCode(code) == code
  {
    var lines := JsString.Split(code, '\n');
    assert lines[..Min(6, |lines|)] == lines;
    JsString.JoinSplit(code, '\n');
  }

  /** `(script.rating || 0) > 0`. */
  function ShowRating(rating: Option<int>): (shown: bool)
    ensures shown <==> rating.Some? && rating.value > 0
  {
    OrZero(rating) > 0
  }

  /** A script as stored on creation shows no rating badge. */
  lemma NewScriptShowsNoRating(id: int, insert: InsertScript)
    ensures !ShowRating(ScriptRow(id, insert).rating)
  {
  }

  /**
   * `showAuthor && author`: `showAuthor` defaults to true when the prop is omitted,
   * and the author's record must have loaded.
   */
  function ShowAuthorBlock(showAuthor: Option<bool>, author: Option<PublicUser>): (shown: bool)
    ensures shown <==> showAuthor != Some(false) && author.Some?
  {
    showAuthor.GetOr(true) && author.Some?
  }
}
