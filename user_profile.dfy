/**
 * The profile page's statistics and controls: the number of scripts, the total of
 * their downloads, whether the profile is the viewer's own, the upload guard, and
 * the empty state. A list that has not loaded is `None`.
 */
module UserProfile {
  import opened Wrappers
  import opened Schema

  /** `scripts?.length || 0`. */
  function ScriptCount(scripts: Option<seq<Script>>): (n: nat)
    ensures scripts.None? ==> n == 0
    ensures scripts.Some? ==> n == |scripts.value|
  {
    if scripts.Some? && |scripts.value| != 0 then |scripts.value| else 0
  }

  /** The reference sum of downloads, a null count counting as 0. */
  function SumDownloads(scripts: seq<Script>): (total: int)
    ensures (forall i :: 0 <= i < |scripts| ==> OrZero(scripts[i].downloads) >= 0) ==> total >= 0
  {
    if scripts == [] then 0 else OrZero(scripts[0].downloads) + SumDownloads(scripts[1..])
  }

  /** `reduce((total, script) => total + (script.downloads || 0), acc)`: a left fold. */
  function FoldDownloads(acc: int, scripts: seq<Script>): (total: int)
    ensures total == acc + SumDownloads(scripts)
    decreases |scripts|
  {
    if scripts == [] then acc else FoldDownloads(acc + OrZero(scripts[0].downloads), scripts[1..])
  }

  /** `scripts?.reduce(..., 0) || 0`: the sum of the downloads, 0 for no list or an empty one. */
  function TotalDownloads(scripts: Option<seq<Script>>): (total: int)
    ensures scripts.None? ==> total == 0
    ensures scripts.Some? ==> total == SumDownloads(scripts.value)
  {
    if scripts.None? then 0
    else
      FoldDownloads(0, scripts.value)
  }

  /** The sum over two lists is the sum of the sums. */
  lemma {:induction false} SumDownloadsAppend(a: seq<Script>, b: seq<Script>)
    ensures SumDownloads(a + b) == SumDownloads(a) + SumDownloads(b)
  {
    if a != [] {
      assert (a + b)[0] == a[0] && (a + b)[1..] == a[1..] + b;
      SumDownloadsAppend(a[1..], b);
    } else {
      assert a + b == b;
    }
  }

  /** With no negative count, the total is at least each script's count. */
  lemma {:induction false} SumDownloadsBounds(scripts: seq<Script>, k: nat)
    requires forall i :: 0 <= i < |scripts| ==> OrZero(scripts[i].downloads) >= 0
    requires k < |scripts|
    ensures SumDownloads(scripts) >= OrZero(scripts[k].downloads) >= 0
  {
    if k == 0 {
      assert forall i :: 0 <= i < |scripts[1..]| ==> scripts[1..][i] == scripts[i + 1];
    } else {
      SumDownloadsBounds(scripts[1..], k - 1);
    }
  }

  /** One more download of one script raises the total by exactly one. */
  lemma {:induction false} OneMoreDownload(scripts: seq<Script>, k: nat)
    requires k < |scripts|
    ensures var s := scripts[k];
      SumDownloads(scripts[k := s.(downloads := Some(OrZero(s.downloads) + 1))]) == SumDownloads(scripts) + 1
  {
    var s := scripts[k];
    var after := scripts[k := s.(downloads := Some(OrZero(s.downloads) + 1))];
    if k == 0 {
      assert after[1..] == scripts[1..];
    } else {
      assert after[1..] == scripts[1..][k - 1 := s.(downloads := Some(OrZero(s.downloads) + 1))];
      OneMoreDownload(scripts[1..], k - 1);
    }
  }

  /** `currentUser && user && currentUser.id === user.id`. */
  function IsOwnProfile(currentUser: Option<PublicUser>, viewed: Option<PublicUser>): (own: bool)
    ensures own <==> currentUser.Some? && viewed.Some? && currentUser.value.id == viewed.value.id
  {
    match (currentUser, viewed)
    case (Some(c), Some(v)) => c.id == v.id
    case _ => false
  }

  /** `handleUpload`: an empty URL sends nothing; any other URL is sent as the new picture. */
  function HandleUpload(imageUrl: string): (request: Option<string>)
    ensures request.None? <==> imageUrl == ""
    ensures request.Some? ==> request.value == imageUrl
  {
    if imageUrl == "" then None else Some(imageUrl)
  }

  /** `scripts && scripts.length > 0` fails: the empty state shows exactly when the count is 0. */
  function ShowEmptyState(scripts: Option<seq<Script>>): (empty: bool)
    ensures empty <==> ScriptCount(scripts) == 0
  {
    !(scripts.Some? && |scripts.value| > 0)
  }
}
