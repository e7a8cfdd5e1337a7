/** `getStudentPhoto` of utils/urlHelper.js: the URL the app shows for a
    stored photo path. */
module UrlHelper {
  import opened Common

  const BASE_URL := "https://tuition-mobile-app-backend.onrender.com"
  const AVATAR_SERVICE := "https://ui-avatars.com/api/"
  const DEFAULT_AVATAR := AVATAR_SERVICE + "?name=User&background=6C5CE7&color=fff"

  predicate StartsWithSlash(p: string)
  {
    |p| > 0 && p[0] == '/'
  }

  /** A missing or empty path gives the avatar URL; any other path is put
      under BASE_URL with exactly one added slash when it has none. */
  function GetStudentPhoto(photoPath: Option<string>): (url: string)
    ensures !Filled(photoPath) ==> url == DEFAULT_AVATAR
    ensures Filled(photoPath) ==>
      && BASE_URL + "/" <= url
      && |photoPath.value| < |url|
      && url[|url| - |photoPath.value|..] == photoPath.value
    ensures Filled(photoPath) && StartsWithSlash(photoPath.value) ==> url == BASE_URL + photoPath.value
    ensures Filled(photoPath) && !StartsWithSlash(photoPath.value) ==> url == BASE_URL + "/" + photoPath.value
  {
    if !Filled(photoPath) then DEFAULT_AVATAR
    else
      var path := photoPath.value;
      var cleanPath := if StartsWithSlash(path) then path else "/" + path;
      assert (BASE_URL + cleanPath)[|BASE_URL + cleanPath| - |path|..] == path;
      BASE_URL + cleanPath
  }

  /** Adding the missing slash first changes nothing. */
  lemma SlashNormalised(p: string)
    requires p != "" && !StartsWithSlash(p)
    ensures GetStudentPhoto(Some(p)) == GetStudentPhoto(Some("/" + p))
  {
    assert StartsWithSlash("/" + p);
    assert BASE_URL + "/" + p == BASE_URL + ("/" + p);
  }

  /** The avatar is shown exactly when there is no path: a photo URL never
      equals the avatar URL, since the two hosts differ. */
  lemma AvatarOnlyWithoutPath(photoPath: Option<string>)
    ensures GetStudentPhoto(photoPath) == DEFAULT_AVATAR <==> !Filled(photoPath)
  {
    if Filled(photoPath) {
      var url := GetStudentPhoto(photoPath);
      assert url[8] == BASE_URL[8] == 't';
      assert DEFAULT_AVATAR[8] == AVATAR_SERVICE[8] == 'u';
    }
  }

  /** The path is recovered from the URL by dropping BASE_URL. */
  function PathOf(url: string): string
    requires |url| >= |BASE_URL|
  {
    url[|BASE_URL|..]
  }

  lemma {:induction false} PathRoundTrip(p: string)
    requires StartsWithSlash(p)
    ensures PathOf(GetStudentPhoto(Some(p))) == p
  {
    assert (BASE_URL + p)[|BASE_URL|..] == p;
  }
}
