/**
 * How stored upload paths become URLs: the server origin derived from the
 * API base URL, attachment URLs, profile-image URLs on the profile page and
 * in the notification list, and the display name and image test of an
 * attachment path.
 */
module FileUrls {
  import opened Wrappers
  import opened Strings
  import ApiSlice

  const DefaultOrigin := "http://localhost:5002"

  /** `url.replace(/\/api\/?$/, "")`: a trailing "/api" or "/api/" is removed. */
  function StripApiSuffix(url: string): (r: string)
    ensures EndsWith(url, "/api/") ==> r == url[..|url| - 5]
    ensures EndsWith(url, "/api") ==> r == url[..|url| - 4]
    ensures !EndsWith(url, "/api/") && !EndsWith(url, "/api") ==> r == url
  {
    SuffixesExclusive(url);
    if EndsWith(url, "/api/") then url[..|url| - 5]
    else if EndsWith(url, "/api") then url[..|url| - 4]
    else url
  }

  lemma SuffixesExclusive(url: string)
    ensures !(EndsWith(url, "/api/") && EndsWith(url, "/api"))
  {
    if EndsWith(url, "/api/") {
      assert url[|url| - 1] == "/api/"[4];
    }
  }

  /** An origin followed by the API path, with or without the final slash, gives the origin back. */
  lemma StripApiSuffixRoundTrip(origin: string)
    ensures StripApiSuffix(origin + "/api") == origin
    ensures StripApiSuffix(origin + "/api/") == origin
  {
    assert (origin + "/api")[|origin + "/api"| - 4..] == "/api";
    assert (origin + "/api/")[|origin + "/api/"| - 5..] == "/api/";
    assert (origin + "/api")[..|origin|] == origin;
    assert (origin + "/api/")[..|origin|] == origin;
  }

  /** `apiOrigin` of the question, profile and card components. */
  function ApiOrigin(configured: Option<string>): (o: string)
    ensures (configured.None? || configured.value == "") ==> o == DefaultOrigin
  {
    assert ApiSlice.DefaultBaseUrl == DefaultOrigin + "/api";
    StripApiSuffixRoundTrip(DefaultOrigin);
    StripApiSuffix(ApiSlice.BaseUrl(configured))
  }

  /** `getFileUrl`: nothing for a missing path, absolute URLs kept, others joined to the origin with one slash. */
  function FileUrl(origin: string, path: Option<string>): (r: Option<string>)
    ensures r.None? <==> path.None? || path.value == ""
    ensures r.Some? && StartsWith(path.value, "http") ==> r.value == path.value
    ensures r.Some? && !StartsWith(path.value, "http") ==>
              r.value == origin + (if StartsWith(path.value, "/") then path.value else "/" + path.value)
  {
    match path
    case None => None
    case Some(p) =>
      if p == "" then None
      else if StartsWith(p, "http") then Some(p)
      else if StartsWith(p, "/") then Some(origin + p)
      else Some(origin + "/" + p)
  }

  lemma StartsWithExtends(a: string, b: string, prefix: string)
    requires StartsWith(a, prefix)
    ensures StartsWith(a + b, prefix)
  {
    assert (a + b)[..|prefix|] == a[..|prefix|];
  }

  /** With an http origin, resolving an already resolved path changes nothing. */
  lemma FileUrlIdempotent(origin: string, path: Option<string>)
    requires StartsWith(origin, "http")
    ensures FileUrl(origin, FileUrl(origin, path)) == FileUrl(origin, path)
  {
    var r := FileUrl(origin, path);
    if r.Some? && !StartsWith(path.value, "http") {
      StartsWithExtends(origin, r.value[|origin|..], "http");
      assert origin + r.value[|origin|..] == r.value;
    }
  }

  /** A relative path resolves to the same URL with or without a leading slash. */
  lemma FileUrlLeadingSlash(origin: string, p: string)
    requires p != "" && !StartsWith(p, "http") && !StartsWith(p, "/")
    ensures FileUrl(origin, Some("/" + p)) == FileUrl(origin, Some(p))
  {
    assert ("/" + p)[..1] == "/";
    assert !StartsWith("/" + p, "http") by {
      assert ("/" + p)[0] == '/';
    }
  }

  /** `profileImageUrl` on the profile page. */
  function ProfileImageUrl(origin: string, image: Option<string>): (url: string)
    ensures (image.None? || image.value == "") ==> url == origin + "/uploads/default.jpg"
    ensures image.Some? && StartsWith(image.value, "http") ==> url == image.value
    ensures !(image.Some? && StartsWith(image.value, "http")) ==> StartsWith(url, origin)
  {
    match image
    case None => origin + "/uploads/default.jpg"
    case Some(img) =>
      if img == "" then origin + "/uploads/default.jpg"
      else if StartsWith(img, "http") then img
      else if StartsWith(img, "/") then origin + img
      else if StartsWith(img, "uploads/") then origin + "/" + img
      else origin + "/uploads/" + img
  }

  /** A stored image name resolves alike with or without the "uploads/" directory in front. */
  lemma UploadsPrefixOptional(origin: string, name: string)
    requires name != "" && !StartsWith(name, "http") && !StartsWith(name, "/") && !StartsWith(name, "uploads/")
    ensures ProfileImageUrl(origin, Some("uploads/" + name)) == ProfileImageUrl(origin, Some(name))
  {
    var img := "uploads/" + name;
    assert img[..8] == "uploads/";
    assert img[0] == 'u';
    assert origin + "/" + img == origin + "/uploads/" + name;
  }

  /** For absolute URLs, rooted paths and "uploads/" paths the profile image resolves like any attachment. */
  lemma ProfileImageLikeAttachment(origin: string, img: string)
    requires StartsWith(img, "http") || StartsWith(img, "/") || StartsWith(img, "uploads/")
    ensures FileUrl(origin, Some(img)) == Some(ProfileImageUrl(origin, Some(img)))
  {
    if StartsWith(img, "uploads/") {
      assert img[0] == 'u';
    }
  }

  /** `process.env.REACT_APP_API_URL?.replace(/\/api\/?$/, "") || "http://localhost:5002"` */
  function NavbarOrigin(configured: Option<string>): (o: string)
    ensures o != ""
    ensures configured.None? ==> o == DefaultOrigin
  {
    match configured
    case None => DefaultOrigin
    case Some(u) => if StripApiSuffix(u) != "" then StripApiSuffix(u) else DefaultOrigin
  }

  /** The notification list and the pages use the same origin whenever the pages' origin is not empty. */
  lemma NavbarOriginAgrees(configured: Option<string>)
    requires ApiOrigin(configured) != ""
    ensures NavbarOrigin(configured) == ApiOrigin(configured)
  {
    if configured.Some? && configured.value == "" {
      assert StripApiSuffix("") == "";
    }
  }

  /** The sender's avatar in the notification list, as written: rooted paths are not recognised. */
  function AvatarUrl(configured: Option<string>, image: string): (url: string)
    ensures StartsWith(image, "http") ==> url == image
    ensures !StartsWith(image, "http") ==> StartsWith(url, NavbarOrigin(configured) + "/uploads/")
  {
    var origin := NavbarOrigin(configured);
    if StartsWith(image, "http") then image
    else
      var path := if StartsWith(image, "uploads/") then image else "uploads/" + image;
      assert StartsWith(path, "uploads/");
      assert (origin + "/" + path)[..|origin + "/uploads/"|] == origin + "/" + path[..8];
      origin + "/" + path
  }

  /** A rooted image path gets a second "/uploads/" in front of it in the notification list. */
  lemma AvatarDoublesRootedPath()
    ensures AvatarUrl(None, "/uploads/a.png") == DefaultOrigin + "/uploads/" + "/uploads/a.png"
    ensures ProfileImageUrl(ApiOrigin(None), Some("/uploads/a.png")) == DefaultOrigin + "/uploads/a.png"
    ensures AvatarUrl(None, "/uploads/a.png") != ProfileImageUrl(ApiOrigin(None), Some("/uploads/a.png"))
  {
    AvatarOfRootedPath("/uploads/a.png");
    assert ApiOrigin(None) == DefaultOrigin;
    RootedProfileImage(DefaultOrigin, "/uploads/a.png");
  }

  /** Without a configured URL, a rooted path that is not an "uploads/" path goes under the default "/uploads/". */
  lemma AvatarOfRootedPath(img: string)
    requires img != "" && img[0] == '/'
    ensures AvatarUrl(None, img) == DefaultOrigin + "/uploads/" + img
  {
    assert !StartsWith(img, "http") && !StartsWith(img, "uploads/");
    assert NavbarOrigin(None) == DefaultOrigin;
  }

  /** The profile page appends a rooted path to the origin as it stands. */
  lemma RootedProfileImage(origin: string, img: string)
    requires img != "" && img[0] == '/'
    ensures ProfileImageUrl(origin, Some(img)) == origin + img
  {
    assert !StartsWith(img, "http");
  }

  /** The avatar resolved by the profile page's rule, rooted paths included. */
  function AvatarUrlCorrected(configured: Option<string>, image: string): (url: string)
    ensures image != "" && !StartsWith(image, "/") ==> url == AvatarUrl(configured, image)
  {
    ProfileImageUrl(NavbarOrigin(configured), Some(image))
  }

  /** The corrected avatar is the profile page's image URL for the same stored value. */
  lemma AvatarCorrectedMatchesProfile(configured: Option<string>, image: string)
    requires ApiOrigin(configured) != ""
    ensures AvatarUrlCorrected(configured, image) == ProfileImageUrl(ApiOrigin(configured), Some(image))
    ensures StartsWith(image, "/") ==> AvatarUrlCorrected(configured, image) == ApiOrigin(configured) + image
  {
    NavbarOriginAgrees(configured);
    if StartsWith(image, "/") {
      assert image[0] == '/';
      assert !StartsWith(image, "http");
    }
  }

  /** `path.split("/").pop()`: the text after the last slash. */
  function LastSegment(path: string): (r: string)
    ensures '/' !in r
  {
    var parts := Split(path, '/');
    parts[|parts| - 1]
  }

  lemma {:induction false} JoinLast(parts: seq<string>, sep: char)
    requires |parts| >= 2
    ensures Join(parts, sep) == Join(parts[..|parts| - 1], sep) + [sep] + parts[|parts| - 1]
    decreases |parts|
  {
    if |parts| > 2 {
      JoinLast(parts[1..], sep);
      assert parts[1..][..|parts| - 2] == parts[..|parts| - 1][1..];
    }
  }

  /** The last segment is what follows the last slash of the path, or the whole path without one. */
  lemma LastSegmentIsSuffix(path: string)
    ensures |LastSegment(path)| <= |path|
    ensures path[|path| - |LastSegment(path)|..] == LastSegment(path)
    ensures |LastSegment(path)| < |path| ==> path[|path| - |LastSegment(path)| - 1] == '/'
  {
    var parts := Split(path, '/');
    JoinSplit(path, '/');
    if |parts| >= 2 {
      JoinLast(parts, '/');
    }
  }

  /** The shown name of an attachment: its last segment, or the fallback when that is empty. */
  function AttachmentName(path: string, fallback: string): (name: string)
    ensures LastSegment(path) != "" ==> name == LastSegment(path)
    ensures LastSegment(path) == "" ==> name == fallback
  {
    if LastSegment(path) != "" then LastSegment(path) else fallback
  }

  /** `/\.(jpg|jpeg|png|gif)$/i.test(name)` */
  predicate IsImageName(name: string) {
    var lower := LowerAsciiString(name);
    EndsWith(lower, ".jpg") || EndsWith(lower, ".jpeg") || EndsWith(lower, ".png") || EndsWith(lower, ".gif")
  }

  lemma LowerSuffix(s: string, k: nat)
    requires k <= |s|
    ensures LowerAsciiString(s)[k..] == LowerAsciiString(s[k..])
  {
  }

  /** A suffix test on a string and on a tail of it that is at least as long as the suffix agree. */
  lemma EndsWithTail(s: string, k: nat, ext: string)
    requires k <= |s| && |ext| <= |s| - k
    ensures EndsWith(s, ext) <==> EndsWith(s[k..], ext)
  {
    assert s[|s| - |ext|..] == s[k..][|s| - k - |ext|..];
  }

  /** A string with a slash within its last |ext| characters does not end with a slash-free ext. */
  lemma SlashBlocksSuffix(s: string, j: nat, ext: string)
    requires j < |s| && s[j] == '/' && '/' !in ext && |s| - |ext| <= j
    ensures !EndsWith(s, ext)
  {
  }

  /** An extension test on a path's last segment agrees with the test on the path itself. */
  lemma EndsWithSegment(path: string, ext: string)
    requires '/' !in ext
    ensures EndsWith(LowerAsciiString(path), ext) <==> EndsWith(LowerAsciiString(LastSegment(path)), ext)
  {
    var r := LastSegment(path);
    LastSegmentIsSuffix(path);
    var k := |path| - |r|;
    LowerSuffix(path, k);
    var lp := LowerAsciiString(path);
    assert LowerAsciiString(r) == lp[k..];
    if |ext| <= |r| {
      EndsWithTail(lp, k, ext);
    } else if |ext| <= |path| {
      assert lp[k - 1] == LowerAscii(path[k - 1]) == '/';
      SlashBlocksSuffix(lp, k - 1, ext);
    }
  }

  /**
   * The image test of the question card and the profile editor (last
   * segment, or the path when that is empty) is the test on the path itself.
   */
  lemma ImageTestSeesOnlyTheEnd(path: string)
    ensures IsImageName(AttachmentName(path, path)) <==> IsImageName(path)
  {
    EndsWithSegment(path, ".jpg");
    EndsWithSegment(path, ".jpeg");
    EndsWithSegment(path, ".png");
    EndsWithSegment(path, ".gif");
  }

  /** The test ignores the case of ASCII letters. */
  lemma ImageTestIgnoresCase(name: string)
    ensures IsImageName(name) <==> IsImageName(LowerAsciiString(name))
  {
    assert LowerAsciiString(LowerAsciiString(name)) == LowerAsciiString(name);
  }
}
