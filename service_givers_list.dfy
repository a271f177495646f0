/**
  The list view's profile-photo column: how a stored photo path is turned into
  the URL the image is loaded from.
 */
module ServiceGiversList {
  import opened Js

  /** The image shown for a service giver with no photo. */
  const DefaultProfilePhoto := "/default-profile.png"

  /** `s.startsWith(prefix)`. */
  predicate StartsWith(s: string, prefix: string)
  {
    |prefix| <= |s| && s[..|prefix|] == prefix
  }

  /**
    `process.env.NEXT_PUBLIC_API_BASE || ""`: the variable's value when it is set
    and non-empty, the empty base otherwise (an empty value is falsy and gives
    the same empty string).
   */
  function BaseUrl(env: Option<string>): (base: string)
    ensures env.Some? && env.value != "" ==> base == env.value
    ensures base == "" <==> env.None? || env.value == ""
  {
    match env
    case None => ""
    case Some(s) => s
  }

  /**
    The photo URL for a stored profile_photo (None for null or undefined): the
    fallback image when there is no photo, the stored value itself when it
    starts with "http", and otherwise the value joined to the base URL with "/".
   */
  function PhotoUrl(photo: Option<string>, env: Option<string>): (url: string)
    ensures photo.None? || photo.value == "" ==> url == DefaultProfilePhoto
    ensures photo.Some? && StartsWith(photo.value, "http") ==> url == photo.value
    ensures photo.Some? && photo.value != "" && !StartsWith(photo.value, "http") ==>
              url == BaseUrl(env) + "/" + photo.value
    ensures url != ""
  {
    match photo
    case None => DefaultProfilePhoto
    case Some(p) =>
      if p == "" then DefaultProfilePhoto
      else if StartsWith(p, "http") then p
      else BaseUrl(env) + "/" + p
  }

  /** Any stored photo, absolute or relative, ends up at the end of its URL. */
  lemma PhotoUrlEndsWithPhoto(p: string, env: Option<string>)
    requires p != ""
    ensures var url := PhotoUrl(Some(p), env);
            |p| <= |url| && url[|url| - |p|..] == p
  {
    var url := PhotoUrl(Some(p), env);
    if !StartsWith(p, "http") {
      assert url == (BaseUrl(env) + "/") + p;
    }
  }

  /** "https" values start with "http" too, so they pass through unchanged whatever the base. */
  lemma HttpsPassesThrough(p: string, env: Option<string>)
    requires StartsWith(p, "https")
    ensures PhotoUrl(Some(p), env) == p
  {
    assert p[..4] == p[..5][..4];
  }

  /**
    Without a base URL every resolved photo is either an absolute "http…" URL or
    a root-relative path: a relative photo p becomes "/" + p.
   */
  lemma UnsetBaseIsRootRelative(photo: Option<string>)
    ensures var url := PhotoUrl(photo, None);
            StartsWith(url, "http") || url[0] == '/'
    ensures photo.Some? && photo.value != "" && !StartsWith(photo.value, "http") ==>
              PhotoUrl(photo, None) == "/" + photo.value
  {
    var url := PhotoUrl(photo, None);
    if photo.Some? && photo.value != "" && !StartsWith(photo.value, "http") {
      assert url == "" + "/" + photo.value;
      assert url[0] == '/';
    }
  }

  /**
    While the base URL does not itself start with "http", different stored
    photos never resolve to the same URL.
   */
  lemma PhotoUrlInjective(p1: string, p2: string, env: Option<string>)
    requires p1 != "" && p2 != ""
    requires !StartsWith(BaseUrl(env), "http")
    requires PhotoUrl(Some(p1), env) == PhotoUrl(Some(p2), env)
    ensures p1 == p2
  {
    var prefix := BaseUrl(env) + "/";
    var h1, h2 := StartsWith(p1, "http"), StartsWith(p2, "http");
    if h1 && !h2 {
      JoinedNotHttp(BaseUrl(env), p2);
      assert false;
    } else if h2 && !h1 {
      JoinedNotHttp(BaseUrl(env), p1);
      assert false;
    } else if !h1 && !h2 {
      assert prefix + p1 == BaseUrl(env) + "/" + p1;
      assert prefix + p2 == BaseUrl(env) + "/" + p2;
      assert p1 == (prefix + p1)[|prefix|..];
      assert p2 == (prefix + p2)[|prefix|..];
    }
  }

  /**
    With an absolute base URL the resolution is not injective: under the base
    "http://h", the stored photos "http://h/a" and "a" load the same image.
   */
  lemma HttpBaseCollision()
    ensures PhotoUrl(Some("http://h/a"), Some("http://h")) == PhotoUrl(Some("a"), Some("http://h")) == "http://h/a"
  {
    assert StartsWith("http://h/a", "http") by {
      assert "http://h/a"[..4] == "http";
    }
    assert !StartsWith("a", "http");
  }

  /** A path joined onto a base that does not start with "http" does not start with "http" either. */
  lemma JoinedNotHttp(base: string, p: string)
    requires !StartsWith(base, "http")
    ensures !StartsWith(base + "/" + p, "http")
  {
    var url := base + "/" + p;
    if |base| >= 4 {
      assert url[..4] == base[..4];
    } else {
      assert url[|base|] == '/';
    }
  }
}
