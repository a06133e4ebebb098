/**
 * Image files in the `formula-visuals` storage bucket, shared by the formula
 * and tip services: the bucket path recovered from a public URL, and the
 * removal `deleteImage` asks for.
 */
module Storage {
  import opened Wrappers
  import opened Strings

  const BUCKET := "formula-visuals"
  /** `/${BUCKET_NAME}/`, the text the pathname is split on. */
  const BUCKET_MARKER := "/formula-visuals/"

  /** A request sent to the storage bucket. */
  datatype StorageCall = Upload(name: string) | Remove(path: string)

  /** Index of the first character of `s` that is in `stops`, or `|s|`. */
  function FirstOf(s: string, stops: set<char>): (i: nat)
    ensures i <= |s|
    ensures forall k :: 0 <= k < i ==> s[k] !in stops
    ensures i < |s| ==> s[i] in stops
  {
    if |s| == 0 || s[0] in stops then 0 else 1 + FirstOf(s[1..], stops)
  }

  /**
   * `new URL(url).pathname` for URLs of the form `scheme://host/path?query#fragment`:
   * `None` when the text has no `://` (the constructor throws); `/` when
   * there is no path.
   */
  function Pathname(url: string): (p: Option<string>)
    ensures p.Some? ==> |p.value| > 0 && p.value[0] == '/'
  {
    match Find(url, "://")
    case None => None
    case Some(i) =>
      var rest := url[i + 3..];
      var start := FirstOf(rest, {'/', '?', '#'});
      if start == |rest| || rest[start] != '/' then Some("/")
      else
        var tail := rest[start..];
        Some(tail[..FirstOf(tail, {'?', '#'})])
  }

  /**
   * `pathname.split('/formula-visuals/')[1]`: the text after the first
   * occurrence of the marker up to the next one, `None` for `undefined`.
   */
  function AfterMarker(pathname: string): (r: Option<string>)
  {
    match Find(pathname, BUCKET_MARKER)
    case None => None
    case Some(i) =>
      var rest := pathname[i + |BUCKET_MARKER|..];
      match Find(rest, BUCKET_MARKER)
      case None => Some(rest)
      case Some(j) => Some(rest[..j])
  }

  /** The bucket path `deleteImage` removes, if the URL yields a non-empty one. */
  function StoragePath(url: string): (r: Option<string>)
    ensures r.Some? ==> r.value != ""
  {
    match Pathname(url)
    case None => None
    case Some(p) =>
      match AfterMarker(p)
      case None => None
      case Some(path) => if path == "" then None else Some(path)
  }

  /**
   * `deleteImage(url)`: nothing for an empty URL or one without a bucket
   * path; otherwise one removal of that path. Storage errors and bad URLs
   * are logged and swallowed, so it never fails.
   */
  function DeleteImage(url: string): (calls: seq<StorageCall>)
    ensures url == "" ==> calls == []
    ensures |calls| <= 1
    ensures calls != [] <==> StoragePath(url).Some?
    ensures calls != [] ==> calls[0] == Remove(StoragePath(url).value)
  {
    if url == "" then []
    else match StoragePath(url)
      case None => []
      case Some(path) => [Remove(path)]
  }

  /** `if (imageUrl) await deleteImage(imageUrl)` on an optional URL. */
  function DeleteIfSet(url: Option<string>): (calls: seq<StorageCall>)
    ensures url.None? ==> calls == []
    ensures url.Some? ==> calls == DeleteImage(url.value)
  {
    if url.Some? && url.value != "" then DeleteImage(url.value) else []
  }

  // ---------------------------------------------------------------------
  // The path recovered from a public URL

  lemma {:induction false} FindAbsent(s: string, sub: string)
    requires |sub| > 0 && forall k :: 0 <= k < |s| ==> s[k] != sub[0]
    ensures Find(s, sub) == None
    decreases |s|
  {
    assert !StartsWith(s, sub) by {
      if |sub| <= |s| {
        assert s[..|sub|][0] == s[0];
      }
    }
    if |s| > 0 {
      FindAbsent(s[1..], sub);
    }
  }

  /**
   * `sub` is first found right after `prefix` when one of its characters,
   * `sub[d]`, occurs neither in `prefix` nor earlier in `sub`.
   */
  lemma {:induction false} FindAfterPrefix(prefix: string, sub: string, rest: string, d: nat)
    requires d < |sub| && sub[d] !in prefix
    requires forall j :: 0 <= j < d ==> sub[j] != sub[d]
    ensures Find(prefix + sub + rest, sub) == Some(|prefix|)
    decreases |prefix|
  {
    var s := prefix + sub + rest;
    if |prefix| == 0 {
      assert s == sub + rest;
      assert StartsWith(s, sub);
    } else {
      assert s[1..] == prefix[1..] + sub + rest;
      FindAfterPrefix(prefix[1..], sub, rest, d);
      assert !StartsWith(s, sub) by {
        if d < |prefix| {
          assert s[d] == prefix[d];
        } else {
          assert s[d] == sub[d - |prefix|];
        }
      }
    }
  }

  /**
   * For a URL `scheme://host` + pathname, where the scheme has no `:` and the
   * host no `/`, `?` or `#`, and the pathname starts with `/` and has no `?`
   * or `#`, the URL's pathname is recovered exactly.
   */
  lemma PathnameOf(scheme: string, host: string, path: string)
    requires ':' !in scheme
    requires '/' !in host && '?' !in host && '#' !in host
    requires |path| > 0 && path[0] == '/' && '?' !in path && '#' !in path
    ensures Pathname(scheme + "://" + host + path) == Some(path)
  {
    var url := scheme + "://" + host + path;
    assert url == scheme + "://" + (host + path);
    FindAfterPrefix(scheme, "://", host + path, 0);
    assert url[|scheme| + 3..] == host + path;
    var rest := host + path;
    assert FirstOf(rest, {'/', '?', '#'}) == |host| by {
      FirstOfSkips(host, path, {'/', '?', '#'});
    }
    assert rest[|host|..] == path;
    FirstOfNone(path, {'?', '#'});
    assert path[..|path|] == path;
  }

  lemma {:induction false} FirstOfSkips(a: string, b: string, stops: set<char>)
    requires forall c :: c in a ==> c !in stops
    requires |b| > 0 && b[0] in stops
    ensures FirstOf(a + b, stops) == |a|
    decreases |a|
  {
    if |a| > 0 {
      assert a[0] in a;
      assert (a + b)[1..] == a[1..] + b;
      FirstOfSkips(a[1..], b, stops);
    } else {
      assert a + b == b;
    }
  }

  lemma {:induction false} FirstOfNone(s: string, stops: set<char>)
    requires forall c :: c in s ==> c !in stops
    ensures FirstOf(s, stops) == |s|
    decreases |s|
  {
    if |s| > 0 {
      assert s[0] in s;
      FirstOfNone(s[1..], stops);
    }
  }

  /**
   * A pathname `prefix/formula-visuals/name`, with no `-` in the prefix and
   * no `/` in the name, yields the bucket path `name`.
   */
  lemma AfterMarkerOf(prefix: string, name: string)
    requires '-' !in prefix && '/' !in name
    ensures AfterMarker(prefix + BUCKET_MARKER + name) == Some(name)
  {
    assert BUCKET_MARKER[8] == '-';
    FindAfterPrefix(prefix, BUCKET_MARKER, name, 8);
    var p := prefix + BUCKET_MARKER + name;
    assert p[|prefix| + |BUCKET_MARKER|..] == name;
    FindAbsent(name, BUCKET_MARKER);
  }

  /**
   * The public URL of an uploaded image, `scheme://host/root/formula-visuals/name`
   * (the root being `storage/v1/object/public` on the hosted backend) with
   * plain parts, leads `deleteImage` to remove exactly `name`.
   */
  lemma StoragePathOfPublicUrl(scheme: string, host: string, bucketRoot: string, name: string)
    requires ':' !in scheme && '/' !in host && '?' !in host && '#' !in host
    requires '-' !in bucketRoot && '?' !in bucketRoot && '#' !in bucketRoot
    requires name != "" && '/' !in name && '?' !in name && '#' !in name
    ensures StoragePath(scheme + "://" + host + "/" + bucketRoot + BUCKET_MARKER + name) == Some(name)
  {
    var path := "/" + bucketRoot + BUCKET_MARKER + name;
    assert scheme + "://" + host + "/" + bucketRoot + BUCKET_MARKER + name == scheme + "://" + host + path;
    assert '?' !in path && '#' !in path by {
      assert path == "/" + bucketRoot + "/formula-visuals/" + name;
    }
    PathnameOf(scheme, host, path);
    assert path == ("/" + bucketRoot) + BUCKET_MARKER + name;
    AfterMarkerOf("/" + bucketRoot, name);
  }
}
