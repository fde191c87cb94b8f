/**
 * A URI library for the resolver built from the RFC 3986 model: absolute
 * references by the scheme syntax of section 3.1, relative references by
 * the resolution of section 5.2.2 (merge, remove_dot_segments). With it,
 * the resolver's behaviour on concrete references can be stated.
 */
module ProjectUriLibrary {
  import opened Wrappers
  import opened SystemUri
  import opened Rfc3986
  import opened URIHelpers

  /** Uri.TryCreate(s, UriKind.Absolute): a reference that carries its own scheme. */
  function TryCreateAbsolute(s: string): (u: Option<Uri>)
    ensures u.Some? <==> SplitScheme(s).Some?
    ensures u.Some? ==> u.value.scheme == SplitScheme(s).value.0
  {
    match SplitScheme(s)
    case None => None
    case Some((scheme, rest)) => Some(Uri(scheme, RemoveDotSegments(HierPath(rest))))
  }

  /** Resolves a reference against a base URI; never fails. */
  function Combine(base: Uri, ref: string): (u: Option<Uri>)
    ensures u.Some?
    ensures TryCreateAbsolute(ref).Some? ==> u == TryCreateAbsolute(ref)
    ensures TryCreateAbsolute(ref).None? ==> u.value.scheme == base.scheme
  {
    match TryCreateAbsolute(ref)
    case Some(r) => Some(r)
    case None =>
      if HasAuthority(ref) then Some(Uri(base.scheme, RemoveDotSegments(HierPath(ref))))
      else if ref == "" then Some(base)
      else if ref[0] == '/' then Some(Uri(base.scheme, RemoveDotSegments(ref)))
      else Some(Uri(base.scheme, RemoveDotSegments(Merge(base.path, ref))))
  }

  /** new UriBuilder(scheme, "", 0, path).Uri: the path is taken as written. */
  function Build(scheme: string, path: string): (u: Uri)
    ensures u.scheme == scheme && u.path == path
  {
    Uri(scheme, path)
  }

  /** Uri.LocalPath: no percent-decoding is modelled. */
  function LocalPath(u: Uri): (p: string)
    ensures p == u.path
  {
    u.path
  }

  const Library: UriLibrary := UriLibrary(TryCreateAbsolute, Combine, Build, LocalPath)

  /** With this library the resolver's precondition always holds. */
  lemma LibraryAssetBaseDefined(assetPath: string, path: string)
    ensures AssetBaseDefined(Library, assetPath, path)
  {
    var b := Library.combine(ProjectRootUri, assetPath);
    assert b == Combine(ProjectRootUri, assetPath);
  }

  /**
   * A relative reference resolves, with this library, to the checked local
   * path of the reference combined with the asset's URI.
   */
  lemma RelativeOutcome(fileExists: string -> bool, assetPath: string, path: string)
    requires path != "" && path[0] != '/' && SplitScheme(path).None?
    ensures AssetBaseDefined(Library, assetPath, path)
    ensures var u := Combine(Combine(ProjectRootUri, assetPath).value, path).value;
      ValidAssetURL(Library, fileExists, assetPath, Some(path)) ==
        CheckProjectPath(fileExists, if StartsWithSlash(u.path) then u.path[1..] else u.path)
  {
    LibraryAssetBaseDefined(assetPath, path);
    var b := Combine(ProjectRootUri, assetPath).value;
    assert Library.tryCreateAbsolute(path) == TryCreateAbsolute(path);
    assert Library.combine(ProjectRootUri, assetPath) == Some(b);
    assert Library.combine(b, path) == Combine(b, path);
    var u := Combine(b, path).value;
    assert Locate(Library, assetPath, path) == Located(u);
    assert Library.localPath(u) == u.path;
  }

  /** An asset path that is not itself an absolute URI gives a base URI with an empty or rooted path. */
  lemma AssetBaseRooted(assetPath: string)
    requires SplitScheme(assetPath).None?
    ensures var b := Combine(ProjectRootUri, assetPath).value;
      b.scheme == ProjectScheme && (b.path == "" || b.path[0] == '/')
  {
    if HasAuthority(assetPath) {
    } else if assetPath == "" {
    } else if assetPath[0] == '/' {
    } else {
      var m := Merge(ProjectRootUri.path, assetPath);
      assert DirectoryPrefix("/") == "/";
      assert m[0] == '/';
    }
  }

  /**
   * A relative reference from an asset that is not itself an absolute URI
   * resolves, under the project scheme, to a candidate path in which every
   * `.` and `..` segment has been collapsed.
   */
  lemma RelativeCandidateDotFree(assetPath: string, path: string)
    requires path != "" && path[0] != '/' && SplitScheme(path).None?
    requires SplitScheme(assetPath).None?
    ensures AssetBaseDefined(Library, assetPath, path)
    ensures Locate(Library, assetPath, path).Located?
    ensures Locate(Library, assetPath, path).uri.scheme == ProjectScheme
    ensures var c := Candidate(Library, assetPath, path);
      c.Some? && DotFree(Split(c.value))
  {
    LibraryAssetBaseDefined(assetPath, path);
    AssetBaseRooted(assetPath);
    var b := Combine(ProjectRootUri, assetPath).value;
    var merged := Merge(b.path, path);
    assert Library.combine(b, path) == Combine(b, path);
    assert merged[0] == '/';
    RemoveDotSegmentsDotFree(merged);
    var r := RemoveDotSegments(merged);
    assert Combine(b, path) == Some(Uri(ProjectScheme, r));
    assert Candidate(Library, assetPath, path) == Some(r[1..]);
  }

  /** Resolving an accepted path again as `/` + path accepts it again, from any asset. */
  lemma ResolveIdempotentHere(fileExists: string -> bool, assetPath: string, path: Option<string>, otherAsset: string)
    requires !IsEmpty(path) ==> AssetBaseDefined(Library, assetPath, path.value)
    requires ValidAssetURL(Library, fileExists, assetPath, path).Ok?
    ensures var p := ValidAssetURL(Library, fileExists, assetPath, path).resolvedProjectRelativePath;
      ValidAssetURL(Library, fileExists, otherAsset, Some("/" + p)) == Ok(p)
  {
    var p := ValidAssetURL(Library, fileExists, assetPath, path).resolvedProjectRelativePath;
    assert Library.localPath(Library.build(ProjectScheme, "/" + p)) == "/" + p;
    ResolveIdempotent(Library, fileExists, assetPath, path, otherAsset);
  }
}
