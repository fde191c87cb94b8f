/**
 * The asset-reference resolver of the style-sheet editor: it classifies a
 * reference found in an asset into one of four outcomes and, on success,
 * yields the project-relative path of an existing file.
 *
 * File.Exists is the injected predicate `fileExists`; System.Uri is the
 * injected library `lib` (see module SystemUri).
 */
module URIHelpers {
  import opened Wrappers
  import opened SystemUri

  /** The status codes the resolver returns. */
  datatype URIValidationResult =
    | OK
    | InvalidURILocation
    | InvalidURIScheme
    | InvalidURIProjectAssetPath

  /**
   * The status together with the out-parameters that status fills in:
   * only Ok carries a resolved path, every other status carries a message.
   */
  datatype Outcome =
    | Ok(resolvedProjectRelativePath: string)
    | InvalidLocation(message: string)
    | InvalidScheme(message: string)
    | InvalidProjectPath(message: string)
  {
    /** The status code returned by the resolver. */
    function Status(): (s: URIValidationResult)
      ensures s == URIValidationResult.OK <==> Ok?
      ensures s == URIValidationResult.InvalidURILocation <==> InvalidLocation?
      ensures s == URIValidationResult.InvalidURIScheme <==> InvalidScheme?
      ensures s == URIValidationResult.InvalidURIProjectAssetPath <==> InvalidProjectPath?
    {
      match this
      case Ok(_) => URIValidationResult.OK
      case InvalidLocation(_) => URIValidationResult.InvalidURILocation
      case InvalidScheme(_) => URIValidationResult.InvalidURIScheme
      case InvalidProjectPath(_) => URIValidationResult.InvalidURIProjectAssetPath
    }

    /** The errorMessage out-parameter (None is null). */
    function ErrorMessage(): (m: Option<string>)
      ensures m.None? <==> Ok?
      ensures !Ok? ==> m == Some(message)
    {
      if Ok? then None else Some(message)
    }

    /** The resolvedProjectRelativePath out-parameter (None is null). */
    function ResolvedPath(): (p: Option<string>)
      ensures p.Some? <==> Ok?
      ensures Ok? ==> p == Some(resolvedProjectRelativePath)
    {
      if Ok? then Some(resolvedProjectRelativePath) else None
    }
  }

  /** The synthetic scheme of project-rooted references. */
  const ProjectScheme: string := "project"

  /** The project root: scheme `project`, empty host, root path. */
  const ProjectRootUri: Uri := Uri(ProjectScheme, "/")

  const EmptyUriMessage: string := "Empty URI"

  predicate StartsWithSlash(s: string) {
    |s| > 0 && s[0] == '/'
  }

  /** An absolute URI the reference denotes, or the outcome that ended the search for one. */
  datatype Located = Located(uri: Uri) | Rejected(outcome: Outcome)

  /**
   * The asset's own URI must be constructible whenever the resolver needs it:
   * the library throws instead of returning when it is not.
   */
  predicate AssetBaseDefined(lib: UriLibrary, assetPath: string, path: string) {
    !StartsWithSlash(path) && lib.tryCreateAbsolute(path).None? ==>
      lib.combine(ProjectRootUri, assetPath).Some?
  }

  /**
   * The absolute URI a non-empty reference denotes: a leading `/` is put
   * under the project scheme verbatim; an absolute URI must use the project
   * scheme; anything else is resolved against the asset's own URI.
   */
  function Locate(lib: UriLibrary, assetPath: string, path: string): (l: Located)
    requires path != ""
    requires AssetBaseDefined(lib, assetPath, path)
    // A leading `/` is taken as a path under the project scheme.
    ensures StartsWithSlash(path) ==> l == Located(lib.build(ProjectScheme, path))
    // An absolute URI stands for itself, if its scheme is the project's.
    ensures !StartsWithSlash(path) && lib.tryCreateAbsolute(path).Some? ==>
      var u := lib.tryCreateAbsolute(path).value;
      l == if u.scheme == ProjectScheme then Located(u) else Rejected(InvalidScheme(u.scheme))
    // Anything else is whatever the library resolves it to against the asset.
    ensures !StartsWithSlash(path) && lib.tryCreateAbsolute(path).None? ==>
      var c := lib.combine(lib.combine(ProjectRootUri, assetPath).value, path);
      l == if c.Some? then Located(c.value) else Rejected(InvalidLocation(assetPath))
    // Rejection happens on a foreign scheme or a failed resolution, and on nothing else.
    ensures l.Rejected? <==>
      !StartsWithSlash(path) &&
      (if lib.tryCreateAbsolute(path).Some? then lib.tryCreateAbsolute(path).value.scheme != ProjectScheme
       else lib.combine(lib.combine(ProjectRootUri, assetPath).value, path).None?)
    ensures l.Rejected? ==> l.outcome.InvalidScheme? || l.outcome.InvalidLocation?
  {
    if StartsWithSlash(path) then
      Located(lib.build(ProjectRootUri.scheme, path))
    else
      match lib.tryCreateAbsolute(path)
      case Some(u) =>
        if u.scheme != ProjectRootUri.scheme then Rejected(InvalidScheme(u.scheme))
        else Located(u)
      case None =>
        // Resolve a relative reference against the referencing asset.
        var assetPathUri := lib.combine(ProjectRootUri, assetPath).value;
        match lib.combine(assetPathUri, path)
        case Some(u) => Located(u)
        case None => Rejected(InvalidLocation(assetPath))
  }

  /** The local path of a URI, made relative to the project directory. */
  function ProjectRelativePath(lib: UriLibrary, u: Uri): (p: string)
    ensures var local := lib.localPath(u);
      if StartsWithSlash(local) then "/" + p == local else p == local
  {
    var local := lib.localPath(u);
    if StartsWithSlash(local) then local[1..] else local
  }

  /**
   * The project-relative path a non-empty reference stands for, or None when
   * it was rejected before a path could be formed.
   */
  function Candidate(lib: UriLibrary, assetPath: string, path: string): (c: Option<string>)
    requires path != ""
    requires AssetBaseDefined(lib, assetPath, path)
    ensures StartsWithSlash(path) ==>
      c == Some(ProjectRelativePath(lib, lib.build(ProjectScheme, path)))
  {
    match Locate(lib, assetPath, path)
    case Located(u) => Some(ProjectRelativePath(lib, u))
    case Rejected(_) => None
  }

  /** The final check: the candidate must name an existing file. */
  function CheckProjectPath(fileExists: string -> bool, candidate: string): (r: Outcome)
    ensures r.Ok? || r.InvalidProjectPath?
    ensures r.Ok? <==> candidate != "" && fileExists(candidate)
    ensures r.Ok? ==> r.resolvedProjectRelativePath == candidate
    ensures r.InvalidProjectPath? ==> r.message == candidate
  {
    if candidate == "" || !fileExists(candidate) then InvalidProjectPath(candidate)
    else Ok(candidate)
  }

  predicate IsEmpty(path: Option<string>) {
    path.None? || path.value == ""
  }

  /** ValidAssetURL(assetPath, path, out errorMessage, out resolvedProjectRelativePath). */
  function ValidAssetURL(lib: UriLibrary, fileExists: string -> bool, assetPath: string, path: Option<string>): (r: Outcome)
    requires !IsEmpty(path) ==> AssetBaseDefined(lib, assetPath, path.value)
    // An absent or empty reference is rejected and nothing else is consulted.
    ensures IsEmpty(path) ==> r == InvalidLocation(EmptyUriMessage)
    // A leading `/` always lands under the project scheme.
    ensures !IsEmpty(path) && StartsWithSlash(path.value) ==>
      !r.InvalidScheme? && !r.InvalidLocation? &&
      r == CheckProjectPath(fileExists, ProjectRelativePath(lib, lib.build(ProjectScheme, path.value)))
    // A foreign absolute URI is rejected, naming its scheme.
    ensures !IsEmpty(path) && !StartsWithSlash(path.value) && lib.tryCreateAbsolute(path.value).Some? ==>
      var u := lib.tryCreateAbsolute(path.value).value;
      (r.InvalidScheme? <==> u.scheme != ProjectScheme) &&
      (r.InvalidScheme? ==> r.message == u.scheme)
    // A relative reference the library cannot resolve against the asset is rejected, naming the asset.
    ensures !IsEmpty(path) && !StartsWithSlash(path.value) && lib.tryCreateAbsolute(path.value).None? ==>
      !r.InvalidScheme? &&
      (r.InvalidLocation? <==> lib.combine(lib.combine(ProjectRootUri, assetPath).value, path.value).None?) &&
      (r.InvalidLocation? ==> r.message == assetPath)
    // An absolute URI under the project scheme goes on to the existence check of its local path.
    ensures (!IsEmpty(path) && !StartsWithSlash(path.value) && lib.tryCreateAbsolute(path.value).Some? &&
             lib.tryCreateAbsolute(path.value).value.scheme == ProjectScheme) ==>
      r == CheckProjectPath(fileExists, ProjectRelativePath(lib, lib.tryCreateAbsolute(path.value).value))
    // A relative reference the library resolves goes on to the existence check of the resolved local path.
    ensures (!IsEmpty(path) && !StartsWithSlash(path.value) && lib.tryCreateAbsolute(path.value).None? &&
             lib.combine(lib.combine(ProjectRootUri, assetPath).value, path.value).Some?) ==>
      r == CheckProjectPath(fileExists,
        ProjectRelativePath(lib, lib.combine(lib.combine(ProjectRootUri, assetPath).value, path.value).value))
    // Once a candidate path is formed, the outcome depends on it alone.
    ensures !IsEmpty(path) ==>
      ((r.Ok? || r.InvalidProjectPath?) <==> Candidate(lib, assetPath, path.value).Some?)
    ensures !IsEmpty(path) && Candidate(lib, assetPath, path.value).Some? ==>
      var c := Candidate(lib, assetPath, path.value).value;
      (r.Ok? <==> c != "" && fileExists(c)) &&
      (r.Ok? ==> r.resolvedProjectRelativePath == c) &&
      (r.InvalidProjectPath? ==> r.message == c)
    // Success always names an existing file.
    ensures r.Ok? ==> r.resolvedProjectRelativePath != "" && fileExists(r.resolvedProjectRelativePath)
  {
    if IsEmpty(path) then InvalidLocation(EmptyUriMessage)
    else
      match Locate(lib, assetPath, path.value)
      case Rejected(outcome) => outcome
      case Located(absoluteUri) => CheckProjectPath(fileExists, ProjectRelativePath(lib, absoluteUri))
  }

  /**
   * Resolving an accepted path again, as a root-relative reference from any
   * asset, accepts it again, provided the library maps `project` + `/p` back
   * to the local path `/p`.
   */
  lemma ResolveIdempotent(lib: UriLibrary, fileExists: string -> bool, assetPath: string, path: Option<string>,
                          otherAsset: string)
    requires !IsEmpty(path) ==> AssetBaseDefined(lib, assetPath, path.value)
    requires ValidAssetURL(lib, fileExists, assetPath, path).Ok?
    requires var p := ValidAssetURL(lib, fileExists, assetPath, path).resolvedProjectRelativePath;
      lib.localPath(lib.build(ProjectScheme, "/" + p)) == "/" + p
    ensures var p := ValidAssetURL(lib, fileExists, assetPath, path).resolvedProjectRelativePath;
      ValidAssetURL(lib, fileExists, otherAsset, Some("/" + p)) == Ok(p)
  {
    var p := ValidAssetURL(lib, fileExists, assetPath, path).resolvedProjectRelativePath;
    assert ("/" + p)[1..] == p;
  }

  /**
   * An accepted path keeps a leading separator exactly when the URI's local
   * path began with two of them: only one is ever removed.
   */
  lemma OkPathLeadingSeparator(lib: UriLibrary, fileExists: string -> bool, assetPath: string, path: string)
    requires path != "" && AssetBaseDefined(lib, assetPath, path)
    requires Locate(lib, assetPath, path).Located?
    requires ValidAssetURL(lib, fileExists, assetPath, Some(path)).Ok?
    ensures var local := lib.localPath(Locate(lib, assetPath, path).uri);
      var p := ValidAssetURL(lib, fileExists, assetPath, Some(path)).resolvedProjectRelativePath;
      StartsWithSlash(p) <==> |local| >= 2 && local[0] == '/' && local[1] == '/'
  {
    var local := lib.localPath(Locate(lib, assetPath, path).uri);
    var p := ValidAssetURL(lib, fileExists, assetPath, Some(path)).resolvedProjectRelativePath;
    assert p == ProjectRelativePath(lib, Locate(lib, assetPath, path).uri);
    if StartsWithSlash(local) {
      assert local == "/" + p;
    }
  }
}
