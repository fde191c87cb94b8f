# Asset-reference resolution of the style-sheet editor

`URIHelpers.ValidAssetURL` (Modules/StyleSheetsEditor/URIHelpers.cs) takes a
reference written inside a style-sheet asset and the asset's own project
path, and classifies the reference as one of
four `URIValidationResult` codes:

- `OK`, with a project-relative path that names an existing file;
- `InvalidURILocation`, for an empty reference ("Empty URI") or a relative
  reference that cannot be resolved against the asset (the message is the
  asset path);
- `InvalidURIScheme`, for an absolute URI whose scheme is not `project` (the
  message is the scheme);
- `InvalidURIProjectAssetPath`, for a candidate path that is empty or names
  no existing file (the message is that path).

A reference starting with `/` is put under the synthetic `project` scheme
as it stands. An absolute URI must carry the `project` scheme. Anything else
is resolved against the asset's own URI, which is the asset path resolved
against `project:/`. The local path of the resulting
URI loses one leading `/` and must then name an existing file.

The project has five modules:

- `URIHelpers` (uri_helpers.dfy) is the resolver itself. It is a pure
  function `ValidAssetURL` returning an `Outcome`. `Outcome.Status()`,
  `ErrorMessage()` and `ResolvedPath()` give back the status code and the
  two out-parameters, with `None` standing for `null`.
- `SystemUri` (system_uri.dfy) stands in for `System.Uri`, `UriBuilder`
  and `Uri.LocalPath`. It is a record of functions (`UriLibrary`) passed to
  the resolver, so the resolver's contract holds for any URI library. The
  file-system test `File.Exists` is passed in the same way, as the
  predicate `fileExists`.
- `Rfc3986` (rfc3986.dfy) models the URI standard's reference resolution on
  `/`-separated segments. It covers the scheme syntax of section 3.1 of
  RFC 3986, the merge of section 5.2.3 and remove_dot_segments of
  section 5.2.4.
- `ProjectUriLibrary` (project_uri_library.dfy) builds one concrete
  `UriLibrary` from `Rfc3986`.
- `ResolverProperties` (resolver_properties.dfy) states what the resolver
  does with that library on whole families of references: a sibling file,
  a `../` reference, a foreign scheme, the project scheme in any case, and
  a root-relative path.

An accepted path can still begin with a separator: the code
(URIHelpers.cs:58-62) removes exactly one leading `/`.
`OkPathLeadingSeparator` gives the exact condition, for any URI library,
under which a separator survives. With the concrete library of
`ProjectUriLibrary`, whose built URIs keep their path as written,
`LeadingSeparatorKept` shows that `//q` is accepted as `/q`.

## Model

| member | source | states |
|---|---|---|
| URIHelpers.ProjectRootUri | Modules/StyleSheetsEditor/URIHelpers.cs:20 | the project root is the URI with scheme `project`, no host and the root path `/` |
| URIHelpers.AssetBaseDefined | Modules/StyleSheetsEditor/URIHelpers.cs:39-42 | the asset's own URI must be constructible whenever a relative reference reaches the constructor that throws otherwise |
| URIHelpers.Outcome.Status | Modules/StyleSheetsEditor/URIHelpers.cs:10-16 | each of the four status codes is returned exactly for its own kind of outcome |
| URIHelpers.Outcome.ErrorMessage | Modules/StyleSheetsEditor/URIHelpers.cs:71 | the error message is null exactly when the status is OK, and otherwise is the outcome's message |
| URIHelpers.Outcome.ResolvedPath | Modules/StyleSheetsEditor/URIHelpers.cs:24-24 | the resolved path is non-null exactly when the status is OK, where it is the outcome's project-relative path, and stays null otherwise |
| URIHelpers.Locate | Modules/StyleSheetsEditor/URIHelpers.cs:32-54 | a leading `/` yields the URI built under the project scheme from the reference; an absolute URI yields itself when its scheme is `project` and is rejected naming its scheme otherwise; anything else yields the library's resolution against the asset's URI, or is rejected naming the asset when that fails; rejection happens exactly in those two cases |
| URIHelpers.ProjectRelativePath | Modules/StyleSheetsEditor/URIHelpers.cs:56-62 | the path is the local path with exactly one leading `/` removed when there is one, and unchanged otherwise |
| URIHelpers.Candidate | Modules/StyleSheetsEditor/URIHelpers.cs:33-38 | a root-relative reference's candidate is the local path of `project` + the reference, one separator removed |
| URIHelpers.CheckProjectPath | Modules/StyleSheetsEditor/URIHelpers.cs:64-73 | OK exactly when the candidate is non-empty and exists, with the candidate as the path; otherwise InvalidURIProjectAssetPath with the candidate as the message |
| URIHelpers.ValidAssetURL | Modules/StyleSheetsEditor/URIHelpers.cs:22-74 | null or empty gives InvalidURILocation "Empty URI"; a leading `/` is decided by the existence check of the built URI's local path; an absolute URI is rejected exactly when its scheme is not `project`, naming the scheme, and otherwise is decided by the existence check of its own local path; a relative reference gives InvalidURILocation exactly when resolution against the asset fails, naming the asset, and otherwise is decided by the existence check of the resolved URI's local path; OK always names a non-empty existing file |
| URIHelpers.ResolveIdempotent | Modules/StyleSheetsEditor/URIHelpers.cs:34-73 | an accepted path `p`, referenced again as `/p` from any asset, is accepted again as `p`, for any library whose local path of `project` + `/p` is `/p` |
| URIHelpers.OkPathLeadingSeparator | Modules/StyleSheetsEditor/URIHelpers.cs:58-62 | an accepted path starts with `/` exactly when the URI's local path started with `//` |
| ProjectUriLibrary.TryCreateAbsolute | Modules/StyleSheetsEditor/URIHelpers.cs:39 | a reference is absolute exactly when it starts with a well-formed scheme and `:`, and the URI's scheme is that prefix in lower case |
| ProjectUriLibrary.Combine | Modules/StyleSheetsEditor/URIHelpers.cs:42-44 | resolution against a base always succeeds; an absolute reference stands for itself; a relative one keeps the base's scheme |
| ProjectUriLibrary.Build | Modules/StyleSheetsEditor/URIHelpers.cs:36-37 | the built URI has the given scheme and keeps the path as written |
| ProjectUriLibrary.LocalPath | Modules/StyleSheetsEditor/URIHelpers.cs:56 | the local path of a URI is its path |
| ProjectUriLibrary.LibraryAssetBaseDefined | Modules/StyleSheetsEditor/URIHelpers.cs:42 | with this library the asset's own URI can always be built, so the resolver's precondition holds for every input |
| ProjectUriLibrary.RelativeOutcome | Modules/StyleSheetsEditor/URIHelpers.cs:39-68 | a relative reference is decided by checking the local path of the reference resolved against the asset, one separator removed |
| ProjectUriLibrary.AssetBaseRooted | Modules/StyleSheetsEditor/URIHelpers.cs:42 | an asset path that is not an absolute URI gets a `project` URI whose path is empty or rooted |
| ProjectUriLibrary.RelativeCandidateDotFree | Modules/StyleSheetsEditor/URIHelpers.cs:44-62 | a relative reference from such an asset always yields a candidate under the project scheme, with every `.` and `..` segment removed |
| ProjectUriLibrary.ResolveIdempotentHere | Modules/StyleSheetsEditor/URIHelpers.cs:34-73 | with this library, every accepted path `p` is accepted again as `/p` from any asset |
| Rfc3986.JoinSplit | Modules/StyleSheetsEditor/URIHelpers.cs:44 | joining the segments of a path gives back the path |
| Rfc3986.SplitJoin | Modules/StyleSheetsEditor/URIHelpers.cs:44 | splitting joined segments that hold no `/` gives back the segments |
| Rfc3986.JoinSnoc | Modules/StyleSheetsEditor/URIHelpers.cs:44 | appending a segment appends `/` and that segment |
| Rfc3986.JoinConcat | Modules/StyleSheetsEditor/URIHelpers.cs:44 | joining two runs of segments puts one `/` between them |
| Rfc3986.SplitPrefix | Modules/StyleSheetsEditor/URIHelpers.cs:44 | text without `/` in front of a path extends the path's first segment |
| Rfc3986.SplitSlashFree | Modules/StyleSheetsEditor/URIHelpers.cs:44 | no segment of a split path contains `/` |
| Rfc3986.Normalize | Modules/StyleSheetsEditor/URIHelpers.cs:44 | the segments left after the `.` and `..` segments of section 5.2.4 are processed, a final dot segment leaving an empty last segment |
| Rfc3986.NormalizeKeepsOrdinarySegments | Modules/StyleSheetsEditor/URIHelpers.cs:44 | removing dot segments leaves no `.` or `..`, and every remaining segment came from the input or is the empty final segment |
| Rfc3986.NormalizeDotFree | Modules/StyleSheetsEditor/URIHelpers.cs:44 | segments without `.` or `..` are left as they are |
| Rfc3986.NormalizeIdempotent | Modules/StyleSheetsEditor/URIHelpers.cs:44 | removing dot segments twice is removing them once |
| Rfc3986.NormalizeCongruent | Modules/StyleSheetsEditor/URIHelpers.cs:44 | two prefixes that leave the same output buffer give the same result under any non-empty continuation |
| Rfc3986.ParentCancels | Modules/StyleSheetsEditor/URIHelpers.cs:44 | an ordinary segment followed by `..` disappears when more segments follow |
| Rfc3986.CurrentDropped | Modules/StyleSheetsEditor/URIHelpers.cs:44 | a `.` segment disappears when more segments follow |
| Rfc3986.ParentAtRootDropped | Modules/StyleSheetsEditor/URIHelpers.cs:44 | a `..` at the root is dropped, so resolution never climbs above the root |
| Rfc3986.RemoveDotSegments | Modules/StyleSheetsEditor/URIHelpers.cs:44 | the result is rooted exactly when the input path is |
| Rfc3986.RemoveDotSegmentsIdempotent | Modules/StyleSheetsEditor/URIHelpers.cs:44 | remove_dot_segments applied twice equals applying it once |
| Rfc3986.RemoveDotSegmentsDotFree | Modules/StyleSheetsEditor/URIHelpers.cs:44 | after remove_dot_segments, a rooted path has no `.` or `..` segment |
| Rfc3986.RemoveDotSegmentsOfSegments | Modules/StyleSheetsEditor/URIHelpers.cs:44 | remove_dot_segments of a rooted path normalizes its segments |
| Rfc3986.DirectoryPrefix | Modules/StyleSheetsEditor/URIHelpers.cs:44 | the base directory is a prefix of the path, ends in `/` or is empty, and what follows it holds no `/` |
| Rfc3986.DirectoryPrefixOfFile | Modules/StyleSheetsEditor/URIHelpers.cs:44 | the directory of `dir/name` is `dir` |
| Rfc3986.Merge | Modules/StyleSheetsEditor/URIHelpers.cs:44 | the merge of section 5.2.3: for a base with a non-empty path, the result keeps the base path up to its last `/` and then holds the reference; for a base with an empty path (authority not modelled) it is `/` + the reference |
| Rfc3986.SplitScheme | Modules/StyleSheetsEditor/URIHelpers.cs:39 | a split scheme is a letter followed by scheme characters and then `:`, lower-cased, with the rest after the `:`; no split means no `:` has a well-formed scheme before it |
| Rfc3986.SchemeAt | Modules/StyleSheetsEditor/URIHelpers.cs:39 | a well-formed scheme followed by `:` is split there |
| Rfc3986.HierPath | Modules/StyleSheetsEditor/URIHelpers.cs:39 | after an authority the path is the text that follows `//` and a host without `/`, so it is empty or rooted; otherwise the path is the text itself |
| ResolverProperties.AssetUri | Modules/StyleSheetsEditor/URIHelpers.cs:42 | an asset path made of plain segments gets the URI `project:/<assetPath>` |
| ResolverProperties.MergeNextTo | Modules/StyleSheetsEditor/URIHelpers.cs:44 | merging a reference with the path of a file replaces the file name and keeps its directories |
| ResolverProperties.SiblingReference | Modules/StyleSheetsEditor/URIHelpers.cs:39-73 | a plain file name referenced from `dirs/file` is OK as `dirs/name` when that file exists, and InvalidURIProjectAssetPath naming it otherwise |
| ResolverProperties.CollapseParent | Modules/StyleSheetsEditor/URIHelpers.cs:44 | `/dirs/d/../rest` becomes `/dirs/rest` |
| ResolverProperties.ParentUri | Modules/StyleSheetsEditor/URIHelpers.cs:39-44 | `../rest` from `dirs/d/file` is relative and resolves to the path `/dirs/rest` |
| ResolverProperties.ParentReference | Modules/StyleSheetsEditor/URIHelpers.cs:39-73 | `../rest` from `dirs/d/file` is OK as `dirs/rest` when that file exists, and InvalidURIProjectAssetPath naming it otherwise |
| ResolverProperties.ForeignScheme | Modules/StyleSheetsEditor/URIHelpers.cs:50-54 | a reference with a well-formed scheme other than `project`, in any case, is InvalidURIScheme naming the scheme in lower case |
| ResolverProperties.ProjectSchemeAnyCase | Modules/StyleSheetsEditor/URIHelpers.cs:39-68 | `project:` in any case is accepted as a scheme, and its path with dot segments removed and one separator stripped is checked |
| ResolverProperties.RootedReference | Modules/StyleSheetsEditor/URIHelpers.cs:33-73 | with this library, `/p` from any asset is OK as `p` when `p` is non-empty and exists, and InvalidURIProjectAssetPath naming `p` otherwise |
| ResolverProperties.LeadingSeparatorKept | Modules/StyleSheetsEditor/URIHelpers.cs:58-62 | with this library, `//q` is accepted as `/q` when `/q` exists: only one separator is removed |

## Left out

- `File.Exists` is an injected predicate. The working directory, file-system races between the check and later use, and I/O errors are not modelled.
- `string.StartsWith("/")` compares culture-sensitively in .NET. The model tests the first character.
- A null `assetPath` is not modelled; it is a plain string.
- `new Uri(s_ProjectRootUri, assetPath)` throws when the asset path cannot be combined. The model makes that a precondition (`AssetBaseDefined`) that applies only when that line is reached. It does not model the exception.
- `UriBuilder` never fails in the model. The builder's own escaping of the path is left to the library parameter.
- ProjectUriLibrary.Combine: never fails. `Uri.TryCreate(base, rel)` also rejects malformed references; `URIHelpers.ValidAssetURL` covers that path with any library.
- ProjectUriLibrary.TryCreateAbsolute: recognises a reference only by its scheme syntax. `System.Uri` also rejects some malformed authorities and accepts Windows and UNC file paths as absolute `file` URIs.
- ProjectUriLibrary.Build: the local path of a built URI is taken to be the path as written. `UriBuilder(...).Uri` parses the path again, and may remove its dot segments as `TryCreateAbsolute` does, so with this library `/a/../b` is checked as `a/../b` while `project:/a/../b` is checked as `b`.
- RootedReference: holds for this library only, because its `Build` and `LocalPath` keep the path as written; `URIHelpers.ValidAssetURL` states the rooted case for any library.
- LeadingSeparatorKept: holds for this library only, for the same reason; for any library, `URIHelpers.OkPathLeadingSeparator` states when a separator survives.
- ResolveIdempotentHere: holds for this library because of the same assumption; `URIHelpers.ResolveIdempotent` states it for any library that maps `project` + `/p` back to `/p`.
- ProjectUriLibrary.LocalPath: returns the path as it stands. `Uri.LocalPath` also percent-decodes, and for `file` URIs it yields an operating-system path.
- Host, port, query and fragment components are not modelled. `HierPath` skips an authority, and the rest of the reference is the path.
- Rfc3986.RemoveDotSegments: rewrites only rooted paths. A path without a leading `/` is returned as written. A relative reference from an asset path that is not itself a URI always resolves to a rooted path (`RelativeCandidateDotFree`). A rootless path can only come from an absolute URI such as `project:a/../b`, and its dot segments are kept.
- Nothing stops `..` from leaving the asset's directory. A relative reference resolved by `Combine` against a rooted base cannot climb above the root (`ParentAtRootDropped`). With this library, a root-relative `/../x` and a rootless `project:../x` are both checked as `../x`.
