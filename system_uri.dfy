/**
 * The parts of System.Uri and System.UriBuilder that the resolver reads,
 * passed in as an explicit library record so that every property of the
 * resolver states which behaviour of the URI library it relies on.
 */
module SystemUri {
  import opened Wrappers

  /** An absolute URI, reduced to the two parts the resolver looks at. */
  datatype Uri = Uri(scheme: string, path: string)

  /**
   * The URI library as the resolver uses it:
   *  - tryCreateAbsolute: Uri.TryCreate(s, UriKind.Absolute, out u);
   *  - combine: new Uri(base, relative) and Uri.TryCreate(base, relative, out u),
   *    None where the library rejects the combination;
   *  - build: new UriBuilder(scheme, "", 0, path).Uri;
   *  - localPath: Uri.LocalPath.
   */
  datatype UriLibrary = UriLibrary(
    tryCreateAbsolute: string -> Option<Uri>,
    combine: (Uri, string) -> Option<Uri>,
    build: (string, string) -> Uri,
    localPath: Uri -> string
  )
}
