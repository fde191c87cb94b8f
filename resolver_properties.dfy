/**
 * What the resolver does, with the RFC 3986 library, on whole families of
 * references: a file next to the asset, a file reached through `..`, an
 * absolute URI with a foreign scheme or the project scheme, and a
 * root-relative path.
 */
module ResolverProperties {
  import opened Wrappers
  import opened SystemUri
  import opened Rfc3986
  import opened URIHelpers
  import opened ProjectUriLibrary

  /** A segment that names a directory or a file: non-empty, without `/`, not `.` or `..`. */
  predicate PlainSegment(w: string) {
    w != "" && SlashFree(w) && !IsDot(w)
  }

  predicate PlainSegments(segs: seq<string>) {
    forall i :: 0 <= i < |segs| ==> PlainSegment(segs[i])
  }

  lemma PlainSnoc(segs: seq<string>, w: string)
    requires PlainSegments(segs) && PlainSegment(w)
    ensures PlainSegments(segs + [w])
  {
    assert forall i :: 0 <= i < |segs| ==> (segs + [w])[i] == segs[i];
  }

  /** An asset path that is not an absolute URI gets the project URI of the same path. */
  lemma AssetUri(segs: seq<string>)
    requires |segs| >= 1 && PlainSegments(segs)
    requires SplitScheme(Join(segs)).None?
    ensures Combine(ProjectRootUri, Join(segs)) == Some(Uri(ProjectScheme, "/" + Join(segs)))
  {
    var asset := Join(segs);
    JoinStartsWith(segs);
    assert asset[0] == segs[0][0];
    assert DirectoryPrefix(ProjectRootUri.path) == "/";
    assert Merge(ProjectRootUri.path, asset) == "/" + asset;
    RemoveDotSegmentsOfSegments(segs);
    NormalizeDotFree(segs);
  }

  /** The rooted directory that holds the segments after `dirs`, with its trailing `/`. */
  function Directory(dirs: seq<string>): (dir: string)
    ensures dir != "" && dir[|dir| - 1] == '/'
  {
    if dirs == [] then "/" else "/" + Join(dirs) + "/"
  }

  /** A rooted path ending in `x` is its directory followed by `x`. */
  lemma InDirectory(dirs: seq<string>, x: string)
    ensures "/" + Join(dirs + [x]) == Directory(dirs) + x
  {
    if dirs == [] {
      assert dirs + [x] == [x];
    } else {
      JoinSnoc(dirs, x);
    }
  }

  /** Merging with the path of a file keeps the file's directories. */
  lemma MergeNextTo(dirs: seq<string>, file: string, ref: string)
    requires SlashFree(file)
    ensures Merge("/" + Join(dirs + [file]), ref) == "/" + Join(dirs + [ref])
  {
    var dir := Directory(dirs);
    InDirectory(dirs, file);
    InDirectory(dirs, ref);
    DirectoryPrefixOfFile(dir, file);
    assert Merge(dir + file, ref) == dir + ref;
  }

  /**
   * A plain file name referenced from an asset resolves to the file of that
   * name in the asset's directory.
   */
  lemma SiblingReference(fileExists: string -> bool, dirs: seq<string>, file: string, name: string)
    requires PlainSegments(dirs) && PlainSegment(file) && PlainSegment(name)
    requires SplitScheme(Join(dirs + [file])).None? && SplitScheme(name).None?
    ensures AssetBaseDefined(Library, Join(dirs + [file]), name)
    ensures var target := Join(dirs + [name]);
      ValidAssetURL(Library, fileExists, Join(dirs + [file]), Some(name)) ==
        if fileExists(target) then Ok(target) else InvalidProjectPath(target)
  {
    var asset := Join(dirs + [file]);
    var target := dirs + [name];
    PlainSnoc(dirs, file);
    PlainSnoc(dirs, name);
    RelativeOutcome(fileExists, asset, name);
    AssetUri(dirs + [file]);
    var base := Uri(ProjectScheme, "/" + asset);
    assert Combine(ProjectRootUri, asset).value == base;
    MergeNextTo(dirs, file, name);
    assert Merge(base.path, name) == "/" + Join(target);
    assert Combine(base, name) == Some(Uri(ProjectScheme, RemoveDotSegments("/" + Join(target))));
    RemoveDotSegmentsOfSegments(target);
    NormalizeDotFree(target);
    var u := Combine(base, name).value;
    assert u.path == "/" + Join(target);
    assert StartsWithSlash(u.path) && u.path[1..] == Join(target);
    JoinStartsWith(target);
    assert Join(target) != "";
  }

  lemma PlainIsSlashFree(segs: seq<string>)
    requires PlainSegments(segs)
    ensures AllSlashFree(segs) && DotFree(segs)
  {
  }

  lemma PlainConcat(a: seq<string>, b: seq<string>)
    requires PlainSegments(a) && PlainSegments(b)
    ensures PlainSegments(a + b)
  {
    assert forall i :: 0 <= i < |a + b| ==> (a + b)[i] == if i < |a| then a[i] else b[i - |a|];
  }

  /** `dirs/d/../rest` is `dirs/rest` once dot segments are removed. */
  lemma CollapseParent(dirs: seq<string>, d: string, rest: seq<string>)
    requires PlainSegments(dirs) && PlainSegment(d)
    requires |rest| >= 1 && PlainSegments(rest)
    ensures RemoveDotSegments("/" + Join((dirs + [d]) + ([".."] + rest))) == "/" + Join(dirs + rest)
  {
    var segs := (dirs + [d]) + ([".."] + rest);
    PlainSnoc(dirs, d);
    PlainIsSlashFree(dirs + [d]);
    PlainIsSlashFree(rest);
    AllSlashFreeConcat([".."], rest);
    AllSlashFreeConcat(dirs + [d], [".."] + rest);
    RemoveDotSegmentsOfSegments(segs);
    assert segs == dirs + [d, ".."] + rest;
    ParentCancels(dirs, d, rest);
    PlainConcat(dirs, rest);
    PlainIsSlashFree(dirs + rest);
    NormalizeDotFree(dirs + rest);
  }

  /** `../rest` is a relative reference that has no scheme. */
  lemma ParentRefRelative(rest: seq<string>)
    requires |rest| >= 1
    ensures var ref := Join([".."] + rest);
      ref != "" && ref[0] == '.' && SplitScheme(ref).None?
  {
    var ref := Join([".."] + rest);
    JoinStartsWith([".."] + rest);
    assert ref[0] == '.';
    NoSchemeWithoutLeadingLetter(ref);
  }

  /** Merging `../rest` with the path of a file in `folder` appends it to the folder. */
  lemma ParentMerged(folder: seq<string>, file: string, rest: seq<string>)
    requires |folder| >= 1 && |rest| >= 1 && SlashFree(file)
    ensures Merge("/" + Join(folder + [file]), Join([".."] + rest)) == "/" + Join(folder + ([".."] + rest))
  {
    var ref := Join([".."] + rest);
    MergeNextTo(folder, file, ref);
    JoinSnoc(folder, ref);
    JoinConcat(folder, [".."] + rest);
  }

  /** The URI that `../rest` from an asset in `dirs/d` resolves to. */
  lemma ParentUri(dirs: seq<string>, d: string, file: string, rest: seq<string>)
    requires PlainSegments(dirs) && PlainSegment(d) && PlainSegment(file)
    requires |rest| >= 1 && PlainSegments(rest)
    requires SplitScheme(Join(dirs + [d, file])).None?
    ensures var ref := Join([".."] + rest);
      ref != "" && ref[0] == '.' && SplitScheme(ref).None? &&
      Combine(Combine(ProjectRootUri, Join(dirs + [d, file])).value, ref).value.path == "/" + Join(dirs + rest)
  {
    var ref := Join([".."] + rest);
    var folder := dirs + [d];
    assert dirs + [d, file] == folder + [file];
    var asset := Join(folder + [file]);
    PlainSnoc(dirs, d);
    PlainSnoc(folder, file);
    ParentRefRelative(rest);
    AssetUri(folder + [file]);
    var base := Uri(ProjectScheme, "/" + asset);
    ParentMerged(folder, file, rest);
    CollapseParent(dirs, d, rest);
    assert Combine(base, ref).value.path == RemoveDotSegments(Merge(base.path, ref));
  }

  /**
   * A reference `../rest` from an asset in directory `dirs/d` resolves to
   * `rest` under `dirs`: the parent segment collapses.
   */
  lemma ParentReference(fileExists: string -> bool, dirs: seq<string>, d: string, file: string, rest: seq<string>)
    requires PlainSegments(dirs) && PlainSegment(d) && PlainSegment(file)
    requires |rest| >= 1 && PlainSegments(rest)
    requires SplitScheme(Join(dirs + [d, file])).None?
    ensures AssetBaseDefined(Library, Join(dirs + [d, file]), Join([".."] + rest))
    ensures var target := Join(dirs + rest);
      ValidAssetURL(Library, fileExists, Join(dirs + [d, file]), Some(Join([".."] + rest))) ==
        if fileExists(target) then Ok(target) else InvalidProjectPath(target)
  {
    var ref := Join([".."] + rest);
    var asset := Join(dirs + [d, file]);
    ParentUri(dirs, d, file, rest);
    RelativeOutcome(fileExists, asset, ref);
    var target := Join(dirs + rest);
    var p := "/" + target;
    assert StartsWithSlash(p) && p[1..] == target;
    PlainConcat(dirs, rest);
    JoinStartsWith(dirs + rest);
    assert target != "";
  }

  /** A reference with a well-formed scheme other than `project`, in any case, is rejected naming that scheme in lower case. */
  lemma ForeignScheme(fileExists: string -> bool, assetPath: string, scheme: string, rest: string)
    requires |scheme| >= 1 && IsAlpha(scheme[0]) && forall i :: 0 <= i < |scheme| ==> IsSchemeChar(scheme[i])
    requires Lower(scheme) != ProjectScheme
    ensures AssetBaseDefined(Library, assetPath, scheme + ":" + rest)
    ensures ValidAssetURL(Library, fileExists, assetPath, Some(scheme + ":" + rest)) == InvalidScheme(Lower(scheme))
  {
    var s := scheme + ":" + rest;
    SchemeAt(s, |scheme|);
    assert s[..|scheme|] == scheme && s[|scheme| + 1..] == rest;
    LibraryAssetBaseDefined(assetPath, s);
    assert Library.tryCreateAbsolute(s) == TryCreateAbsolute(s);
  }

  /** The project scheme is recognised in any case, and its path is then checked as it stands. */
  lemma ProjectSchemeAnyCase(fileExists: string -> bool, assetPath: string, scheme: string, rest: string)
    requires |scheme| >= 1 && IsAlpha(scheme[0]) && forall i :: 0 <= i < |scheme| ==> IsSchemeChar(scheme[i])
    requires Lower(scheme) == ProjectScheme
    ensures AssetBaseDefined(Library, assetPath, scheme + ":" + rest)
    ensures var local := RemoveDotSegments(HierPath(rest));
      ValidAssetURL(Library, fileExists, assetPath, Some(scheme + ":" + rest)) ==
        CheckProjectPath(fileExists, if StartsWithSlash(local) then local[1..] else local)
  {
    var s := scheme + ":" + rest;
    SchemeAt(s, |scheme|);
    assert s[..|scheme|] == scheme && s[|scheme| + 1..] == rest;
    LibraryAssetBaseDefined(assetPath, s);
    assert Library.tryCreateAbsolute(s) == TryCreateAbsolute(s);
    var u := TryCreateAbsolute(s).value;
    assert Locate(Library, assetPath, s) == Located(u);
    assert Library.localPath(u) == u.path;
  }

  /** A root-relative reference `/p` is checked as `p`, whatever the asset. */
  lemma RootedReference(fileExists: string -> bool, assetPath: string, p: string)
    ensures ValidAssetURL(Library, fileExists, assetPath, Some("/" + p)) ==
      if p != "" && fileExists(p) then Ok(p) else InvalidProjectPath(p)
  {
    assert Library.localPath(Library.build(ProjectScheme, "/" + p)) == "/" + p;
    assert ("/" + p)[1..] == p;
  }

  /**
   * Only one separator is removed: `//q` is accepted as `/q`, a path that
   * still starts with a separator.
   */
  lemma LeadingSeparatorKept(fileExists: string -> bool, assetPath: string, q: string)
    requires fileExists("/" + q)
    ensures ValidAssetURL(Library, fileExists, assetPath, Some("//" + q)) == Ok("/" + q)
  {
    RootedReference(fileExists, assetPath, "/" + q);
    assert "/" + ("/" + q) == "//" + q;
  }
}
