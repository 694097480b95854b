/** FileLoader (FtcRobotController): finds the files under the op-mode directory on the
    SD card, keeps the jars among them and turns files into URLs.
 */
module FileLoader {
  import opened JavaRuntime

  /** The directory on the SD card that holds the op-mode jars. */
  const FILE_LOCATION := "FIRST"

  /** A directory tree as `listFiles()` shows it. A `Special` entry is neither a regular
      file nor a directory (`isFile()` and `isDirectory()` are both false). An `Unlisted`
      entry is a directory whose `listFiles()` returns null, because it cannot be read. */
  datatype Node =
    | RegularFile(file: File)
    | Directory(file: File, children: seq<Node>)
    | Special(file: File)
    | Unlisted(file: File)

  // ----- getFilesInDirectory -----

  /** The regular files below a node, in the order the recursive walk meets them. */
  function FilesOf(n: Node): seq<File>
    decreases n
  {
    match n
    case RegularFile(f) => [f]
    case Directory(_, children) => FilesUnder(children)
    case Special(_) => []
    case Unlisted(_) => []
  }

  function FilesUnder(ns: seq<Node>): seq<File>
    decreases ns
  {
    if ns == [] then [] else FilesOf(ns[0]) + FilesUnder(ns[1..])
  }

  /** The walk below `n` meets a directory whose `listFiles()` returns null. */
  predicate ListingFailsIn(n: Node)
    decreases n
  {
    match n
    case Unlisted(_) => true
    case Directory(_, children) => ListingFailsUnder(children)
    case _ => false
  }

  predicate ListingFailsUnder(ns: seq<Node>)
    decreases ns
  {
    exists k :: 0 <= k < |ns| && ListingFailsIn(ns[k])
  }

  /** `listFiles()` returns a list on `n` and on every directory below it. */
  predicate Listable(n: Node)
  {
    n.Directory? && !ListingFailsUnder(n.children)
  }

  /** Appends every regular file below `baseDirectory` to `foundFiles`. When `listFiles()`
      returns null, on `baseDirectory` or on a directory below it, the for-each throws a
      NullPointerException and the files appended before it stay in the list. */
  method GetFilesInDirectory(baseDirectory: Node, foundFiles: JavaList<File>) returns (thrown: Option<Throwable>)
    modifies foundFiles
    ensures Listable(baseDirectory) ==>
              thrown == None && foundFiles.elems == old(foundFiles.elems) + FilesUnder(baseDirectory.children)
    ensures !Listable(baseDirectory) ==>
              thrown == Some(NullPointerException) && old(foundFiles.elems) <= foundFiles.elems
    decreases baseDirectory
  {
    if !baseDirectory.Directory? {
      return Some(NullPointerException);
    }
    var children := baseDirectory.children;
    ghost var start := foundFiles.elems;
    for i := 0 to |children|
      invariant foundFiles.elems + FilesUnder(children[i..]) == start + FilesUnder(children)
      invariant start <= foundFiles.elems
      invariant forall k :: 0 <= k < i ==> !ListingFailsIn(children[k])
    {
      assert children[i..][1..] == children[i + 1..];
      var f := children[i];
      if f.RegularFile? {
        foundFiles.Add(f.file);
      } else if f.Directory? || f.Unlisted? {
        var nested := GetFilesInDirectory(f, foundFiles);
        if nested.Some? {
          assert ListingFailsIn(children[i]);
          return nested;
        }
      }
    }
    thrown := None;
  }

  /** getFileSet: the files under the target directory, in a new list. When `listFiles()`
      returns null on the target or on a directory below it, the walk throws. */
  method GetFileSet(target: Node) returns (r: Result<JavaList<File>>)
    ensures !Listable(target) ==> r == Failure(NullPointerException)
    ensures Listable(target) ==> r.Success? && fresh(r.value) && r.value.elems == FilesUnder(target.children)
  {
    var list := new JavaList<File>();
    var thrown := GetFilesInDirectory(target, list);
    if thrown.Some? {
      return Failure(thrown.value);
    }
    r := Success(list);
  }

  /** The nodes of a tree in walk order: each node before the nodes below it. */
  function Subtree(n: Node): seq<Node>
    decreases n
  {
    [n] + (if n.Directory? then Forest(n.children) else [])
  }

  function Forest(ns: seq<Node>): seq<Node>
    decreases ns
  {
    if ns == [] then [] else Subtree(ns[0]) + Forest(ns[1..])
  }

  /** The files of the regular-file nodes among `ns`, in order. */
  function RegularAmong(ns: seq<Node>): seq<File>
  {
    if ns == [] then [] else (if ns[0].RegularFile? then [ns[0].file] else []) + RegularAmong(ns[1..])
  }

  lemma {:induction false} RegularAmongAppend(a: seq<Node>, b: seq<Node>)
    ensures RegularAmong(a + b) == RegularAmong(a) + RegularAmong(b)
  {
    if a == [] {
      assert a + b == b;
    } else {
      assert (a + b)[1..] == a[1..] + b;
      RegularAmongAppend(a[1..], b);
      ConcatAssoc(if a[0].RegularFile? then [a[0].file] else [], RegularAmong(a[1..]), RegularAmong(b));
    }
  }

  /** The walk collects exactly the regular-file nodes of the tree, in walk order;
      directories and special entries are never collected. */
  lemma {:induction false} FilesOfAreRegularNodes(n: Node)
    ensures FilesOf(n) == RegularAmong(Subtree(n))
    decreases n
  {
    match n
    case RegularFile(f) =>
      assert Subtree(n) == [n];
    case Special(_) =>
      assert Subtree(n) == [n];
    case Unlisted(_) =>
      assert Subtree(n) == [n];
    case Directory(_, children) =>
      FilesUnderAreRegularNodes(children);
      RegularAmongAppend([n], Forest(children));
  }

  lemma {:induction false} FilesUnderAreRegularNodes(ns: seq<Node>)
    ensures FilesUnder(ns) == RegularAmong(Forest(ns))
    decreases ns
  {
    if ns != [] {
      FilesOfAreRegularNodes(ns[0]);
      FilesUnderAreRegularNodes(ns[1..]);
      RegularAmongAppend(Subtree(ns[0]), Forest(ns[1..]));
    }
  }

  lemma {:induction false} RegularAmongSound(ns: seq<Node>, f: File)
    requires f in RegularAmong(ns)
    ensures exists k :: 0 <= k < |ns| && ns[k] == RegularFile(f)
  {
    if ns[0].RegularFile? && ns[0].file == f {
      assert ns[0] == RegularFile(f);
    } else {
      RegularAmongSound(ns[1..], f);
      var k :| 0 <= k < |ns[1..]| && ns[1..][k] == RegularFile(f);
      assert ns[k + 1] == RegularFile(f);
    }
  }

  /** Every collected file is the file of a regular-file node of the tree. */
  lemma CollectedFilesAreRegular(target: Node, f: File)
    requires target.Directory?
    requires f in FilesUnder(target.children)
    ensures exists k :: 0 <= k < |Forest(target.children)| && Forest(target.children)[k] == RegularFile(f)
  {
    FilesUnderAreRegularNodes(target.children);
    RegularAmongSound(Forest(target.children), f);
  }

  // ----- filterForType -----

  /** The suffix filterForType matches: the file type with a leading dot. */
  function DottedSuffix(filetype: string): (suffix: string)
    ensures StartsWith(suffix, ".")
    ensures StartsWith(filetype, ".") ==> suffix == filetype
    ensures !StartsWith(filetype, ".") ==> suffix[1..] == filetype
  {
    if StartsWith(filetype, ".") then filetype else "." + filetype
  }

  /** `jar` and `.jar` select the same files. */
  lemma DotIsOptional(filetype: string)
    requires !StartsWith(filetype, ".")
    ensures DottedSuffix(filetype) == DottedSuffix("." + filetype)
  {
    assert ("." + filetype)[..1] == ".";
  }

  /** The lower-cased name ends with the suffix; the suffix itself is not lower-cased. */
  predicate HasType(f: File, suffix: string)
  {
    EndsWith(ToLower(f.name), suffix)
  }

  /** The files of `files` that have the type, in order. */
  function Filter(files: seq<File>, suffix: string): seq<File>
  {
    if files == [] then []
    else (if HasType(files[0], suffix) then [files[0]] else []) + Filter(files[1..], suffix)
  }

  /** Removes, walking from the last index down, every file whose name lacks the type. */
  method FilterForType(fileList: JavaList<File>, filetype: string)
    modifies fileList
    ensures fileList.elems == Filter(old(fileList.elems), DottedSuffix(filetype))
  {
    var suffix := DottedSuffix(filetype);
    ghost var orig := fileList.elems;
    var i := fileList.Size() - 1;
    while i >= 0
      invariant -1 <= i < |orig|
      invariant fileList.elems == orig[..i + 1] + Filter(orig[i + 1..], suffix)
      decreases i
    {
      assert orig[i..][1..] == orig[i + 1..];
      assert fileList.elems[i] == orig[i];
      ghost var rest := Filter(orig[i + 1..], suffix);
      if !HasType(fileList.Get(i), suffix) {
        ghost var before := fileList.elems;
        fileList.Remove(i);
        assert before[..i] == orig[..i];
        assert before[i + 1..] == rest;
      } else {
        assert orig[..i + 1] == orig[..i] + [orig[i]];
        ConcatAssoc(orig[..i], [orig[i]], rest);
      }
      i := i - 1;
    }
    assert orig[0..] == orig;
  }

  /** Every survivor has the type and comes from the input. */
  lemma {:induction false} FilterSound(files: seq<File>, suffix: string, f: File)
    requires f in Filter(files, suffix)
    ensures f in files && HasType(f, suffix)
  {
    if !(HasType(files[0], suffix) && f == files[0]) {
      FilterSound(files[1..], suffix, f);
    }
  }

  /** Every input file that has the type survives. */
  lemma {:induction false} FilterComplete(files: seq<File>, suffix: string, f: File)
    requires f in files && HasType(f, suffix)
    ensures f in Filter(files, suffix)
  {
    if f != files[0] {
      FilterComplete(files[1..], suffix, f);
    }
  }

  /** `a` occurs in `b` in order, possibly with gaps. */
  predicate IsSubsequence(a: seq<File>, b: seq<File>)
  {
    if a == [] then true
    else if b == [] then false
    else if a[0] == b[0] then IsSubsequence(a[1..], b[1..])
    else IsSubsequence(a, b[1..])
  }

  /** The survivors keep their relative order. */
  lemma {:induction false} FilterKeepsOrder(files: seq<File>, suffix: string)
    ensures IsSubsequence(Filter(files, suffix), files)
  {
    if files != [] {
      FilterKeepsOrder(files[1..], suffix);
      var rest := Filter(files[1..], suffix);
      if HasType(files[0], suffix) {
        assert Filter(files, suffix) == [files[0]] + rest;
        assert ([files[0]] + rest)[1..] == rest;
      } else if rest != [] {
        FilterSound(files[1..], suffix, rest[0]);
        assert Filter(files, suffix) == rest;
        assert rest[0] != files[0];
      }
    }
  }

  /** Filtering twice with the same type is filtering once. */
  lemma {:induction false} FilterIdempotent(files: seq<File>, suffix: string)
    ensures Filter(Filter(files, suffix), suffix) == Filter(files, suffix)
  {
    if files != [] {
      FilterIdempotent(files[1..], suffix);
      var rest := Filter(files[1..], suffix);
      if HasType(files[0], suffix) {
        var once := [files[0]] + rest;
        assert Filter(files, suffix) == once;
        assert once[0] == files[0] && once[1..] == rest;
        assert Filter(once, suffix) == [files[0]] + Filter(rest, suffix);
      } else {
        assert Filter(files, suffix) == rest;
      }
    }
  }

  lemma {:induction false} LowerHasNoUpper(s: string, suffix: string)
    requires EndsWith(ToLower(s), suffix)
    ensures forall k :: 0 <= k < |suffix| ==> !IsUpper(suffix[k])
  {
    var low := ToLower(s);
    forall k | 0 <= k < |suffix|
      ensures !IsUpper(suffix[k])
    {
      assert suffix[k] == low[|low| - |suffix| + k];
    }
  }

  /** A file type written with an upper-case letter selects nothing, because only the
      file name is lower-cased. */
  lemma {:induction false} UpperCaseTypeMatchesNothing(files: seq<File>, suffix: string, k: nat)
    requires k < |suffix| && IsUpper(suffix[k])
    ensures Filter(files, suffix) == []
  {
    if files != [] {
      if HasType(files[0], suffix) {
        LowerHasNoUpper(files[0].name, suffix);
      }
      UpperCaseTypeMatchesNothing(files[1..], suffix, k);
    }
  }

  // ----- getJarList -----

  /** getJarList: the file set, filtered in place for the type "jar". */
  method GetJarList(target: Node) returns (r: Result<seq<File>>)
    ensures !Listable(target) ==> r == Failure(NullPointerException)
    ensures Listable(target) ==> r == Success(Filter(FilesUnder(target.children), ".jar"))
  {
    var fileSet := GetFileSet(target);
    if fileSet.Failure? {
      return Failure(fileSet.error);
    }
    var fileList := fileSet.value;
    FilterForType(fileList, "jar");
    assert "jar"[0] != '.';
    assert DottedSuffix("jar") == ".jar";
    r := Success(fileList.elems);
  }

  // ----- getUrlList -----

  /** The URLs of the files that convert, in order. */
  function Urls(files: seq<File>, env: Env): (urls: seq<string>)
    ensures |urls| <= |files|
  {
    if files == [] then []
    else (match ToUrl(env, files[0]) case Some(u) => [u] case None => []) + Urls(files[1..], env)
  }

  const CANNOT_CONVERT := Line(Error, "Cannot convert a file to URL:")

  /** `n` copies of the line logged for a file that has no URL. */
  function CannotConvertLines(n: nat): (lines: seq<LogLine>)
    ensures |lines| == n && forall k :: 0 <= k < n ==> lines[k] == CANNOT_CONVERT
  {
    seq(n, _ => CANNOT_CONVERT)
  }

  /** One URL per file that converts, and one error line per file that does not. */
  method GetUrlList(fileList: seq<File>, env: Env) returns (urlList: seq<string>, log: seq<LogLine>)
    ensures urlList == Urls(fileList, env)
    ensures |log| + |urlList| == |fileList|
    ensures forall k :: 0 <= k < |log| ==> log[k] == CANNOT_CONVERT
    ensures log == CannotConvertLines(|fileList| - |urlList|)
  {
    urlList := [];
    log := [];
    for i := 0 to |fileList|
      invariant urlList + Urls(fileList[i..], env) == Urls(fileList, env)
      invariant |log| + |urlList| == i
      invariant log == CannotConvertLines(|log|)
    {
      assert fileList[i..][1..] == fileList[i + 1..];
      match ToUrl(env, fileList[i]) {
        case Some(url) =>
          assert Urls(fileList[i..], env) == [url] + Urls(fileList[i + 1..], env);
          ConcatAssoc(urlList, [url], Urls(fileList[i + 1..], env));
          urlList := urlList + [url];
        case None =>
          assert Urls(fileList[i..], env) == [] + Urls(fileList[i + 1..], env) == Urls(fileList[i + 1..], env);
          assert log + [CANNOT_CONVERT] == CannotConvertLines(|log| + 1);
          log := log + [CANNOT_CONVERT];
      }
    }
    assert fileList[|fileList|..] == [];
  }

  /** A file that fails to convert does not stop the files after it. */
  lemma {:induction false} UrlsAppend(a: seq<File>, b: seq<File>, env: Env)
    ensures Urls(a + b, env) == Urls(a, env) + Urls(b, env)
  {
    if a == [] {
      assert a + b == b;
    } else {
      assert (a + b)[1..] == a[1..] + b;
      UrlsAppend(a[1..], b, env);
    }
  }

  /** Every file that converts contributes its URL. */
  lemma {:induction false} UrlsComplete(files: seq<File>, env: Env, f: File)
    requires f in files && ToUrl(env, f).Some?
    ensures ToUrl(env, f).value in Urls(files, env)
  {
    if f != files[0] {
      UrlsComplete(files[1..], env, f);
    }
  }

  /** Every URL in the list is the URL of one of the files. */
  lemma {:induction false} UrlsSound(files: seq<File>, env: Env, u: string)
    requires u in Urls(files, env)
    ensures exists f :: f in files && ToUrl(env, f) == Some(u)
  {
    if ToUrl(env, files[0]) == Some(u) {
      assert files[0] in files;
    } else {
      UrlsSound(files[1..], env, u);
      var f :| f in files[1..] && ToUrl(env, f) == Some(u);
      assert f in files;
    }
  }

  /** The files whose URL is well formed, in order. */
  function UrlFiles(files: seq<File>, env: Env): seq<File>
  {
    if files == [] then [] else (if env.urlFails(files[0]) then [] else [files[0]]) + UrlFiles(files[1..], env)
  }
}
