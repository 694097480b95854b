/** OpModeClassLoader (FtcRobotController, both the `fileloader` revision and the older one):
    builds a DexClassLoader over the URLs of the `.jar` files, then searches every `.jar`
    file's dex entries for op modes. This revision catches every Throwable around each class
    and each entry, so one bad class never stops the search.
 */
module OpModeClassLoader {
  import opened JavaRuntime
  import opened ClassWalk
  import FileLoader
  import PathString

  /** attemptInstantiate: `newInstance()`, where only IllegalAccessException and
      InstantiationException become `false`; any other throwable escapes. */
  function AttemptInstantiate(c: ClassInfo): (r: Check)
    ensures r == Returns(true) <==> c.construct == Completes
    ensures r == Returns(false) <==> c.construct in {Throws(IllegalAccessException), Throws(InstantiationException)}
    ensures r.Raises? ==> c.construct == Throws(r.thrown)
  {
    match c.construct
    case Completes => Returns(true)
    case Throws(t) =>
      if t in {IllegalAccessException, InstantiationException} then Returns(false) else Raises(t)
  }

  /** What attemptLoadOpMode adds: it catches every Throwable, so only constructible op modes
      are kept and nothing escapes. */
  function OpModeVisit(c: ClassInfo): (s: Scan)
    ensures s.fault == None
    ensures s.found == (if Constructible(c) then [c] else [])
  {
    Scan(if c.isOpMode && AttemptInstantiate(c) == Returns(true) then [c] else [], None)
  }

  /** What attemptLoadClass adds, and what escapes from it (from `getDeclaredClasses()`). */
  function ClassScan(c: ClassInfo): Scan
  {
    Walk(OpModeVisit, c)
  }

  /** The Info line attemptLoadOpMode logs for an op mode, just before adding it. */
  function FoundLine(c: ClassInfo): LogLine
  {
    Line(Info, "Found " + c.simpleName + " as an op mode")
  }

  /** The lines logged while the op modes `cs` are added, one per op mode and in order. */
  function FoundLines(cs: seq<ClassInfo>): (lines: seq<LogLine>)
    ensures |lines| == |cs|
    ensures forall k :: 0 <= k < |cs| ==> lines[k] == FoundLine(cs[k])
  {
    if cs == [] then [] else [FoundLine(cs[0])] + FoundLines(cs[1..])
  }

  lemma FoundLinesAppend(a: seq<ClassInfo>, b: seq<ClassInfo>)
    ensures FoundLines(a + b) == FoundLines(a) + FoundLines(b)
  {
    assert forall k :: 0 <= k < |a + b| ==> FoundLines(a + b)[k] == (FoundLines(a) + FoundLines(b))[k];
  }

  lemma VisitKeepsConstructible()
    ensures KeepsConstructible(OpModeVisit)
  {
    forall c: ClassInfo
      ensures OpModeVisit(c).found == (if OpModeVisit(c).fault == None && Constructible(c) then [c] else [])
    {
    }
  }

  /** attemptLoadClass keeps the constructible op modes of the class and its nested classes in
      preorder; it stops early exactly when some class's `getDeclaredClasses()` throws, and then
      what it kept is a prefix of that list. */
  lemma ClassScanSpec(c: ClassInfo)
    ensures ClassScan(c).found <= ConstructibleAmong(Preorder(c))
    ensures ClassScan(c).fault == None <==> forall x :: x in Preorder(c) ==> !x.declaredThrows
    ensures ClassScan(c).fault == None ==> ClassScan(c).found == ConstructibleAmong(Preorder(c))
  {
    VisitKeepsConstructible();
    WalkPrefix(OpModeVisit, c);
    WalkCompletes(OpModeVisit, c);
  }

  /** One dex entry: a class that fails to load is skipped, and whatever escapes the class
      walk is caught (`catch (Throwable ex)`) after the classes found so far were added. */
  function EntryFound(env: Env, loader: DexClassLoader, entry: string): seq<ClassInfo>
  {
    match env.resolve(loader.dexPath, entry)
    case Loaded(c) => ClassScan(c).found
    case LoadFails(_) => []
  }

  function EntriesFound(env: Env, loader: DexClassLoader, entries: seq<string>): seq<ClassInfo>
  {
    if entries == [] then [] else EntryFound(env, loader, entries[0]) + EntriesFound(env, loader, entries[1..])
  }

  /** loadJarFile: `DexFile.loadDex` throws an IOException for a file that is not a dex archive. */
  function JarFileScan(env: Env, loader: DexClassLoader, jarfile: File): Scan
  {
    var path := AbsolutePath(jarfile);
    if path in env.dexIndex then Scan(EntriesFound(env, loader, env.dexIndex[path]), None)
    else Scan([], Some(IOException))
  }

  /** The search loop of loadJars: every file whose name ends in `.jar` (case-sensitively) is
      loaded, and an exception from loading it is ignored. */
  function JarsFound(env: Env, loader: DexClassLoader, files: seq<File>): seq<ClassInfo>
  {
    if files == [] then [] else JarFound(env, loader, files[0]) + JarsFound(env, loader, files[1..])
  }

  function JarFound(env: Env, loader: DexClassLoader, f: File): seq<ClassInfo>
  {
    if EndsWith(f.name, ".jar") then JarFileScan(env, loader, f).found else []
  }

  /** getJarURLs: the URLs of the regular files whose names end in `.jar`; a file whose URL is
      malformed is skipped. */
  function JarUrls(env: Env, files: seq<File>): seq<string>
  {
    if files == [] then []
    else
      (if env.isFile(files[0]) && EndsWith(files[0].name, ".jar")
       then (match ToUrl(env, files[0]) case Some(u) => [u] case None => [])
       else [])
      + JarUrls(env, files[1..])
  }

  /** A URL is in the list exactly when it is the URL of a regular file of the list whose name
      ends in `.jar`. */
  lemma {:induction false} JarUrlsMembership(env: Env, files: seq<File>, u: string)
    ensures u in JarUrls(env, files) <==>
              exists f :: f in files && env.isFile(f) && EndsWith(f.name, ".jar") && ToUrl(env, f) == Some(u)
  {
    if files != [] {
      JarUrlsMembership(env, files[1..], u);
      if exists f :: f in files && env.isFile(f) && EndsWith(f.name, ".jar") && ToUrl(env, f) == Some(u) {
        var f :| f in files && env.isFile(f) && EndsWith(f.name, ".jar") && ToUrl(env, f) == Some(u);
        if f != files[0] {
          assert f in files[1..];
        }
      }
      if exists f :: f in files[1..] && env.isFile(f) && EndsWith(f.name, ".jar") && ToUrl(env, f) == Some(u) {
        var f :| f in files[1..] && env.isFile(f) && EndsWith(f.name, ".jar") && ToUrl(env, f) == Some(u);
        assert f in files;
      }
    }
  }

  /** The class loader and the op-mode list, which the source keeps in (static) fields. */
  class OpModeClassLoader {
    var classLoader: Option<DexClassLoader>
    var opModeList: seq<ClassInfo>
    const env: Env

    constructor (env: Env)
      ensures classLoader == None && opModeList == [] && this.env == env
    {
      classLoader := None;
      opModeList := [];
      this.env := env;
    }

    method GetJarURLs(fileList: seq<File>) returns (jarurls: seq<string>)
      ensures jarurls == JarUrls(env, fileList)
    {
      jarurls := [];
      for i := 0 to |fileList|
        invariant jarurls + JarUrls(env, fileList[i..]) == JarUrls(env, fileList)
      {
        assert fileList[i..][1..] == fileList[i + 1..];
        var f := fileList[i];
        if env.isFile(f) && EndsWith(f.name, ".jar") {
          match ToUrl(env, f) {
            case Some(url) => jarurls := jarurls + [url];
            case None =>
          }
        }
      }
      assert fileList[|fileList|..] == [];
      assert jarurls + [] == jarurls;
    }

    /** getClassLoader: a DexClassLoader over the joined URLs, caching in the cache directory;
        an empty URL list makes the path string throw. */
    method GetClassLoader(jarurls: seq<string>) returns (r: Result<DexClassLoader>)
      ensures jarurls == [] ==> r == Failure(StringIndexOutOfBoundsException)
      ensures jarurls != [] ==> r == Success(DexClassLoader(PathString.Join(jarurls), CacheDirectory(env)))
    {
      var pathString := PathString.GetDelimitedPathString(jarurls);
      if pathString.Failure? {
        return Failure(pathString.error);
      }
      var cacheDir := CacheDirectory(env);
      r := Success(DexClassLoader(pathString.value, cacheDir));
    }

    /** initializeClassLoader (older revision): the loader over the URLs of every file. */
    method InitializeClassLoader(fileList: seq<File>) returns (thrown: Option<Throwable>, log: seq<LogLine>)
      modifies this
      ensures FileLoader.Urls(fileList, env) == [] ==>
                thrown == Some(StringIndexOutOfBoundsException) && classLoader == old(classLoader)
      ensures FileLoader.Urls(fileList, env) != [] ==>
                thrown == None
                && classLoader == Some(DexClassLoader(PathString.Join(FileLoader.Urls(fileList, env)), CacheDirectory(env)))
      ensures |log| + |FileLoader.Urls(fileList, env)| == |fileList|
      ensures forall k :: 0 <= k < |log| ==> log[k] == FileLoader.CANNOT_CONVERT
      ensures opModeList == old(opModeList)
    {
      var jarList;
      jarList, log := FileLoader.GetUrlList(fileList, env);
      var loader := GetClassLoader(jarList);
      if loader.Failure? {
        return Some(loader.error), log;
      }
      classLoader := Some(loader.value);
      thrown := None;
    }

    /** attemptLoadOpMode: adds `c` when it is an op mode that instantiates; catches everything. */
    method AttemptLoadOpMode(c: ClassInfo) returns (log: seq<LogLine>)
      modifies this
      ensures opModeList == old(opModeList) + OpModeVisit(c).found
      ensures log == FoundLines(OpModeVisit(c).found)
      ensures classLoader == old(classLoader)
    {
      log := [];
      if c.isOpMode {
        var instantiated := AttemptInstantiate(c);
        if instantiated == Returns(true) {
          log := [FoundLine(c)];
          opModeList := opModeList + [c];
        }
      }
    }

    /** attemptLoadClass: `c`, then its declared classes recursively; returns what escapes. */
    method AttemptLoadClass(c: ClassInfo) returns (thrown: Option<Throwable>, log: seq<LogLine>)
      modifies this
      ensures opModeList == old(opModeList) + ClassScan(c).found
      ensures log == FoundLines(ClassScan(c).found)
      ensures thrown == ClassScan(c).fault
      ensures classLoader == old(classLoader)
      decreases c
    {
      log := AttemptLoadOpMode(c);
      WalkUnfold(OpModeVisit, c);
      if c.declaredThrows {
        return Some(LinkageError), log;
      }
      ghost var done := OpModeVisit(c).found;
      var i := 0;
      while i < |c.declared|
        invariant 0 <= i <= |c.declared|
        invariant opModeList == old(opModeList) + done
        invariant log == FoundLines(done)
        invariant Then(Scan(done, None), WalkAll(OpModeVisit, c.declared[i..])) == ClassScan(c)
        invariant classLoader == old(classLoader)
      {
        WalkAllStep(OpModeVisit, c.declared, i, done, ClassScan(c));
        var nested, nestedLog := AttemptLoadClass(c.declared[i]);
        ConcatAssoc(old(opModeList), done, ClassScan(c.declared[i]).found);
        FoundLinesAppend(done, ClassScan(c.declared[i]).found);
        log := log + nestedLog;
        done := done + ClassScan(c.declared[i]).found;
        if nested.Some? {
          return nested, log;
        }
        i := i + 1;
      }
      WalkAllDone(OpModeVisit, c.declared, done, ClassScan(c));
      thrown := None;
    }

    /** loadJarFile: every entry of the dex file is loaded and walked. */
    method LoadJarFile(jarfile: File) returns (thrown: Option<Throwable>, log: seq<LogLine>)
      requires classLoader.Some?
      modifies this
      ensures classLoader == old(classLoader)
      ensures opModeList == old(opModeList) + JarFileScan(env, classLoader.value, jarfile).found
      ensures log == FoundLines(JarFileScan(env, classLoader.value, jarfile).found)
      ensures thrown == JarFileScan(env, classLoader.value, jarfile).fault
    {
      log := [];
      var path := AbsolutePath(jarfile);
      if path !in env.dexIndex {
        assert opModeList + [] == opModeList;
        return Some(IOException), log;
      }
      var entries := env.dexIndex[path];
      var loader := classLoader.value;
      assert entries[0..] == entries;
      ghost var done: seq<ClassInfo> := [];
      for i := 0 to |entries|
        invariant classLoader == old(classLoader)
        invariant opModeList == old(opModeList) + done
        invariant log == FoundLines(done)
        invariant done + EntriesFound(env, loader, entries[i..]) == EntriesFound(env, loader, entries)
      {
        EntriesStep(env, loader, entries, i);
        ghost var entryFound := EntryFound(env, loader, entries[i]);
        FoundLinesAppend(done, entryFound);
        match env.resolve(loader.dexPath, entries[i]) {
          case Loaded(c) =>
            var ignored, classLog := AttemptLoadClass(c);
            assert entryFound == ClassScan(c).found;
            log := log + classLog;
          case LoadFails(_) =>
            assert opModeList == opModeList + entryFound;
            assert log == log + FoundLines(entryFound);
        }
        ghost var prev := done;
        done := done + entryFound;
        ConcatAssoc(prev, entryFound, EntriesFound(env, loader, entries[i + 1..]));
        ConcatAssoc(old(opModeList), prev, entryFound);
      }
      assert entries[|entries|..] == [];
      assert done + [] == done;
      assert done == EntriesFound(env, loader, entries);
      thrown := None;
    }

    /** loadJars: the class loader over the `.jar` URLs, then a fresh op-mode list filled from
        every `.jar` file. Only the empty path string escapes; the state is then unchanged. */
    method LoadJars(fileList: seq<File>) returns (r: Result<seq<ClassInfo>>, log: seq<LogLine>)
      modifies this
      ensures JarUrls(env, fileList) == [] ==>
                r == Failure(StringIndexOutOfBoundsException) && log == []
                && classLoader == old(classLoader) && opModeList == old(opModeList)
      ensures JarUrls(env, fileList) != [] ==>
                classLoader == Some(DexClassLoader(PathString.Join(JarUrls(env, fileList)), CacheDirectory(env)))
                && opModeList == JarsFound(env, classLoader.value, fileList)
                && r == Success(opModeList) && log == FoundLines(opModeList)
    {
      log := [];
      var jarurls := GetJarURLs(fileList);
      var loader := GetClassLoader(jarurls);
      if loader.Failure? {
        return Failure(loader.error), log;
      }
      classLoader := Some(loader.value);
      opModeList := [];
      assert fileList[0..] == fileList;
      for i := 0 to |fileList|
        invariant classLoader == Some(loader.value)
        invariant opModeList + JarsFound(env, loader.value, fileList[i..]) == JarsFound(env, loader.value, fileList)
        invariant log == FoundLines(opModeList)
      {
        assert fileList[i..][1..] == fileList[i + 1..];
        ghost var prev := opModeList;
        var jarfile := fileList[i];
        FoundLinesAppend(prev, JarFound(env, loader.value, jarfile));
        if EndsWith(jarfile.name, ".jar") {
          var ignored, fileLog := LoadJarFile(jarfile);
          log := log + fileLog;
        } else {
          assert opModeList == prev + JarFound(env, loader.value, jarfile);
        }
        ConcatAssoc(prev, JarFound(env, loader.value, jarfile), JarsFound(env, loader.value, fileList[i + 1..]));
      }
      assert fileList[|fileList|..] == [];
      assert opModeList + [] == opModeList;
      r := Success(opModeList);
    }
  }

  lemma EntriesStep(env: Env, loader: DexClassLoader, entries: seq<string>, i: nat)
    requires i < |entries|
    ensures EntriesFound(env, loader, entries[i..])
            == EntryFound(env, loader, entries[i]) + EntriesFound(env, loader, entries[i + 1..])
  {
    assert entries[i..][1..] == entries[i + 1..];
  }

  /** The entries of a dex file are searched independently: what one entry adds does not depend
      on the others. */
  lemma {:induction false} EntriesFoundAppend(env: Env, loader: DexClassLoader, a: seq<string>, b: seq<string>)
    ensures EntriesFound(env, loader, a + b) == EntriesFound(env, loader, a) + EntriesFound(env, loader, b)
  {
    if a == [] {
      assert a + b == b;
    } else {
      assert (a + b)[1..] == a[1..] + b;
      EntriesFoundAppend(env, loader, a[1..], b);
      ConcatAssoc(EntryFound(env, loader, a[0]), EntriesFound(env, loader, a[1..]), EntriesFound(env, loader, b));
    }
  }

  /** The jars are searched independently, so a jar that cannot be opened costs only its own op modes. */
  lemma {:induction false} JarsFoundAppend(env: Env, loader: DexClassLoader, a: seq<File>, b: seq<File>)
    ensures JarsFound(env, loader, a + b) == JarsFound(env, loader, a) + JarsFound(env, loader, b)
  {
    if a == [] {
      assert a + b == b;
    } else {
      assert (a + b)[1..] == a[1..] + b;
      JarsFoundAppend(env, loader, a[1..], b);
      ConcatAssoc(JarFound(env, loader, a[0]), JarsFound(env, loader, a[1..]), JarsFound(env, loader, b));
    }
  }

  /** Every class found in the entries is a constructible op mode reached from a loaded entry. */
  lemma {:induction false} EntriesFoundSound(env: Env, loader: DexClassLoader, entries: seq<string>, x: ClassInfo)
    requires x in EntriesFound(env, loader, entries)
    ensures Constructible(x)
    ensures exists k :: 0 <= k < |entries| && env.resolve(loader.dexPath, entries[k]).Loaded?
                        && x in Preorder(env.resolve(loader.dexPath, entries[k]).cls)
  {
    if x in EntryFound(env, loader, entries[0]) {
      var c := env.resolve(loader.dexPath, entries[0]).cls;
      ClassScanSpec(c);
      ConstructibleAmongMembers(Preorder(c), x);
    } else {
      EntriesFoundSound(env, loader, entries[1..], x);
      var k :| 0 <= k < |entries[1..]| && env.resolve(loader.dexPath, entries[1..][k]).Loaded?
               && x in Preorder(env.resolve(loader.dexPath, entries[1..][k]).cls);
      assert entries[k + 1] == entries[1..][k];
    }
  }

  /** Every class loadJars returns is a constructible op mode from a `.jar` file of the list. */
  lemma {:induction false} JarsFoundSound(env: Env, loader: DexClassLoader, files: seq<File>, x: ClassInfo)
    requires x in JarsFound(env, loader, files)
    ensures Constructible(x)
    ensures exists k :: 0 <= k < |files| && EndsWith(files[k].name, ".jar") && AbsolutePath(files[k]) in env.dexIndex
  {
    if x in JarFound(env, loader, files[0]) {
      EntriesFoundSound(env, loader, env.dexIndex[AbsolutePath(files[0])], x);
    } else {
      JarsFoundSound(env, loader, files[1..], x);
      var k :| 0 <= k < |files[1..]| && EndsWith(files[1..][k].name, ".jar") && AbsolutePath(files[1..][k]) in env.dexIndex;
      assert files[k + 1] == files[1..][k];
    }
  }
}
