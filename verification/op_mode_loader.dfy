/** OpModeLoader (FtcRobotController, and the later ThunderbotsRobotController revision, whose
    search is the same): a DexClassLoader over the URLs of a file list, and a search of every
    file's dex entries for op modes. This loader catches only Exceptions: an Error (a
    LinkageError) raised while instantiating a class or listing its nested classes stops
    the whole search.
 */
module OpModeLoader {
  import opened JavaRuntime
  import opened ClassWalk
  import FileLoader
  import PathString

  /** isInstantiable: `newInstance()`, where any Exception means `false` and an Error escapes. */
  function IsInstantiable(c: ClassInfo): (r: Check)
    ensures r == Returns(true) <==> c.construct == Completes
    ensures r.Raises? <==> c.construct.Throws? && !c.construct.thrown.IsException()
    ensures r.Raises? ==> c.construct == Throws(r.thrown)
  {
    match c.construct
    case Completes => Returns(true)
    case Throws(t) => if t.IsException() then Returns(false) else Raises(t)
  }

  /** An op mode whose constructor throws an Error: the one class on which loadOpMode throws. */
  predicate ConstructionFails(c: ClassInfo)
  {
    c.isOpMode && c.construct.Throws? && !c.construct.thrown.IsException()
  }

  /** What loadOpMode adds, and what escapes from it. Only an op mode is instantiated. */
  function OpModeVisit(c: ClassInfo): (s: Scan)
    ensures s.fault != None <==> ConstructionFails(c)
  {
    if !c.isOpMode then Scan([], None)
    else
      match IsInstantiable(c)
      case Returns(b) => Scan(if b then [c] else [], None)
      case Raises(t) => Scan([], Some(t))
  }

  /** What loadClass adds, and what escapes from it. */
  function ClassScan(c: ClassInfo): Scan
  {
    Walk(OpModeVisit, c)
  }

  lemma VisitKeepsConstructible()
    ensures KeepsConstructible(OpModeVisit)
  {
    forall c: ClassInfo
      ensures OpModeVisit(c).found == (if OpModeVisit(c).fault == None && Constructible(c) then [c] else [])
    {
    }
  }

  /** loadClass keeps the constructible op modes of the class and its nested classes in preorder,
      and runs to the end exactly when no class in that order is an op mode whose constructor
      throws an Error or a class whose nested classes cannot be listed; what it keeps before
      stopping is a prefix of that list. */
  lemma ClassScanSpec(c: ClassInfo)
    ensures ClassScan(c).found <= ConstructibleAmong(Preorder(c))
    ensures ClassScan(c).fault == None <==>
              forall x :: x in Preorder(c) ==> !ConstructionFails(x) && !x.declaredThrows
    ensures ClassScan(c).fault == None ==> ClassScan(c).found == ConstructibleAmong(Preorder(c))
  {
    VisitKeepsConstructible();
    WalkPrefix(OpModeVisit, c);
    WalkCompletes(OpModeVisit, c);
  }

  /** One dex entry inside `try { ... } catch (ClassNotFoundException e)`. */
  function EntryScan(env: Env, loader: DexClassLoader, entry: string): Scan
  {
    var s := match env.resolve(loader.dexPath, entry)
             case Loaded(c) => ClassScan(c)
             case LoadFails(t) => Scan([], Some(t));
    if s.fault == Some(ClassNotFoundException) then Scan(s.found, None) else s
  }

  function EntriesScan(env: Env, loader: DexClassLoader, entries: seq<string>): Scan
  {
    if entries == [] then Scan([], None)
    else Then(EntryScan(env, loader, entries[0]), EntriesScan(env, loader, entries[1..]))
  }

  /** loadJar: `DexFile.loadDex` throws an IOException for a file that is not a dex archive. */
  function JarScan(env: Env, loader: DexClassLoader, jarFile: File): Scan
  {
    var path := AbsolutePath(jarFile);
    if path in env.dexIndex then EntriesScan(env, loader, env.dexIndex[path]) else Scan([], Some(IOException))
  }

  /** The line getOpModes logs for a file that cannot be opened. */
  function CannotOpen(f: File): LogLine
  {
    Line(Error, AbsolutePath(f) + " cannot be opened")
  }

  /** What getOpModes has found and logged, and the throwable that escaped from it. */
  datatype Search = Search(found: seq<ClassInfo>, log: seq<LogLine>, fault: Option<Throwable>)

  function Prefix(found: seq<ClassInfo>, log: seq<LogLine>, rest: Search): Search
  {
    Search(found + rest.found, log + rest.log, rest.fault)
  }

  lemma PrefixAssoc(found: seq<ClassInfo>, log: seq<LogLine>, more: seq<ClassInfo>, moreLog: seq<LogLine>, rest: Search)
    ensures Prefix(found, log, Prefix(more, moreLog, rest)) == Prefix(found + more, log + moreLog, rest)
  {
    ConcatAssoc(found, more, rest.found);
    ConcatAssoc(log, moreLog, rest.log);
  }

  /** The loop of getOpModes: an IOException is logged and the next file is searched; any other
      throwable ends the search. What a file added before it threw stays in the list. */
  function FilesSearch(env: Env, loader: DexClassLoader, files: seq<File>): Search
  {
    if files == [] then Search([], [], None)
    else
      var s := JarScan(env, loader, files[0]);
      if s.fault == Some(IOException) then Prefix(s.found, [CannotOpen(files[0])], FilesSearch(env, loader, files[1..]))
      else if s.fault != None then Search(s.found, [], s.fault)
      else Prefix(s.found, [], FilesSearch(env, loader, files[1..]))
  }

  class OpModeLoader {
    /** The class loader that loads the classes of the searched files. */
    const classLoader: DexClassLoader
    /** The files searched for op modes. */
    const fileList: seq<File>
    const env: Env
    /** The op modes found by the last search. */
    var opModeList: seq<ClassInfo>

    constructor (fileList: seq<File>, classLoader: DexClassLoader, env: Env)
      ensures this.fileList == fileList && this.classLoader == classLoader && this.env == env
      ensures opModeList == []
    {
      this.fileList := fileList;
      this.classLoader := classLoader;
      this.env := env;
      opModeList := [];
    }

    /** getOpModes: a fresh list, filled from every file of `fileList` in order. */
    method GetOpModes() returns (r: Result<seq<ClassInfo>>, log: seq<LogLine>)
      modifies this
      ensures opModeList == FilesSearch(env, classLoader, fileList).found
      ensures log == FilesSearch(env, classLoader, fileList).log
      ensures FilesSearch(env, classLoader, fileList).fault == None ==> r == Success(opModeList)
      ensures FilesSearch(env, classLoader, fileList).fault != None ==>
                r == Failure(FilesSearch(env, classLoader, fileList).fault.value)
    {
      opModeList := [];
      log := [];
      assert fileList[0..] == fileList;
      for i := 0 to |fileList|
        invariant Prefix(opModeList, log, FilesSearch(env, classLoader, fileList[i..]))
                  == FilesSearch(env, classLoader, fileList)
      {
        assert fileList[i..][1..] == fileList[i + 1..];
        ghost var rest := FilesSearch(env, classLoader, fileList[i + 1..]);
        ghost var prevList, prevLog := opModeList, log;
        var f := fileList[i];
        var thrown := LoadJar(f);
        if thrown == Some(IOException) {
          PrefixAssoc(prevList, prevLog, JarScan(env, classLoader, f).found, [CannotOpen(f)], rest);
          log := log + [CannotOpen(f)];
        } else if thrown.Some? {
          PrefixAssoc(prevList, prevLog, JarScan(env, classLoader, f).found, [], Search([], [], thrown));
          assert log + [] == log;
          return Failure(thrown.value), log;
        } else {
          PrefixAssoc(prevList, prevLog, JarScan(env, classLoader, f).found, [], rest);
          assert log + [] == log;
        }
      }
      assert fileList[|fileList|..] == [];
      assert opModeList + [] == opModeList;
      assert log + [] == log;
      r := Success(opModeList);
    }

    /** loadJar: the entries of one dex file; a ClassNotFoundException skips the entry. */
    method LoadJar(jarFile: File) returns (thrown: Option<Throwable>)
      modifies this
      ensures opModeList == old(opModeList) + JarScan(env, classLoader, jarFile).found
      ensures thrown == JarScan(env, classLoader, jarFile).fault
    {
      var path := AbsolutePath(jarFile);
      if path !in env.dexIndex {
        assert opModeList + [] == opModeList;
        return Some(IOException);
      }
      var entries := env.dexIndex[path];
      assert entries[0..] == entries;
      ghost var done: seq<ClassInfo> := [];
      for i := 0 to |entries|
        invariant opModeList == old(opModeList) + done
        invariant Then(Scan(done, None), EntriesScan(env, classLoader, entries[i..])) == EntriesScan(env, classLoader, entries)
      {
        assert entries[i..][1..] == entries[i + 1..];
        var entry := entries[i];
        ghost var step := EntryScan(env, classLoader, entry);
        ThenStep(done, step, EntriesScan(env, classLoader, entries[i + 1..]), EntriesScan(env, classLoader, entries));
        var escaped: Option<Throwable>;
        match env.resolve(classLoader.dexPath, entry) {
          case Loaded(c) =>
            escaped := LoadClass(c);
          case LoadFails(t) =>
            assert opModeList + [] == opModeList;
            escaped := Some(t);
        }
        ConcatAssoc(old(opModeList), done, step.found);
        done := done + step.found;
        if escaped.Some? && escaped != Some(ClassNotFoundException) {
          return escaped;
        }
      }
      assert entries[|entries|..] == [];
      assert done + [] == done;
      thrown := None;
    }

    /** loadClass: `c`, then its declared classes recursively; returns what escapes. */
    method LoadClass(c: ClassInfo) returns (thrown: Option<Throwable>)
      modifies this
      ensures opModeList == old(opModeList) + ClassScan(c).found
      ensures thrown == ClassScan(c).fault
      decreases c
    {
      var escaped := LoadOpMode(c);
      if escaped.Some? {
        assert opModeList + [] == opModeList;
        return escaped;
      }
      WalkUnfold(OpModeVisit, c);
      if c.declaredThrows {
        return Some(LinkageError);
      }
      ghost var done := OpModeVisit(c).found;
      var i := 0;
      while i < |c.declared|
        invariant 0 <= i <= |c.declared|
        invariant opModeList == old(opModeList) + done
        invariant Then(Scan(done, None), WalkAll(OpModeVisit, c.declared[i..])) == ClassScan(c)
      {
        WalkAllStep(OpModeVisit, c.declared, i, done, ClassScan(c));
        var nested := LoadClass(c.declared[i]);
        ConcatAssoc(old(opModeList), done, ClassScan(c.declared[i]).found);
        done := done + ClassScan(c.declared[i]).found;
        if nested.Some? {
          return nested;
        }
        i := i + 1;
      }
      WalkAllDone(OpModeVisit, c.declared, done, ClassScan(c));
      thrown := None;
    }

    /** loadOpMode: adds `c` when it is an op mode and instantiable; an Error escapes. */
    method LoadOpMode(c: ClassInfo) returns (thrown: Option<Throwable>)
      modifies this
      ensures opModeList == old(opModeList) + OpModeVisit(c).found
      ensures thrown == OpModeVisit(c).fault
    {
      thrown := None;
      if c.isOpMode {
        var instantiable := IsInstantiable(c);
        match instantiable {
          case Returns(b) =>
            if b {
              opModeList := opModeList + [c];
            }
          case Raises(t) =>
            thrown := Some(t);
        }
      }
    }
  }

  /** The constructor (FtcRobotController revision): the loader over the URLs of every file,
      caching in the cache directory. When no file has a URL, the path string throws. */
  method NewOpModeLoader(fileList: seq<File>, env: Env) returns (r: Result<OpModeLoader>, log: seq<LogLine>)
    ensures FileLoader.Urls(fileList, env) == [] ==> r == Failure(StringIndexOutOfBoundsException)
    ensures FileLoader.Urls(fileList, env) != [] ==>
              r.Success? && fresh(r.value)
              && r.value.fileList == fileList && r.value.env == env && r.value.opModeList == []
              && r.value.classLoader == DexClassLoader(PathString.Join(FileLoader.Urls(fileList, env)), CacheDirectory(env))
    ensures |log| + |FileLoader.Urls(fileList, env)| == |fileList|
    ensures log == FileLoader.CannotConvertLines(|fileList| - |FileLoader.Urls(fileList, env)|)
  {
    var jarList;
    jarList, log := FileLoader.GetUrlList(fileList, env);
    var pathString := PathString.GetDelimitedPathString(jarList);
    if pathString.Failure? {
      return Failure(pathString.error), log;
    }
    var cacheDir := CacheDirectory(env);
    var loader := new OpModeLoader(fileList, DexClassLoader(pathString.value, cacheDir), env);
    r := Success(loader);
  }

  /** Every class getOpModes returns is a constructible op mode. */
  lemma {:induction false} FilesSearchSound(env: Env, loader: DexClassLoader, files: seq<File>, x: ClassInfo)
    requires x in FilesSearch(env, loader, files).found
    ensures Constructible(x)
  {
    var s := JarScan(env, loader, files[0]);
    if x in s.found {
      JarScanSound(env, loader, files[0], x);
    } else {
      FilesSearchSound(env, loader, files[1..], x);
    }
  }

  lemma JarScanSound(env: Env, loader: DexClassLoader, jarFile: File, x: ClassInfo)
    requires x in JarScan(env, loader, jarFile).found
    ensures Constructible(x)
  {
    EntriesScanSound(env, loader, env.dexIndex[AbsolutePath(jarFile)], x);
  }

  lemma {:induction false} EntriesScanSound(env: Env, loader: DexClassLoader, entries: seq<string>, x: ClassInfo)
    requires x in EntriesScan(env, loader, entries).found
    ensures Constructible(x)
  {
    var first := EntryScan(env, loader, entries[0]);
    if x in first.found {
      var c := env.resolve(loader.dexPath, entries[0]).cls;
      ClassScanSpec(c);
      assert x in ConstructibleAmong(Preorder(c));
      ConstructibleAmongMembers(Preorder(c), x);
    } else {
      EntriesScanSound(env, loader, entries[1..], x);
    }
  }

  /** getOpModes returns normally exactly when every file either is searched to the end or
      cannot be opened. */
  lemma {:induction false} FilesSearchCompletes(env: Env, loader: DexClassLoader, files: seq<File>)
    ensures FilesSearch(env, loader, files).fault == None <==>
              forall k :: 0 <= k < |files| ==> JarScan(env, loader, files[k]).fault in {None, Some(IOException)}
  {
    if files != [] {
      FilesSearchCompletes(env, loader, files[1..]);
      if forall k :: 0 <= k < |files[1..]| ==> JarScan(env, loader, files[1..][k]).fault in {None, Some(IOException)} {
        if JarScan(env, loader, files[0]).fault in {None, Some(IOException)} {
          forall k | 0 <= k < |files|
            ensures JarScan(env, loader, files[k]).fault in {None, Some(IOException)}
          {
            if k > 0 {
              assert files[k] == files[1..][k - 1];
            }
          }
        }
      } else {
        var k :| 0 <= k < |files[1..]| && JarScan(env, loader, files[1..][k]).fault !in {None, Some(IOException)};
        assert files[k + 1] == files[1..][k];
      }
    }
  }

  /** Each error line names a file of the list that could not be opened, and when the search
      completes every such file is named. */
  lemma {:induction false} FilesSearchLog(env: Env, loader: DexClassLoader, files: seq<File>)
    ensures forall line :: line in FilesSearch(env, loader, files).log ==>
              exists k :: 0 <= k < |files| && line == CannotOpen(files[k])
                          && JarScan(env, loader, files[k]).fault == Some(IOException)
    ensures FilesSearch(env, loader, files).fault == None ==>
              forall k :: 0 <= k < |files| && JarScan(env, loader, files[k]).fault == Some(IOException) ==>
                CannotOpen(files[k]) in FilesSearch(env, loader, files).log
  {
    if files != [] {
      FilesSearchLog(env, loader, files[1..]);
      var search := FilesSearch(env, loader, files);
      forall line | line in search.log
        ensures exists k :: 0 <= k < |files| && line == CannotOpen(files[k])
                            && JarScan(env, loader, files[k]).fault == Some(IOException)
      {
        if line !in FilesSearch(env, loader, files[1..]).log {
          assert line == CannotOpen(files[0]);
        } else {
          var k :| 0 <= k < |files[1..]| && line == CannotOpen(files[1..][k])
                   && JarScan(env, loader, files[1..][k]).fault == Some(IOException);
          assert files[k + 1] == files[1..][k];
        }
      }
      if search.fault == None {
        forall k | 0 <= k < |files| && JarScan(env, loader, files[k]).fault == Some(IOException)
          ensures CannotOpen(files[k]) in search.log
        {
          if k > 0 {
            assert files[k] == files[1..][k - 1];
          }
        }
      }
    }
  }

  /** Files are searched in order: searching `a + b` is searching `a`, then `b` unless a
      throwable other than IOException escaped from `a`. */
  lemma {:induction false} FilesSearchAppend(env: Env, loader: DexClassLoader, a: seq<File>, b: seq<File>)
    ensures FilesSearch(env, loader, a).fault != None ==> FilesSearch(env, loader, a + b) == FilesSearch(env, loader, a)
    ensures FilesSearch(env, loader, a).fault == None ==>
              FilesSearch(env, loader, a + b)
              == Prefix(FilesSearch(env, loader, a).found, FilesSearch(env, loader, a).log, FilesSearch(env, loader, b))
  {
    if a == [] {
      assert a + b == b;
    } else {
      assert (a + b)[0] == a[0];
      assert (a + b)[1..] == a[1..] + b;
      FilesSearchAppend(env, loader, a[1..], b);
      var s := JarScan(env, loader, a[0]);
      if s.fault == None || s.fault == Some(IOException) {
        var tail := FilesSearch(env, loader, a[1..]);
        var line := if s.fault == None then [] else [CannotOpen(a[0])];
        if tail.fault == None {
          PrefixAssoc(s.found, line, tail.found, tail.log, FilesSearch(env, loader, b));
        }
      }
    }
  }
}
