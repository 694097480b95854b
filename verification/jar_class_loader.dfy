/** JarClassLoader (ThunderbotsRobotController): one DexClassLoader over the URLs of a list of
    loadable jars, with the cache directory as its optimized directory.
 */
module JarClassLoader {
  import opened JavaRuntime
  import opened LoadableJars
  import FileLoader
  import PathString

  /** The files of the jars, in order: the constructor's `fileList`. */
  function JarFiles(jars: seq<LoadableJar>): seq<File>
  {
    if jars == [] then [] else [jars[0].file] + JarFiles(jars[1..])
  }

  /** The class path a JarClassLoader over `fileList` is built from. */
  function ClassPath(fileList: seq<File>, env: Env): seq<string>
  {
    FileLoader.Urls(fileList, env)
  }

  class JarClassLoader {
    /** The files that will be searched for op modes. */
    const fileList: seq<File>
    /** The class loader that loads all classes from those files. */
    const classLoader: DexClassLoader
    /** The environment the loader was built in. */
    const env: Env

    /** The loader reads exactly the URLs of `fileList`, and caches its output in the cache directory. */
    ghost predicate Valid()
    {
      ClassPath(fileList, env) != []
      && classLoader == DexClassLoader(PathString.Join(ClassPath(fileList, env)), CacheDirectory(env))
    }

    constructor (fileList: seq<File>, classLoader: DexClassLoader, env: Env)
      ensures this.fileList == fileList && this.classLoader == classLoader && this.env == env
    {
      this.fileList := fileList;
      this.classLoader := classLoader;
      this.env := env;
    }

    /** getClassLoader: the loader the constructor built. Its path string holds the `file:` URL
        of every file of `fileList` that has one. A class loader splits it at every path
        separator, so each URL falls apart into its scheme and its path. */
    function GetClassLoader(): (loader: DexClassLoader)
      requires Valid()
      ensures loader == classLoader
      ensures loader.optimizedDirectory == CacheDirectory(env)
      ensures PathString.Split(loader.dexPath) == PathString.SplitAll(ClassPath(fileList, env))
      ensures (forall f :: f in FileLoader.UrlFiles(fileList, env) ==> PathString.FreeOfSeparator(AbsolutePath(f))) ==>
                PathString.Split(loader.dexPath) == PathString.FileUrlPieces(FileLoader.UrlFiles(fileList, env))
                && PathString.Occurrences(loader.dexPath, PATH_SEPARATOR) == 2 * |ClassPath(fileList, env)| - 1
    {
      PathString.SplitJoinAll(ClassPath(fileList, env));
      PathString.SplitLength(classLoader.dexPath);
      ClassPathPieces(fileList, env);
      classLoader
    }
  }

  /** `new JarClassLoader(loadableJarList)`: collects the jars' files, converts them to URLs and
      builds the DexClassLoader. When no file has a URL, the path string's `substring(1)` throws. */
  method NewJarClassLoader(loadableJarList: seq<LoadableJar>, env: Env)
    returns (r: Result<JarClassLoader>, log: seq<LogLine>)
    ensures ClassPath(JarFiles(loadableJarList), env) == [] ==> r == Failure(StringIndexOutOfBoundsException)
    ensures ClassPath(JarFiles(loadableJarList), env) != [] ==>
              r.Success? && fresh(r.value) && r.value.Valid()
              && r.value.fileList == JarFiles(loadableJarList) && r.value.env == env
    ensures |log| + |ClassPath(JarFiles(loadableJarList), env)| == |loadableJarList|
    ensures forall k :: 0 <= k < |log| ==> log[k] == FileLoader.CANNOT_CONVERT
  {
    var fileList := [];
    for i := 0 to |loadableJarList|
      invariant fileList + JarFiles(loadableJarList[i..]) == JarFiles(loadableJarList)
    {
      assert loadableJarList[i..][1..] == loadableJarList[i + 1..];
      fileList := fileList + [GetFile(loadableJarList[i])];
    }
    assert loadableJarList[|loadableJarList|..] == [];
    assert fileList + [] == fileList;
    JarFilesLength(loadableJarList);
    var jarList;
    jarList, log := FileLoader.GetUrlList(fileList, env);
    var pathString := PathString.GetDelimitedPathString(jarList);
    if pathString.Failure? {
      return Failure(pathString.error), log;
    }
    var cacheDir := CacheDirectory(env);
    var loader := new JarClassLoader(fileList, DexClassLoader(pathString.value, cacheDir), env);
    r := Success(loader);
  }

  /** One file per jar, in the jars' order. */
  lemma {:induction false} JarFilesAligned(jars: seq<LoadableJar>)
    ensures |JarFiles(jars)| == |jars|
    ensures forall k :: 0 <= k < |jars| ==> JarFiles(jars)[k] == jars[k].file
  {
    if jars != [] {
      JarFilesAligned(jars[1..]);
      forall k | 0 < k < |jars|
        ensures JarFiles(jars)[k] == jars[k].file
      {
        assert JarFiles(jars)[k] == JarFiles(jars[1..])[k - 1];
        assert jars[1..][k - 1] == jars[k];
      }
    }
  }

  lemma JarFilesLength(jars: seq<LoadableJar>)
    ensures |JarFiles(jars)| == |jars|
  {
    JarFilesAligned(jars);
  }

  /** The constructor throws exactly when none of the jars' files converts to a URL. */
  lemma {:induction false} EmptyClassPath(jars: seq<LoadableJar>, env: Env)
    ensures ClassPath(JarFiles(jars), env) == [] <==> forall k :: 0 <= k < |jars| ==> ToUrl(env, jars[k].file).None?
  {
    if jars != [] {
      EmptyClassPath(jars[1..], env);
      assert JarFiles(jars)[1..] == JarFiles(jars[1..]);
      if forall k :: 0 <= k < |jars[1..]| ==> ToUrl(env, jars[1..][k].file).None? {
        if ToUrl(env, jars[0].file).None? {
          forall k | 0 <= k < |jars|
            ensures ToUrl(env, jars[k].file).None?
          {
            if k > 0 {
              assert jars[k] == jars[1..][k - 1];
            }
          }
        }
      } else {
        var k :| 0 <= k < |jars[1..]| && ToUrl(env, jars[1..][k].file).Some?;
        assert jars[k + 1] == jars[1..][k];
      }
    }
  }

  /** The class path lists one `file:` URL per file that has a URL; split at the separators,
      it gives the scheme and the path of each such file in turn. */
  lemma {:induction false} ClassPathPieces(files: seq<File>, env: Env)
    ensures |ClassPath(files, env)| == |FileLoader.UrlFiles(files, env)|
    ensures (forall f :: f in FileLoader.UrlFiles(files, env) ==> PathString.FreeOfSeparator(AbsolutePath(f))) ==>
              PathString.SplitAll(ClassPath(files, env)) == PathString.FileUrlPieces(FileLoader.UrlFiles(files, env))
  {
    if files != [] {
      ClassPathPieces(files[1..], env);
      var rest := FileLoader.UrlFiles(files[1..], env);
      if !env.urlFails(files[0]) {
        var urls := ClassPath(files, env);
        assert urls == [FileUrl(files[0])] + ClassPath(files[1..], env);
        assert urls[0] == FileUrl(files[0]) && urls[1..] == ClassPath(files[1..], env);
        var us := FileLoader.UrlFiles(files, env);
        assert us == [files[0]] + rest && us[1..] == rest;
        if forall f :: f in us ==> PathString.FreeOfSeparator(AbsolutePath(f)) {
          assert files[0] in us;
          PathString.SplitFileUrl(files[0]);
          assert forall f :: f in rest ==> f in us;
          assert PathString.SplitAll(ClassPath(files[1..], env)) == PathString.FileUrlPieces(rest);
          assert PathString.SplitAll(urls) == ["file", AbsolutePath(files[0])] + PathString.SplitAll(ClassPath(files[1..], env));
          assert PathString.FileUrlPieces(us) == ["file", AbsolutePath(files[0])] + PathString.FileUrlPieces(rest);
        }
      } else {
        assert ClassPath(files, env) == [] + ClassPath(files[1..], env) == ClassPath(files[1..], env);
        assert FileLoader.UrlFiles(files, env) == [] + rest == rest;
      }
    }
  }
}
