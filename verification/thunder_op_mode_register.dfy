/** ThunderOpModeRegister (FtcRobotController, `fileloader` package): the pipeline on top of
    OpModeClassLoader. The files under the op-mode directory are listed, handed to the jar
    filter and the converter, whose results are not used, and then to loadJars unchanged.
    Every active op mode found is registered. A throwable from any stage before registration
    is caught at the top, logged, and the method returns normally.
 */
module ThunderOpModeRegister {
  import opened JavaRuntime
  import opened Registry
  import AnnotationReader
  import FileLoader
  import PathString
  import DalvikConverter
  import OCL = OpModeClassLoader

  const ABOUT_TO_REGISTER := Line(Verbose, "About to register op modes...")
  const NOW_REGISTERING := Line(Verbose, "Now registering OpModes...")
  const READ_ERROR := Line(Error, "Error reading external files:")

  /** What the stages before registration end with: the op modes found, or the throwable that
      escaped; and what they logged. */
  datatype Discovery = Discovery(opModes: Result<seq<ClassInfo>>, log: seq<LogLine>)

  /** getFileSet, convertJars on the whole file set, and loadJars on the same file set. The
      file set comes from OpModeClassLoader's own getFileSet, whose walk is the same as
      FileLoader's, so `FileLoader.FilesUnder` describes it. */
  function Discover(env: Env, root: FileLoader.Node): Discovery
  {
    if !FileLoader.Listable(root) then Discovery(Failure(NullPointerException), [])
    else
      var fileList := FileLoader.FilesUnder(root.children);
      var conversion := DalvikConverter.Convert(env, fileList);
      if conversion.fault.Some? then Discovery(Failure(conversion.fault.value), conversion.log)
      else
        var urls := OCL.JarUrls(env, fileList);
        if urls == [] then Discovery(Failure(StringIndexOutOfBoundsException), conversion.log)
        else
          var loader := DexClassLoader(PathString.Join(urls), CacheDirectory(env));
          var found := OCL.JarsFound(env, loader, fileList);
          Discovery(Success(found),
                    conversion.log + OCL.FoundLines(found) + [ListOf(Debug, "Final op mode list: ", found), NOW_REGISTERING])
  }

  /** The stages before registration: getFileSet, then convertJars and loadJars on the file
      set. Only loadJars changes the static state of OpModeClassLoader. */
  method DiscoverOpModes(opModeClassLoader: OCL.OpModeClassLoader, root: FileLoader.Node)
    returns (opModes: Result<seq<ClassInfo>>, log: seq<LogLine>)
    modifies opModeClassLoader
    ensures Discovery(opModes, log) == Discover(opModeClassLoader.env, root)
    ensures opModes.Failure? ==>
              opModeClassLoader.opModeList == old(opModeClassLoader.opModeList)
              && opModeClassLoader.classLoader == old(opModeClassLoader.classLoader)
    ensures opModes.Success? ==>
              opModeClassLoader.opModeList == opModes.value
              && opModeClassLoader.classLoader
                 == Some(DexClassLoader(PathString.Join(OCL.JarUrls(opModeClassLoader.env, FileLoader.FilesUnder(root.children))),
                                        CacheDirectory(opModeClassLoader.env)))
  {
    var env := opModeClassLoader.env;
    // OpModeClassLoader.getFileSet walks the tree exactly as FileLoader.getFileSet does.
    var fileSet := FileLoader.GetFileSet(root);
    if fileSet.Failure? {
      return Failure(fileSet.error), [];
    }
    var fileList := fileSet.value.elems;
    var converted;
    converted, log := DalvikConverter.ConvertJars(fileList, env);
    if converted.Failure? {
      return Failure(converted.error), log;
    }
    var loadLog;
    opModes, loadLog := opModeClassLoader.LoadJars(fileList);
    log := log + loadLog;
    if opModes.Success? {
      log := log + [ListOf(Debug, "Final op mode list: ", opModes.value), NOW_REGISTERING];
    }
  }

  /** register(manager): never throws. When the stages before registration return, every
      active op mode found is registered (at the Verbose level on success); otherwise the
      read error is logged and the registry is untouched. `opModeClassLoader` holds the
      static fields of OpModeClassLoader. */
  method Register(manager: OpModeManager, opModeClassLoader: OCL.OpModeClassLoader, root: FileLoader.Node)
    returns (log: seq<LogLine>)
    modifies manager, opModeClassLoader
    ensures Discover(opModeClassLoader.env, root).opModes.Failure? ==>
              manager.opModes == old(manager.opModes)
              && opModeClassLoader.opModeList == old(opModeClassLoader.opModeList)
              && opModeClassLoader.classLoader == old(opModeClassLoader.classLoader)
              && log == [ABOUT_TO_REGISTER] + Discover(opModeClassLoader.env, root).log + [READ_ERROR]
    ensures Discover(opModeClassLoader.env, root).opModes.Success? ==>
              var registration := RegisterAll(Registration(old(manager.opModes), []),
                                              Discover(opModeClassLoader.env, root).opModes.value, Verbose);
              manager.opModes == registration.opModes
              && opModeClassLoader.opModeList == Discover(opModeClassLoader.env, root).opModes.value
              && opModeClassLoader.classLoader
                 == Some(DexClassLoader(PathString.Join(OCL.JarUrls(opModeClassLoader.env, FileLoader.FilesUnder(root.children))),
                                        CacheDirectory(opModeClassLoader.env)))
              && log == [ABOUT_TO_REGISTER] + Discover(opModeClassLoader.env, root).log + registration.log
  {
    var opmodeList, discoverLog := DiscoverOpModes(opModeClassLoader, root);
    if opmodeList.Failure? {
      log := [ABOUT_TO_REGISTER] + discoverLog + [READ_ERROR];
      return;
    }
    var registerLog := RegisterActive(manager, opmodeList.value, Verbose);
    log := [ABOUT_TO_REGISTER] + discoverLog + registerLog;
  }

  /** Every op mode that a run adds to the registry is an active, constructible op mode from a
      `.jar` file under the op-mode directory that is a dex archive, registered under the name
      its annotations give. */
  lemma RegisteredOpModes(env: Env, root: FileLoader.Node, opModes: map<string, ClassInfo>, name: string)
    requires Discover(env, root).opModes.Success?
    requires name !in opModes
    requires name in RegisterAll(Registration(opModes, []), Discover(env, root).opModes.value, Verbose).opModes
    ensures var c := RegisterAll(Registration(opModes, []), Discover(env, root).opModes.value, Verbose).opModes[name];
            AnnotationReader.IsActive(c) && Constructible(c) && AnnotationReader.GetOpModeName(c) == name
    ensures FileLoader.Listable(root)
    ensures exists f :: f in FileLoader.FilesUnder(root.children) && EndsWith(f.name, ".jar")
                        && AbsolutePath(f) in env.dexIndex
  {
    var found := Discover(env, root).opModes.value;
    var c := RegisterAll(Registration(opModes, []), found, Verbose).opModes[name];
    RegisteredAreActive(Registration(opModes, []), found, Verbose, name);
    var fileList := FileLoader.FilesUnder(root.children);
    var loader := DexClassLoader(PathString.Join(OCL.JarUrls(env, fileList)), CacheDirectory(env));
    OCL.JarsFoundSound(env, loader, fileList, c);
    var k :| 0 <= k < |fileList| && EndsWith(fileList[k].name, ".jar") && AbsolutePath(fileList[k]) in env.dexIndex;
    assert fileList[k] in fileList;
  }

  /** The converter's output is not used: once the conversion does not throw, the op modes found
      are the same whatever the dx transcoder did. */
  lemma ConversionDiscarded(env: Env, dx: File -> Outcome, root: FileLoader.Node)
    requires root.Directory?
    requires DalvikConverter.Convert(env, FileLoader.FilesUnder(root.children)).fault == None
    requires DalvikConverter.Convert(env.(dx := dx), FileLoader.FilesUnder(root.children)).fault == None
    ensures Discover(env, root).opModes == Discover(env.(dx := dx), root).opModes
  {
    var fileList := FileLoader.FilesUnder(root.children);
    JarUrlsIgnoreDx(env, dx, fileList);
    if OCL.JarUrls(env, fileList) != [] {
      var loader := DexClassLoader(PathString.Join(OCL.JarUrls(env, fileList)), CacheDirectory(env));
      JarsFoundIgnoreDx(env, dx, loader, fileList);
    }
  }

  lemma {:induction false} JarUrlsIgnoreDx(env: Env, dx: File -> Outcome, files: seq<File>)
    ensures OCL.JarUrls(env.(dx := dx), files) == OCL.JarUrls(env, files)
  {
    if files != [] {
      JarUrlsIgnoreDx(env, dx, files[1..]);
    }
  }

  lemma {:induction false} JarsFoundIgnoreDx(env: Env, dx: File -> Outcome, loader: DexClassLoader, files: seq<File>)
    ensures OCL.JarsFound(env.(dx := dx), loader, files) == OCL.JarsFound(env, loader, files)
  {
    if files != [] {
      JarsFoundIgnoreDx(env, dx, loader, files[1..]);
      var path := AbsolutePath(files[0]);
      if path in env.dexIndex {
        EntriesFoundIgnoreDx(env, dx, loader, env.dexIndex[path]);
      }
    }
  }

  lemma {:induction false} EntriesFoundIgnoreDx(env: Env, dx: File -> Outcome, loader: DexClassLoader, entries: seq<string>)
    ensures OCL.EntriesFound(env.(dx := dx), loader, entries) == OCL.EntriesFound(env, loader, entries)
  {
    if entries != [] {
      EntriesFoundIgnoreDx(env, dx, loader, entries[1..]);
    }
  }
}
