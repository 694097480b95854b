/** OpModeRegister (FtcRobotController): the whole pipeline. The jars under the op-mode
    directory are converted to dex, an OpModeLoader searches the converted files, and every
    active op mode it finds is registered. Nothing here catches a throwable from the stages
    before registration: it escapes to the caller.
 */
module OpModeRegister {
  import opened JavaRuntime
  import opened Registry
  import AnnotationReader
  import FileLoader
  import PathString
  import DalvikConverter
  import OpModeLoader

  /** What the stages before registration end with: the op modes found, or the throwable that
      escaped; and what they logged. */
  datatype Discovery = Discovery(opModes: Result<seq<ClassInfo>>, log: seq<LogLine>)

  /** getJarList, convertJars, `new OpModeLoader(fileList)` and getOpModes, in order, over the
      directory tree `root` of the op-mode directory. */
  function Discover(env: Env, root: FileLoader.Node): Discovery
  {
    if !FileLoader.Listable(root) then Discovery(Failure(NullPointerException), [])
    else
      var jars := FileLoader.Filter(FileLoader.FilesUnder(root.children), ".jar");
      var conversion := DalvikConverter.Convert(env, jars);
      if conversion.fault.Some? then Discovery(Failure(conversion.fault.value), conversion.log)
      else
        var search := SearchConverted(env, conversion.outputs);
        Discovery(search.opModes, conversion.log + search.log)
  }

  /** `new OpModeLoader(fileList)` and getOpModes over the converted files. */
  function SearchConverted(env: Env, converted: seq<File>): Discovery
  {
    var urls := FileLoader.Urls(converted, env);
    var urlLog := FileLoader.CannotConvertLines(|converted| - |urls|);
    if urls == [] then Discovery(Failure(StringIndexOutOfBoundsException), urlLog)
    else
      var loader := DexClassLoader(PathString.Join(urls), CacheDirectory(env));
      var search := OpModeLoader.FilesSearch(env, loader, converted);
      Discovery(if search.fault.Some? then Failure(search.fault.value) else Success(search.found),
                urlLog + search.log)
  }

  /** The stages before registration: getJarList, convertJars, the OpModeLoader constructor
      and getOpModes, each consuming the previous one's result. */
  method DiscoverOpModes(root: FileLoader.Node, env: Env) returns (opModes: Result<seq<ClassInfo>>, log: seq<LogLine>)
    ensures Discovery(opModes, log) == Discover(env, root)
  {
    var jarList := FileLoader.GetJarList(root);
    if jarList.Failure? {
      return Failure(jarList.error), [];
    }
    var fileList, convertLog := DalvikConverter.ConvertJars(jarList.value, env);
    if fileList.Failure? {
      return Failure(fileList.error), convertLog;
    }
    var searchLog;
    opModes, searchLog := SearchOpModes(fileList.value, env);
    log := convertLog + searchLog;
  }

  /** The OpModeLoader over the converted files, and its search. */
  method SearchOpModes(fileList: seq<File>, env: Env) returns (opModes: Result<seq<ClassInfo>>, log: seq<LogLine>)
    ensures Discovery(opModes, log) == SearchConverted(env, fileList)
  {
    var loader, urlLog := OpModeLoader.NewOpModeLoader(fileList, env);
    if loader.Failure? {
      return Failure(loader.error), urlLog;
    }
    var searchLog;
    opModes, searchLog := loader.value.GetOpModes();
    log := urlLog + searchLog;
  }

  /** register(manager): when every stage before registration returns, each active op mode
      found is registered (at the Info level on success) and the method returns normally;
      otherwise the throwable escapes and the registry is untouched. */
  method Register(manager: OpModeManager, root: FileLoader.Node, env: Env)
    returns (thrown: Option<Throwable>, log: seq<LogLine>)
    modifies manager
    ensures Discover(env, root).opModes.Failure? ==>
              thrown == Some(Discover(env, root).opModes.error)
              && manager.opModes == old(manager.opModes) && log == Discover(env, root).log
    ensures Discover(env, root).opModes.Success? ==>
              var registration := RegisterAll(Registration(old(manager.opModes), []), Discover(env, root).opModes.value, Info);
              thrown == None && manager.opModes == registration.opModes
              && log == Discover(env, root).log + registration.log
  {
    var opmodeList;
    opmodeList, log := DiscoverOpModes(root, env);
    if opmodeList.Failure? {
      return Some(opmodeList.error), log;
    }
    var registerLog := RegisterActive(manager, opmodeList.value, Info);
    log := log + registerLog;
    thrown := None;
  }

  /** Every op mode that a run adds to the registry is an active, constructible op mode,
      registered under the name its annotations give. */
  lemma RegisteredOpModes(env: Env, root: FileLoader.Node, opModes: map<string, ClassInfo>, name: string)
    requires Discover(env, root).opModes.Success?
    requires name !in opModes
    requires name in RegisterAll(Registration(opModes, []), Discover(env, root).opModes.value, Info).opModes
    ensures var c := RegisterAll(Registration(opModes, []), Discover(env, root).opModes.value, Info).opModes[name];
            AnnotationReader.IsActive(c) && Constructible(c) && AnnotationReader.GetOpModeName(c) == name
  {
    var found := Discover(env, root).opModes.value;
    var c := RegisterAll(Registration(opModes, []), found, Info).opModes[name];
    RegisteredAreActive(Registration(opModes, []), found, Info, name);
    var jars := FileLoader.Filter(FileLoader.FilesUnder(root.children), ".jar");
    var converted := DalvikConverter.Convert(env, jars).outputs;
    var loader := DexClassLoader(PathString.Join(FileLoader.Urls(converted, env)), CacheDirectory(env));
    OpModeLoader.FilesSearchSound(env, loader, converted, c);
  }
}
