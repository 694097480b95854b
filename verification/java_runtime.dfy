/** The parts of the Java and Android runtime that the op-mode pipeline depends on,
    reduced to values: files, exceptions, loaded classes and the outcome of calls into
    code that the model cannot see (the file system, the dx transcoder, reflection).
 */
module JavaRuntime {

  datatype Option<+T> = None | Some(value: T)

  /** A call that either returns a value or throws. */
  datatype Result<+T> = Success(value: T) | Failure(error: Throwable)

  /** The exception kinds that the pipeline's catch clauses tell apart. */
  datatype Throwable =
    | ClassNotFoundException
    | IllegalAccessException
    | InstantiationException
    | IOException
    | MalformedURLException
    | ParseException                  // com.android.dx.cf.iface.ParseException
    | NullPointerException
    | StringIndexOutOfBoundsException
    | IllegalArgumentException
    | OtherRuntimeException           // any other subclass of Exception
    | LinkageError                    // an Error: NoClassDefFoundError, ExceptionInInitializerError, ...
  {
    /** `catch (Exception e)` catches every throwable except an Error. */
    predicate IsException() { !LinkageError? }
  }

  /** What a void call into unseen code does: it returns normally or throws. */
  datatype Outcome = Completes | Throws(thrown: Throwable)

  /** A java.io.File: its parent directory path and its name (`getName()`). */
  datatype File = File(parent: string, name: string)

  /** `getAbsolutePath()`: the parent path and the name joined by `/`. */
  function AbsolutePath(f: File): string
  {
    f.parent + "/" + f.name
  }

  /** The annotations the pipeline reads from a class. */
  datatype Annotation =
    | ActiveAnnotation                          // @Active
    | OpModeAnnotation(name: Option<string>)    // @OpMode(name = ...); None stands for null
    | OtherAnnotation(kind: string)

  /** A loaded class, as far as reflection tells the pipeline about it. */
  datatype ClassInfo = ClassInfo(
    name: string,                 // fully qualified name, the class's identity
    simpleName: string,           // getSimpleName()
    isOpMode: bool,               // OpMode.class.isAssignableFrom(c)
    construct: Outcome,           // what c.newInstance() does
    annotations: seq<Annotation>, // getAnnotations(), in order
    declared: seq<ClassInfo>,     // getDeclaredClasses(), in order
    declaredThrows: bool)         // getDeclaredClasses() throws a LinkageError instead

  /** The class and all of its nested classes, each before the classes it declares. */
  function Preorder(c: ClassInfo): seq<ClassInfo>
    decreases c
  {
    [c] + PreorderAll(c.declared)
  }

  function PreorderAll(cs: seq<ClassInfo>): seq<ClassInfo>
    decreases cs
  {
    if cs == [] then [] else Preorder(cs[0]) + PreorderAll(cs[1..])
  }

  /** A class the scanners may keep: an op mode whose no-argument construction completes. */
  predicate Constructible(c: ClassInfo)
  {
    c.isOpMode && c.construct == Completes
  }

  /** The constructible op modes among `cs`, in order. */
  function ConstructibleAmong(cs: seq<ClassInfo>): seq<ClassInfo>
  {
    if cs == [] then []
    else (if Constructible(cs[0]) then [cs[0]] else []) + ConstructibleAmong(cs[1..])
  }

  lemma {:induction false} ConstructibleAppend(a: seq<ClassInfo>, b: seq<ClassInfo>)
    ensures ConstructibleAmong(a + b) == ConstructibleAmong(a) + ConstructibleAmong(b)
  {
    if a == [] {
      assert a + b == b;
    } else {
      assert (a + b)[0] == a[0] && (a + b)[1..] == a[1..] + b;
      ConstructibleAppend(a[1..], b);
      var head := if Constructible(a[0]) then [a[0]] else [];
      assert ConstructibleAmong(a + b) == head + (ConstructibleAmong(a[1..]) + ConstructibleAmong(b));
      ConcatAssoc(head, ConstructibleAmong(a[1..]), ConstructibleAmong(b));
    }
  }

  /** One step of a loop that runs scans in turn: with `done` found so far and `rest = Then(s, more)`
      still to run, running `s` either throws and ends the loop or leaves `more` to run. */
  lemma ThenStep(done: seq<ClassInfo>, s: Scan, more: Scan, total: Scan)
    requires Then(Scan(done, None), Then(s, more)) == total
    ensures s.fault != None ==> total == Scan(done + s.found, s.fault)
    ensures s.fault == None ==> Then(Scan(done + s.found, None), more) == total
  {
    ConcatAssoc(done, s.found, more.found);
  }

  /** The outcome of a boolean check that may throw. */
  datatype Check = Returns(b: bool) | Raises(thrown: Throwable)

  /** What a scan has appended to the op-mode list, and the throwable that stopped it, if any. */
  datatype Scan = Scan(found: seq<ClassInfo>, fault: Option<Throwable>)

  /** Run `a`, then `b` unless `a` threw. */
  function Then(a: Scan, b: Scan): Scan
  {
    if a.fault.Some? then a else Scan(a.found + b.found, b.fault)
  }

  /** `Class.loadClass(name)` on a loader: the class, or the throwable. */
  datatype LoadResult = Loaded(cls: ClassInfo) | LoadFails(thrown: Throwable)

  /** A dalvik.system.DexClassLoader; its parent is always the host application's loader. */
  datatype DexClassLoader = DexClassLoader(dexPath: string, optimizedDirectory: string)

  datatype LogLevel = Verbose | Debug | Info | Warn | Error

  /** One call to the log: a message, `ex.getMessage()` of a caught throwable, or a message
      followed by a list of classes. */
  datatype LogLine =
    | Line(level: LogLevel, message: string)
    | MessageOf(level: LogLevel, thrown: Throwable)
    | ListOf(level: LogLevel, message: string, classes: seq<ClassInfo>)   // message + list.toString()

  /** The world outside the pipeline, given as oracles. */
  datatype Env = Env(
    privateDir: string,                    // FtcRobotControllerActivity.getPrivateFilesDirectory()
    isFile: File -> bool,                  // File.isFile()
    urlFails: File -> bool,                // getAbsoluteFile().toURI().toURL() throws MalformedURLException
    dx: File -> Outcome,                   // the dx transcoder run on one jar
    dexIndex: map<string, seq<string>>,    // DexFile.loadDex(path).entries(); a missing path: IOException
    resolve: (string, string) -> LoadResult) // loadClass on the DexClassLoader with the given dex path

  /** The URL of a file: the `file` scheme, a colon and the absolute path. */
  function FileUrl(f: File): string
  {
    "file:" + AbsolutePath(f)
  }

  /** `getAbsoluteFile().toURI().toURL()`: the file's URL, or None where it throws. */
  function ToUrl(env: Env, f: File): (u: Option<string>)
    ensures u.Some? ==> u.value == FileUrl(f)
  {
    if env.urlFails(f) then None else Some(FileUrl(f))
  }

  /** `new File(getPrivateFilesDirectory(), "/thunderbots/")`. */
  function CacheDirectory(env: Env): string
  {
    env.privateDir + "/thunderbots"
  }

  /** File.pathSeparator on Android. */
  const PATH_SEPARATOR: char := ':'

  predicate StartsWith(s: string, prefix: string)
  {
    |prefix| <= |s| && s[..|prefix|] == prefix
  }

  predicate EndsWith(s: string, suffix: string)
  {
    |suffix| <= |s| && s[|s| - |suffix|..] == suffix
  }

  predicate IsUpper(ch: char)
  {
    'A' <= ch <= 'Z'
  }

  function ToLowerChar(ch: char): (r: char)
    ensures !IsUpper(r)
    ensures !IsUpper(ch) ==> r == ch
  {
    if IsUpper(ch) then (ch as int + 32) as char else ch
  }

  /** `String.toLowerCase()`, on the ASCII letters. */
  function ToLower(s: string): (r: string)
    ensures |r| == |s|
    ensures forall i :: 0 <= i < |s| ==> r[i] == ToLowerChar(s[i])
  {
    if s == [] then [] else [ToLowerChar(s[0])] + ToLower(s[1..])
  }

  /** Regrouping a concatenation; stated once so that long proofs can name the step. */
  lemma ConcatAssoc<T>(a: seq<T>, b: seq<T>, c: seq<T>)
    ensures (a + b) + c == a + (b + c)
  {
  }

  /** A java.util.List that the source mutates in place. */
  class JavaList<T> {
    var elems: seq<T>

    constructor ()
      ensures elems == []
    {
      elems := [];
    }

    function Size(): nat
      reads this
    {
      |elems|
    }

    function Get(i: nat): T
      reads this
      requires i < |elems|
    {
      elems[i]
    }

    method Add(x: T)
      modifies this
      ensures elems == old(elems) + [x]
    {
      elems := elems + [x];
    }

    method Remove(i: nat)
      requires i < |elems|
      modifies this
      ensures elems == old(elems)[..i] + old(elems)[i + 1..]
    {
      elems := elems[..i] + elems[i + 1..];
    }
  }
}
