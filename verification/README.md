# Thunderbots op-mode pipeline, modelled in Dafny

This project models the plug-in op-mode pipeline of the Thunderbots robot controller (an
FTC robot-controller app). The pipeline turns jars dropped on the phone's SD card into
registered op modes:

1. The files under the `FIRST` directory are listed recursively, and the `.jar` files are kept.
2. Each jar is converted to dex with the `dx` transcoder. A jar that `dx` cannot parse is logged
   ("generated using the wrong compiler") and skipped.
3. One `DexClassLoader` is built over the URLs of the files. Its path string is the URLs joined
   by the path separator, and its cache directory is `<private files>/thunderbots`.
4. Every dex entry of every file is loaded. Each class and all its nested classes are visited in
   preorder, and the subclasses of `OpMode` whose no-argument construction succeeds are kept.
5. Each kept op mode that carries `@Active` is registered in the host's `OpModeManager`. It is
   registered under the name of its first `@OpMode(name = ...)` annotation with a non-empty name,
   or else under its simple name. A failed registration is logged and the loop goes on.

The repository holds several revisions of this pipeline, and all of them are modelled:

- **`OpModeClassLoader`** (FtcRobotController, both the `fileloader` package and the older
  top-level class). It catches every `Throwable` around each class, so one bad class never
  stops the search. The two versions share `loadJarFile` through `getJarURLs` (lines 77-136 of the
  top-level class, lines 61-120 of the `fileloader` one) and the second pass of `loadJars`. The
  top-level class keeps its loader and list in instance fields, and only it has
  `initializeClassLoader`. Module `OpModeClassLoader` models both.
- **`OpModeLoader`** (FtcRobotController, and the later ThunderbotsRobotController one). Its
  search catches only `Exception`s. An `Error` from a constructor or from `getDeclaredClasses()`
  ends the whole search. The searches of both revisions are the same code, and module
  `OpModeLoader` models them.
- **`JarClassLoader`, `LoadableJar` and the ThunderbotsRobotController `DalvikConverter`**, the
  later split of the loader.
- **The two entry points.** `OpModeRegister` lets throwables from discovery escape.
  `ThunderOpModeRegister` catches them at the top, and it hands the *unconverted* file set to
  `loadJars`, because it discards the results of `getJarList` and `convertJars`.

## How the model is built

- **Runtime as oracles.** The Java and Android runtime is reduced to values (module
  `JavaRuntime`). A class is a `ClassInfo` record holding:
  - its simple name and whether it is an `OpMode`;
  - what `newInstance()` does;
  - its annotations and its declared classes, or whether `getDeclaredClasses()` throws.

  The environment is an `Env` of oracles:
  - `isFile`, and `urlFails`, which says where `toURI().toURL()` throws
    MalformedURLException; otherwise a file's URL is `file:` followed by its absolute path;
  - the directory tree as `listFiles()` shows it, including a directory whose listing is null;
  - the `dx` outcome per jar;
  - the entries of each dex file (a path missing from the index is a file that `loadDex`
    cannot open);
  - `resolve`, which gives what `loadClass` returns for an entry on a given class loader.
- **Java semantics made explicit.** Exceptions are values, and a method that can throw returns
  a `Result` or the escaped throwable. `catch (Exception)`, `catch (IOException)`,
  `catch (ClassNotFoundException)` and `catch (Throwable)` are told apart. `"".substring(1)`
  (the path string of an empty URL list) throws `StringIndexOutOfBoundsException`.
- **State in classes.** Code that changes state is modelled as classes with `modifies` clauses.
  These are the op-mode list and class loader of the loaders, the `OpModeManager` registry, and
  the `java.util.List` that `filterForType` edits in place. Each method is proved against a
  specification function on values: `Walk`, `FilesSearch`, `JarsFound`, `Convert`,
  `RegisterAll` and `Filter`.
- **Properties as lemmas.** The properties of those functions are proved as separate lemmas.

## Model

Source paths below are abbreviated: `F/` stands for
`FtcRobotController/src/main/java/io/github/thunderbots/robotcontroller/` and `T/` for
`ThunderbotsRobotController/src/main/java/io/github/thunderbots/robotcontroller/`; each cell
spells the path out in full.

| member | source | states |
|---|---|---|
| PathString.GetDelimitedPathString | FtcRobotController/src/main/java/io/github/thunderbots/robotcontroller/fileloader/OpModeClassLoader.java:52-59 | an empty list throws StringIndexOutOfBoundsException (from `substring(1)`); otherwise the items joined by `:` (the same code is in OpModeClassLoader.java:64-71, OpModeLoader.java:104-111 and JarClassLoader.java:67-74) |
| PathString.SplitJoin | FtcRobotController/src/main/java/io/github/thunderbots/robotcontroller/OpModeLoader.java:104-111 | when no item contains the separator, splitting the path string gives back exactly the items (file URLs are never such items: see JarClassLoader.JarClassLoader.GetClassLoader) |
| PathString.JoinSeparatorCount | ThunderbotsRobotController/src/main/java/io/github/thunderbots/robotcontroller/JarClassLoader.java:67-74 | a path string of n separator-free items holds exactly n-1 separators |
| PathString.JoinSnoc | FtcRobotController/src/main/java/io/github/thunderbots/robotcontroller/OpModeLoader.java:106-109 | each further item adds a separator and the item at the end |
| PathString.JoinBounds | FtcRobotController/src/main/java/io/github/thunderbots/robotcontroller/OpModeLoader.java:104-111 | the path string starts with the first item and ends with the last one |
| PathString.SplitSeparated | FtcRobotController/src/main/java/io/github/thunderbots/robotcontroller/OpModeLoader.java:106-109 | a separator between two strings splits into the pieces of the first followed by the pieces of the second |
| PathString.SplitJoinAll | FtcRobotController/src/main/java/io/github/thunderbots/robotcontroller/OpModeLoader.java:104-111 | for any items, the path string splits into the pieces of every item in turn: the separators the loop adds are the only new cuts |
| PathString.SplitLength | FtcRobotController/src/main/java/io/github/thunderbots/robotcontroller/OpModeLoader.java:104-111 | a string splits into one piece more than it holds separators |
| PathString.SplitFileUrl | FtcRobotController/src/main/java/io/github/thunderbots/robotcontroller/FileLoader.java:47 | a file URL `file:<absolute path>` splits at its own colon into the scheme `file` and the path |
| PathString.FileUrlPieces | FtcRobotController/src/main/java/io/github/thunderbots/robotcontroller/FileLoader.java:47 | the pieces of n file URLs: 2n of them, alternately `file` and the k-th absolute path |
| JavaRuntime.ToUrl | FtcRobotController/src/main/java/io/github/thunderbots/robotcontroller/FileLoader.java:47 | the URL of a file, when it has one, is `file:` followed by its absolute path |
| FileLoader.GetFilesInDirectory | FtcRobotController/src/main/java/io/github/thunderbots/robotcontroller/FileLoader.java:117-126 | appends the regular files below the directory, in walk order, to the given list; when `listFiles()` returns null on it or on a directory below it, throws NullPointerException, and the list keeps what was appended before (also FtcRobotController/src/main/java/io/github/thunderbots/robotcontroller/fileloader/OpModeClassLoader.java:135-155) |
| FileLoader.GetFileSet | FtcRobotController/src/main/java/io/github/thunderbots/robotcontroller/FileLoader.java:94-96 | a fresh list of every regular file under the target; NullPointerException when `listFiles()` returns null on the target (not a directory, or unreadable) or on a directory below it (also FtcRobotController/src/main/java/io/github/thunderbots/robotcontroller/fileloader/OpModeClassLoader.java:121-125) |
| FileLoader.FilesUnderAreRegularNodes | FtcRobotController/src/main/java/io/github/thunderbots/robotcontroller/FileLoader.java:117-126 | the files collected are exactly the regular-file nodes of the tree in walk order; directories and special entries are never collected |
| FileLoader.CollectedFilesAreRegular | FtcRobotController/src/main/java/io/github/thunderbots/robotcontroller/FileLoader.java:119-121 | every collected file is the file of a regular-file node of the tree |
| FileLoader.DottedSuffix | FtcRobotController/src/main/java/io/github/thunderbots/robotcontroller/FileLoader.java:75-77 | the suffix matched always starts with a dot; a dot is added only when missing |
| FileLoader.DotIsOptional | FtcRobotController/src/main/java/io/github/thunderbots/robotcontroller/FileLoader.java:75-77 | the types `jar` and `.jar` select the same files |
| FileLoader.FilterForType | FtcRobotController/src/main/java/io/github/thunderbots/robotcontroller/FileLoader.java:74-83 | removing from the last index down leaves exactly the files whose lower-cased name ends with the dotted type, in their order |
| FileLoader.FilterSound | FtcRobotController/src/main/java/io/github/thunderbots/robotcontroller/FileLoader.java:79-81 | every survivor comes from the input and has the type |
| FileLoader.FilterComplete | FtcRobotController/src/main/java/io/github/thunderbots/robotcontroller/FileLoader.java:79-81 | every input file that has the type survives |
| FileLoader.FilterKeepsOrder | FtcRobotController/src/main/java/io/github/thunderbots/robotcontroller/FileLoader.java:78-82 | the survivors are a subsequence of the input |
| FileLoader.FilterIdempotent | FtcRobotController/src/main/java/io/github/thunderbots/robotcontroller/FileLoader.java:74-83 | filtering twice keeps the same files as filtering once |
| FileLoader.UpperCaseTypeMatchesNothing | FtcRobotController/src/main/java/io/github/thunderbots/robotcontroller/FileLoader.java:79 | only the name is lower-cased, so a type with an upper-case letter matches no file |
| FileLoader.GetJarList | FtcRobotController/src/main/java/io/github/thunderbots/robotcontroller/FileLoader.java:62-66 | the file set filtered for `jar`, or NullPointerException when some directory of the tree cannot be listed |
| FileLoader.GetUrlList | FtcRobotController/src/main/java/io/github/thunderbots/robotcontroller/FileLoader.java:43-54 | the URLs of the files that convert, in order; one "Cannot convert a file to URL:" error line for each file that does not |
| FileLoader.UrlsAppend | FtcRobotController/src/main/java/io/github/thunderbots/robotcontroller/FileLoader.java:45-52 | a file that fails to convert does not stop the files after it |
| FileLoader.UrlsComplete | FtcRobotController/src/main/java/io/github/thunderbots/robotcontroller/FileLoader.java:45-52 | the URL of every file that converts is in the list |
| FileLoader.UrlsSound | FtcRobotController/src/main/java/io/github/thunderbots/robotcontroller/FileLoader.java:45-52 | every URL in the list is the URL of one of the files |
| DalvikConverter.GetOutputFile | FtcRobotController/src/main/java/io/github/thunderbots/robotcontroller/DalvikConverter.java:66-74 | the output lies in the cache directory's `compiled` sub-directory and is named `compiled-` followed by the input's name |
| DalvikConverter.OutputDirectory | FtcRobotController/src/main/java/io/github/thunderbots/robotcontroller/DalvikConverter.java:29 | `new File(cache, "/compiled/")` is the `compiled` directory inside the cache directory |
| DalvikConverter.OutputFileByName | FtcRobotController/src/main/java/io/github/thunderbots/robotcontroller/DalvikConverter.java:68-73 | two inputs share an output file exactly when their names are equal, wherever they lie |
| DalvikConverter.OutputKeepsSuffix | FtcRobotController/src/main/java/io/github/thunderbots/robotcontroller/DalvikConverter.java:73 | the output of a `.jar` is a `.jar` |
| DalvikConverter.ConvertJars | FtcRobotController/src/main/java/io/github/thunderbots/robotcontroller/DalvikConverter.java:38-56 | the converted outputs and the log of the conversion, or the first throwable other than ParseException that dx throws |
| DalvikConverter.ConvertAccounting | FtcRobotController/src/main/java/io/github/thunderbots/robotcontroller/DalvikConverter.java:40-54 | each jar yields one output or two error lines; the counts add up exactly when nothing escapes, and every line is at the error level |
| DalvikConverter.ConvertAppend | FtcRobotController/src/main/java/io/github/thunderbots/robotcontroller/DalvikConverter.java:40-54 | the jars are converted one after another; a ParseException does not stop the loop, any other throwable does |
| DalvikConverter.ConvertSound | FtcRobotController/src/main/java/io/github/thunderbots/robotcontroller/DalvikConverter.java:47-49 | every output is the output file of an input jar that dx converted |
| DalvikConverter.ConvertComplete | FtcRobotController/src/main/java/io/github/thunderbots/robotcontroller/DalvikConverter.java:47-49 | when nothing escapes, every jar that dx converts has its output in the list |
| DalvikConverter.ConvertFault | FtcRobotController/src/main/java/io/github/thunderbots/robotcontroller/DalvikConverter.java:47-53 | the loop completes exactly when dx throws nothing but ParseException; otherwise the escaping throwable is one that dx threw on some jar |
| ThunderbotsDalvikConverter.ConvertJars | ThunderbotsRobotController/src/main/java/io/github/thunderbots/robotcontroller/DalvikConverter.java:48-57 | the non-null conversions of the jars, in order |
| ThunderbotsDalvikConverter.NonNullMembership | ThunderbotsRobotController/src/main/java/io/github/thunderbots/robotcontroller/DalvikConverter.java:50-55 | a file is in the result exactly when it is the conversion of one of the jars |
| ThunderbotsDalvikConverter.NonNullLength | ThunderbotsRobotController/src/main/java/io/github/thunderbots/robotcontroller/DalvikConverter.java:48-57 | at most one file per jar, and exactly one each when no conversion is null |
| LoadableJars.GetFile | ThunderbotsRobotController/src/main/java/io/github/thunderbots/robotcontroller/LoadableJar.java:23-25 | the file the jar was constructed with |
| LoadableJars.GetConvertedFile | ThunderbotsRobotController/src/main/java/io/github/thunderbots/robotcontroller/LoadableJar.java:34-36 | in the jar cache directory, named after the jar with `_converted` appended |
| LoadableJars.ConvertedFileByName | ThunderbotsRobotController/src/main/java/io/github/thunderbots/robotcontroller/LoadableJar.java:34-36 | two jars share a converted file exactly when their names are equal |
| LoadableJars.ConvertedFileDiffers | ThunderbotsRobotController/src/main/java/io/github/thunderbots/robotcontroller/LoadableJar.java:34-36 | the converted file is never the jar itself |
| JarClassLoader.NewJarClassLoader | ThunderbotsRobotController/src/main/java/io/github/thunderbots/robotcontroller/JarClassLoader.java:29-37 | the loader over the URLs of the jars' files, caching in the cache directory; StringIndexOutOfBoundsException when no file has a URL; one "Cannot convert a file to URL:" error line per file without one |
| JarClassLoader.JarClassLoader.GetClassLoader | ThunderbotsRobotController/src/main/java/io/github/thunderbots/robotcontroller/JarClassLoader.java:44-58 | returns the loader the constructor built, caching in the cache directory; its path string splits into the pieces of every URL, and when no absolute path holds a colon, into `file` and the path of each file with a URL in turn, with exactly 2n-1 separators for n URLs |
| JarClassLoader.ClassPathPieces | ThunderbotsRobotController/src/main/java/io/github/thunderbots/robotcontroller/JarClassLoader.java:29-37 | the class path has one `file:` URL per file with a URL, and splits into the scheme and path of each such file |
| JarClassLoader.JarFilesAligned | ThunderbotsRobotController/src/main/java/io/github/thunderbots/robotcontroller/JarClassLoader.java:30-33 | `fileList` holds one file per jar, the k-th being the k-th jar's file |
| JarClassLoader.EmptyClassPath | ThunderbotsRobotController/src/main/java/io/github/thunderbots/robotcontroller/JarClassLoader.java:34-35 | the constructor throws exactly when none of the jars' files has a URL |
| ClassWalk.WalkPrefix | FtcRobotController/src/main/java/io/github/thunderbots/robotcontroller/OpModeLoader.java:74-79 | a walk keeps a prefix of the constructible op modes in preorder, and all of them when nothing escapes |
| ClassWalk.WalkCompletes | FtcRobotController/src/main/java/io/github/thunderbots/robotcontroller/fileloader/OpModeClassLoader.java:78-82 | a walk runs to the end exactly when no class in preorder throws on its visit or on `getDeclaredClasses()` |
| ClassWalk.WalkAgrees | FtcRobotController/src/main/java/io/github/thunderbots/robotcontroller/fileloader/OpModeClassLoader.java:78-82 | two visits that agree on every class of the walk give the same walk |
| ClassWalk.ConstructibleAmongMembers | FtcRobotController/src/main/java/io/github/thunderbots/robotcontroller/OpModeLoader.java:82-84 | a class is kept exactly when it is in the list and is a constructible op mode |
| OpModeClassLoader.AttemptInstantiate | FtcRobotController/src/main/java/io/github/thunderbots/robotcontroller/fileloader/OpModeClassLoader.java:96-105 | true exactly when construction completes; false exactly on IllegalAccessException or InstantiationException; any other throwable escapes |
| OpModeClassLoader.OpModeVisit | FtcRobotController/src/main/java/io/github/thunderbots/robotcontroller/fileloader/OpModeClassLoader.java:84-94 | nothing escapes, and the class is kept exactly when it is a constructible op mode |
| OpModeClassLoader.VisitKeepsConstructible | FtcRobotController/src/main/java/io/github/thunderbots/robotcontroller/fileloader/OpModeClassLoader.java:84-94 | the visit adds a class exactly when it returns normally on a constructible op mode |
| OpModeClassLoader.ClassScanSpec | FtcRobotController/src/main/java/io/github/thunderbots/robotcontroller/fileloader/OpModeClassLoader.java:78-82 | attemptLoadClass keeps the constructible op modes in preorder, and stops early exactly when some `getDeclaredClasses()` throws |
| OpModeClassLoader.OpModeClassLoader.GetJarURLs | FtcRobotController/src/main/java/io/github/thunderbots/robotcontroller/fileloader/OpModeClassLoader.java:107-119 | the URLs of the regular files named `*.jar`, in order; a malformed URL is skipped |
| OpModeClassLoader.JarUrlsMembership | FtcRobotController/src/main/java/io/github/thunderbots/robotcontroller/fileloader/OpModeClassLoader.java:107-119 | a URL is listed exactly when it is the URL of a regular file of the list whose name ends in `.jar` |
| OpModeClassLoader.FoundLines | FtcRobotController/src/main/java/io/github/thunderbots/robotcontroller/fileloader/OpModeClassLoader.java:88 | one "Found <name> as an op mode" Info line per op mode added, in the order added |
| OpModeClassLoader.OpModeClassLoader.GetClassLoader | FtcRobotController/src/main/java/io/github/thunderbots/robotcontroller/fileloader/OpModeClassLoader.java:43-50 | the loader over the joined URLs, caching in `<private files>/thunderbots`; an empty URL list throws |
| OpModeClassLoader.OpModeClassLoader.InitializeClassLoader | FtcRobotController/src/main/java/io/github/thunderbots/robotcontroller/OpModeClassLoader.java:49-53 | the class loader over the URLs of every file, with no `isFile()` or `.jar` filter, or StringIndexOutOfBoundsException with the loader unchanged; one "Cannot convert a file to URL:" error line per file without a URL, and the op-mode list untouched |
| OpModeClassLoader.OpModeClassLoader.AttemptLoadOpMode | FtcRobotController/src/main/java/io/github/thunderbots/robotcontroller/fileloader/OpModeClassLoader.java:84-94 | appends the class, and logs that it was found, exactly when it is a constructible op mode |
| OpModeClassLoader.OpModeClassLoader.AttemptLoadClass | FtcRobotController/src/main/java/io/github/thunderbots/robotcontroller/fileloader/OpModeClassLoader.java:78-82 | appends what the walk of the class keeps, logs one found line for each, and returns what escapes from `getDeclaredClasses()` |
| OpModeClassLoader.OpModeClassLoader.LoadJarFile | FtcRobotController/src/main/java/io/github/thunderbots/robotcontroller/fileloader/OpModeClassLoader.java:61-76 | appends the op modes of every entry in order, with one found line each; an entry that fails to load or throws is skipped; a file that is not a dex archive throws IOException |
| OpModeClassLoader.OpModeClassLoader.LoadJars | FtcRobotController/src/main/java/io/github/thunderbots/robotcontroller/fileloader/OpModeClassLoader.java:28-41 | sets the class loader over the `.jar` URLs and a fresh list of the op modes of every file named `*.jar`, logging one found line per op mode; with no URL, throws, logs nothing and changes nothing |
| OpModeClassLoader.EntriesFoundAppend | FtcRobotController/src/main/java/io/github/thunderbots/robotcontroller/fileloader/OpModeClassLoader.java:65-75 | the entries of a dex file are searched independently of each other |
| OpModeClassLoader.JarsFoundAppend | FtcRobotController/src/main/java/io/github/thunderbots/robotcontroller/fileloader/OpModeClassLoader.java:33-39 | a jar that cannot be opened costs only its own op modes |
| OpModeClassLoader.EntriesFoundSound | FtcRobotController/src/main/java/io/github/thunderbots/robotcontroller/fileloader/OpModeClassLoader.java:61-76 | every class found is a constructible op mode nested in a class loaded from an entry |
| OpModeClassLoader.JarsFoundSound | FtcRobotController/src/main/java/io/github/thunderbots/robotcontroller/fileloader/OpModeClassLoader.java:28-41 | every class loadJars returns is a constructible op mode from a dex-readable file named `*.jar` |
| OpModeLoader.IsInstantiable | FtcRobotController/src/main/java/io/github/thunderbots/robotcontroller/OpModeLoader.java:88-95 | true exactly when construction completes; an Exception gives false; an Error escapes |
| OpModeLoader.OpModeVisit | FtcRobotController/src/main/java/io/github/thunderbots/robotcontroller/OpModeLoader.java:81-86 | something escapes exactly when the class is an op mode whose constructor throws an Error |
| OpModeLoader.VisitKeepsConstructible | FtcRobotController/src/main/java/io/github/thunderbots/robotcontroller/OpModeLoader.java:81-86 | the visit adds a class exactly when it returns normally on a constructible op mode |
| OpModeLoader.ClassScanSpec | FtcRobotController/src/main/java/io/github/thunderbots/robotcontroller/OpModeLoader.java:74-79 | loadClass keeps a prefix of the constructible op modes in preorder, all of them exactly when no class in the walk has a constructor that throws an Error or nested classes that cannot be listed |
| OpModeLoader.OpModeLoader.GetOpModes | FtcRobotController/src/main/java/io/github/thunderbots/robotcontroller/OpModeLoader.java:45-56 | a fresh op-mode list filled from every file in order; a file that cannot be opened is logged and skipped; any other throwable escapes (also ThunderbotsRobotController/src/main/java/io/github/thunderbots/robotcontroller/OpModeLoader.java:51-62) |
| OpModeLoader.OpModeLoader.LoadJar | FtcRobotController/src/main/java/io/github/thunderbots/robotcontroller/OpModeLoader.java:58-72 | appends the op modes of the entries in order; ClassNotFoundException skips an entry; any other throwable escapes |
| OpModeLoader.OpModeLoader.LoadClass | FtcRobotController/src/main/java/io/github/thunderbots/robotcontroller/OpModeLoader.java:74-79 | appends what the walk of the class keeps and returns what escapes |
| OpModeLoader.OpModeLoader.LoadOpMode | FtcRobotController/src/main/java/io/github/thunderbots/robotcontroller/OpModeLoader.java:81-86 | appends the class exactly when it is a constructible op mode; an Error from its constructor escapes |
| OpModeLoader.NewOpModeLoader | FtcRobotController/src/main/java/io/github/thunderbots/robotcontroller/OpModeLoader.java:38-43 | the loader over the URLs of every file, caching in the cache directory, with an empty op-mode list; StringIndexOutOfBoundsException when no file has a URL |
| OpModeLoader.FilesSearchSound | FtcRobotController/src/main/java/io/github/thunderbots/robotcontroller/OpModeLoader.java:45-56 | every class getOpModes returns is a constructible op mode |
| OpModeLoader.EntriesScanSound | FtcRobotController/src/main/java/io/github/thunderbots/robotcontroller/OpModeLoader.java:62-70 | every class found in the entries of a dex file is a constructible op mode |
| OpModeLoader.FilesSearchCompletes | FtcRobotController/src/main/java/io/github/thunderbots/robotcontroller/OpModeLoader.java:47-54 | getOpModes returns normally exactly when every file is searched to the end or cannot be opened |
| OpModeLoader.FilesSearchLog | FtcRobotController/src/main/java/io/github/thunderbots/robotcontroller/OpModeLoader.java:50-53 | each error line names a file that cannot be opened, and when the search completes every such file is named |
| OpModeLoader.FilesSearchAppend | FtcRobotController/src/main/java/io/github/thunderbots/robotcontroller/OpModeLoader.java:47-54 | files are searched in order; after an IOException the next file is searched, after any other throwable nothing is |
| LoaderRevisions.VisitsAgree | FtcRobotController/src/main/java/io/github/thunderbots/robotcontroller/OpModeLoader.java:88-95 | the two revisions visit a class alike exactly when its constructor does not throw an Error |
| LoaderRevisions.ClassScansAgree | FtcRobotController/src/main/java/io/github/thunderbots/robotcontroller/OpModeLoader.java:74-86 | without such constructors, loadClass and attemptLoadClass keep the same classes and stop at the same place |
| LoaderRevisions.ClassScanDominated | FtcRobotController/src/main/java/io/github/thunderbots/robotcontroller/OpModeLoader.java:74-95 | loadClass keeps a prefix of what attemptLoadClass keeps, and all of it when it returns normally |
| LoaderRevisions.ErrorStopsOnlyOpModeLoader | FtcRobotController/src/main/java/io/github/thunderbots/robotcontroller/OpModeLoader.java:88-95 | a nested op mode whose constructor throws an Error hides the good op mode declared after it from OpModeLoader, but not from OpModeClassLoader |
| LoaderRevisions.UpperCaseJarSkipped | FtcRobotController/src/main/java/io/github/thunderbots/robotcontroller/fileloader/OpModeClassLoader.java:34 | a file named `A.JAR` is a jar to FileLoader's filter, but loadJars never opens it |
| AnnotationReader.ExplicitName | FtcRobotController/src/main/java/io/github/thunderbots/robotcontroller/AnnotationReader.java:54-61 | the name of the first `@OpMode` annotation whose name is neither null nor empty, or none when no annotation gives one |
| AnnotationReader.GetOpModeName | FtcRobotController/src/main/java/io/github/thunderbots/robotcontroller/AnnotationReader.java:52-63 | that first name, or else the simple name; non-empty whenever the simple name is |
| AnnotationReader.BlankNameKept | FtcRobotController/src/main/java/io/github/thunderbots/robotcontroller/AnnotationReader.java:57 | a blank name is used as it is; only null and the empty string fall back |
| Registry.OpModeManager.Register | FtcRobotController/src/main/java/io/github/thunderbots/robotcontroller/OpModeRegister.java:38 | a new name is added with its class; a taken name throws IllegalArgumentException and changes nothing |
| Registry.RegisterActive | FtcRobotController/src/main/java/io/github/thunderbots/robotcontroller/OpModeRegister.java:35-45 | the registry and log after registering the list in order, one op mode at a time, a failure not stopping the loop |
| Registry.FirstNamed | FtcRobotController/src/main/java/io/github/thunderbots/robotcontroller/OpModeRegister.java:35-38 | the first active op mode of the list whose name is the given one, or none exactly when no active op mode has that name |
| Registry.RegisterAllMap | FtcRobotController/src/main/java/io/github/thunderbots/robotcontroller/OpModeRegister.java:35-45 | after the loop a name is registered exactly when it was before or some active op mode carries it; old entries are kept, and a new name maps to the first active op mode carrying it |
| Registry.RegisteredAreActive | FtcRobotController/src/main/java/io/github/thunderbots/robotcontroller/OpModeRegister.java:36-38 | every registry entry was there before or is an active op mode of the list under its annotated name; an inactive op mode is never registered |
| Registry.RegisterAllLog | FtcRobotController/src/main/java/io/github/thunderbots/robotcontroller/OpModeRegister.java:37-43 | the log only grows: one line per registered op mode, two per refused one, none per inactive one |
| Registry.RegisteredAreLogged | FtcRobotController/src/main/java/io/github/thunderbots/robotcontroller/OpModeRegister.java:39 | every op mode registered is announced as "Registered" with its simple name at the success level |
| OpModeRegister.DiscoverOpModes | FtcRobotController/src/main/java/io/github/thunderbots/robotcontroller/OpModeRegister.java:30-33 | getJarList, convertJars, the loader and getOpModes run in that order, each on the previous one's result |
| OpModeRegister.SearchOpModes | FtcRobotController/src/main/java/io/github/thunderbots/robotcontroller/OpModeRegister.java:32-33 | the OpModeLoader over the converted files and its search |
| OpModeRegister.Register | FtcRobotController/src/main/java/io/github/thunderbots/robotcontroller/OpModeRegister.java:29-46 | when discovery returns, every active op mode found is registered (Info on success) and the method returns; otherwise the throwable escapes and the registry is untouched |
| OpModeRegister.RegisteredOpModes | FtcRobotController/src/main/java/io/github/thunderbots/robotcontroller/OpModeRegister.java:33-38 | every op mode a run adds to the registry is active and constructible and sits under its annotated name |
| ThunderOpModeRegister.DiscoverOpModes | FtcRobotController/src/main/java/io/github/thunderbots/robotcontroller/fileloader/ThunderOpModeRegister.java:16-21 | the file set of OpModeClassLoader.getFileSet (the same walk as FileLoader's), the converter on the whole file set, then loadJars on the same unconverted file set; the log holds the conversion lines, the found lines and the final list; sets OpModeClassLoader's fields only when loadJars returns |
| ThunderOpModeRegister.Register | FtcRobotController/src/main/java/io/github/thunderbots/robotcontroller/fileloader/ThunderOpModeRegister.java:13-39 | never throws: registers every active op mode found (Verbose on success), or logs "Error reading external files:" and leaves the registry untouched |
| ThunderOpModeRegister.RegisteredOpModes | FtcRobotController/src/main/java/io/github/thunderbots/robotcontroller/fileloader/ThunderOpModeRegister.java:19-25 | every op mode a run adds is active and constructible, under its annotated name, and comes from a dex-readable `.jar` under the op-mode directory, every directory of which could be listed |
| ThunderOpModeRegister.ConversionDiscarded | FtcRobotController/src/main/java/io/github/thunderbots/robotcontroller/fileloader/ThunderOpModeRegister.java:17-19 | once conversion does not throw, the op modes found are the same whatever dx did: the converter's output is never used |

## Left out

- **Runtime operations.** Android class loading, `DexFile.loadDex`/`close`, reflection and the
  file system are oracles in `Env` and `ClassInfo`. These are left out:
  - creating and deleting directories (`mkdirs`, `delete`);
  - `Thread.setContextClassLoader`;
  - `printStackTrace`;
  - the `/temp/` directory given to `loadDex`.
- **Parent class loader.** The loaders' parent class loader is not modelled. The model takes
  `Env.resolve` to answer for every class the `DexClassLoader` can see.
- **`getDeclaredClasses()` failures.** A `getDeclaredClasses()` that throws is taken to throw
  an Error (`LinkageError`). A class name that `loadClass` cannot find is
  `LoadFails(ClassNotFoundException)`.
- **Case conversion.** `String.toLowerCase()` is modelled on ASCII letters only, and other
  characters are unchanged.
- **URL encoding.** `toURI()` percent-encodes characters such as spaces; the model writes a
  file's URL as `file:` followed by its absolute path unchanged.
- **Path string of file URLs.** Every URL the program puts in a path string is a `file:` URL,
  so every element contains the path separator, and a class loader splitting the string at it
  sees the scheme and the path of each file as separate pieces. `JarClassLoader.JarClassLoader.GetClassLoader`
  states exactly those pieces, for absolute paths that hold no colon; for a path that holds one
  it states only that the string splits into the pieces of every URL. What the class loader
  then does with a piece is not modelled.
- **`OpModeManager.register`.** The host code is not part of this model. The model assumes it
  refuses an already-registered name with `IllegalArgumentException`, and accepts every other
  name.
- **Top-level `catch (Throwable)` in `ThunderOpModeRegister`.** Its `ex.printStackTrace()` for
  Exceptions is left out; only the error line is kept.
- **`DalvikConverter` of the `fileloader` package.** The class is not part of this model.
  `ThunderOpModeRegister` calls its `getJarList(fileList)` and `convertJars(fileList)` and
  discards both results. The model takes `getJarList` to have no effect. For `convertJars`, it
  uses the FtcRobotController `DalvikConverter.convertJars`, so its log lines and any escaping
  throwable still count.
- **`OpModeClassLoader.java` (top-level).** This revision does not compile, so only the
  parts that match the `fileloader` revision are modelled. Its first `loadJars` pass (lines
  29-32) calls `loadJarFile`, which declares `throws IOException`, without handling the
  exception, and it is left out. Its second pass (lines 35-44) passes a `URL[]` to
  `getClassLoader(List<URL>)` (line 55); the model reads it as the `fileloader` revision's
  second pass. Its `loadJarFile` through `getJarURLs` (lines 77-136) is the same code as lines
  61-120 of the `fileloader` revision. Its `initializeClassLoader` (lines 49-53) exists only in
  this revision. It builds the loader from `FileLoader.getUrlList` over every file, with no
  `isFile()` or `.jar` filter and one "Cannot convert a file to URL:" line per failure.
  `OpModeClassLoader.OpModeClassLoader.InitializeClassLoader` models it.
- **ThunderbotsRobotController `DalvikConverter.convertJar` and `LoadableJar.getFile`.** Neither
  is defined in ThunderbotsRobotController's `DalvikConverter.java` or `LoadableJar.java`, yet
  `convertJars` (DalvikConverter.java:51) and the `JarClassLoader` constructor
  (JarClassLoader.java:32) call them. `convertJar` is a parameter returning an optional file.
  `getFile` returns the `file` field set by the constructor.
- **`FileLoader.getUrlList` called from ThunderbotsRobotController.** The `JarClassLoader`
  constructor (JarClassLoader.java:34) calls a `FileLoader` that is not part of that module. The
  model takes it to be the FtcRobotController `FileLoader`, and uses `FileLoader.GetUrlList`.
- **`isFile()` against the walked tree.** `Env.isFile` is an oracle separate from the
  `RegularFile` nodes of the tree that `getFilesInDirectory` walks. A file the walk collected may
  therefore fail `isFile()` later in `getJarURLs`, as when the file system changes between the
  two calls, while `loadJarFile` still opens it by name. The model allows this race and does not
  assume the two agree.
- **ThunderbotsRobotController `OpModeLoader`.** It declares no `fileList`, `classLoader` or
  constructor. Its search is modelled by the FtcRobotController `OpModeLoader` class, over the
  same fields.
- **`AnnotationReader.IsActive`.** It is the predicate "an `@Active` annotation is present"
  itself, so it has no separate contract. Its consequences are stated by
  `Registry.RegisteredAreActive`.
- **`ThunderLog`.** Its formatting and tags are left out. A log call is a `LogLine` of level and
  message.
