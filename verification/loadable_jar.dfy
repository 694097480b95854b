/** LoadableJar: a jar file from which op modes can be extracted, and the file its converted
    form is written to inside the jar cache directory.
 */
module LoadableJars {
  import opened JavaRuntime

  /** The jar cache sub-directory, inside the cache directory. */
  const JAR_CACHE_DIRECTORY := "/converted/"

  const CONVERTED_SUFFIX := "_converted"

  /** FileUtil.getJarCacheDirectory(): `new File(getCacheDirectory(), "/converted/")`. */
  function JarCacheDirectory(env: Env): string
  {
    CacheDirectory(env) + "/converted"
  }

  datatype LoadableJar = LoadableJar(file: File)

  /** The jar's file (the `file` field that the constructor sets). */
  function GetFile(jar: LoadableJar): (f: File)
    ensures LoadableJar(f) == jar
  {
    jar.file
  }

  /** getConvertedFile: in the jar cache directory, named after the jar with `_converted` appended. */
  function GetConvertedFile(env: Env, jar: LoadableJar): (converted: File)
    ensures converted.parent == JarCacheDirectory(env)
    ensures StartsWith(converted.name, jar.file.name)
    ensures EndsWith(converted.name, CONVERTED_SUFFIX)
    ensures |converted.name| == |jar.file.name| + |CONVERTED_SUFFIX|
  {
    File(JarCacheDirectory(env), jar.file.name + CONVERTED_SUFFIX)
  }

  /** Two jars share a converted file exactly when their names are equal, wherever they lie. */
  lemma ConvertedFileByName(env: Env, a: LoadableJar, b: LoadableJar)
    ensures GetConvertedFile(env, a) == GetConvertedFile(env, b) <==> a.file.name == b.file.name
  {
    var ca := GetConvertedFile(env, a).name;
    var cb := GetConvertedFile(env, b).name;
    if ca == cb {
      assert ca[..|a.file.name|] == a.file.name;
      assert cb[..|b.file.name|] == b.file.name;
    }
  }

  /** The converted file never overwrites the jar it came from. */
  lemma ConvertedFileDiffers(env: Env, jar: LoadableJar)
    ensures GetConvertedFile(env, jar) != jar.file
  {
    assert |GetConvertedFile(env, jar).name| != |jar.file.name|;
  }
}
