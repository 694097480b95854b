/** DalvikConverter (FtcRobotController): runs the dx transcoder on every jar and collects
    the converted jars, skipping a jar that dx rejects with a ParseException.
 */
module DalvikConverter {
  import opened JavaRuntime

  /** The output directory, inside the cache directory. */
  const OUTPUT_DIRECTORY := "/compiled/"

  const OUTPUT_PREFIX := "compiled-"

  /** `new File(getCacheDirectory(), OUTPUT_DIRECTORY)`: java.io.File joins the child to the
      parent and drops the child's trailing slash. */
  function OutputDirectory(env: Env): (dir: string)
    ensures dir == CacheDirectory(env) + "/compiled"
  {
    CacheDirectory(env) + OUTPUT_DIRECTORY[..|OUTPUT_DIRECTORY| - 1]
  }

  /** getOutputFile: the converted jar's file, named after the input's name only. */
  function GetOutputFile(env: Env, inputFile: File): (output: File)
    ensures output.parent == OutputDirectory(env)
    ensures StartsWith(output.parent, CacheDirectory(env) + "/")
    ensures StartsWith(output.name, OUTPUT_PREFIX)
    ensures EndsWith(output.name, inputFile.name)
    ensures |output.name| == |OUTPUT_PREFIX| + |inputFile.name|
  {
    File(OutputDirectory(env), OUTPUT_PREFIX + inputFile.name)
  }

  /** The output depends on the input's name and nothing else: equal names give the same
      output file (even for jars in different directories), different names different ones. */
  lemma OutputFileByName(env: Env, a: File, b: File)
    ensures GetOutputFile(env, a) == GetOutputFile(env, b) <==> a.name == b.name
  {
    if GetOutputFile(env, a) == GetOutputFile(env, b) {
      assert (OUTPUT_PREFIX + a.name)[|OUTPUT_PREFIX|..] == a.name;
      assert (OUTPUT_PREFIX + b.name)[|OUTPUT_PREFIX|..] == b.name;
    }
  }

  /** A jar's output keeps the `.jar` suffix. */
  lemma OutputKeepsSuffix(env: Env, inputFile: File)
    requires EndsWith(inputFile.name, ".jar")
    ensures EndsWith(GetOutputFile(env, inputFile).name, ".jar")
  {
    var out := GetOutputFile(env, inputFile).name;
    assert out[|out| - |inputFile.name|..] == inputFile.name;
    assert out[|out| - 4..] == inputFile.name[|inputFile.name| - 4..];
  }

  /** The two error lines logged for a jar that dx cannot parse. */
  function WrongCompiler(jar: File): seq<LogLine>
  {
    [Line(Error, jar.name + " was probably generated using the wrong compiler!"),
     Line(Error, "Make sure to use Java 1.6")]
  }

  /** What convertJars has produced: converted files, log lines, and the throwable that escaped. */
  datatype Conversion = Conversion(outputs: seq<File>, log: seq<LogLine>, fault: Option<Throwable>)

  function Prefix(outputs: seq<File>, log: seq<LogLine>, rest: Conversion): Conversion
  {
    Conversion(outputs + rest.outputs, log + rest.log, rest.fault)
  }

  lemma PrefixAssoc(outputs: seq<File>, log: seq<LogLine>, more: seq<File>, moreLog: seq<LogLine>, rest: Conversion)
    ensures Prefix(outputs, log, Prefix(more, moreLog, rest)) == Prefix(outputs + more, log + moreLog, rest)
  {
    ConcatAssoc(outputs, more, rest.outputs);
    ConcatAssoc(log, moreLog, rest.log);
  }

  /** The conversion of `jars`: only a ParseException is caught. */
  function Convert(env: Env, jars: seq<File>): Conversion
  {
    if jars == [] then Conversion([], [], None)
    else
      match env.dx(jars[0])
      case Completes => Prefix([GetOutputFile(env, jars[0])], [], Convert(env, jars[1..]))
      case Throws(t) =>
        if t == ParseException then Prefix([], WrongCompiler(jars[0]), Convert(env, jars[1..]))
        else Conversion([], [], Some(t))
  }

  /** convertJars, with the transcoder call `Main.main(args)` as the oracle `env.dx`. */
  method ConvertJars(jarList: seq<File>, env: Env) returns (r: Result<seq<File>>, log: seq<LogLine>)
    ensures log == Convert(env, jarList).log
    ensures Convert(env, jarList).fault == None ==> r == Success(Convert(env, jarList).outputs)
    ensures Convert(env, jarList).fault != None ==> r == Failure(Convert(env, jarList).fault.value)
  {
    var convertedJars := [];
    log := [];
    for i := 0 to |jarList|
      invariant Prefix(convertedJars, log, Convert(env, jarList[i..])) == Convert(env, jarList)
    {
      assert jarList[i..][1..] == jarList[i + 1..];
      ghost var rest := Convert(env, jarList[i + 1..]);
      var jar := jarList[i];
      var output := GetOutputFile(env, jar);
      match env.dx(jar) {
        case Completes =>
          PrefixAssoc(convertedJars, log, [output], [], rest);
          assert log + [] == log;
          convertedJars := convertedJars + [output];
        case Throws(t) =>
          if t == ParseException {
            PrefixAssoc(convertedJars, log, [], WrongCompiler(jar), rest);
            assert convertedJars + [] == convertedJars;
            log := log + WrongCompiler(jar);
          } else {
            return Failure(t), log;
          }
      }
    }
    assert jarList[|jarList|..] == [];
    assert convertedJars + [] == convertedJars;
    assert log + [] == log;
    r := Success(convertedJars);
  }

  /** A jar is either converted or logged with two lines; the result is never longer than the input. */
  lemma {:induction false} ConvertAccounting(env: Env, jars: seq<File>)
    ensures 2 * |Convert(env, jars).outputs| + |Convert(env, jars).log| <= 2 * |jars|
    ensures Convert(env, jars).fault == None ==>
              2 * |Convert(env, jars).outputs| + |Convert(env, jars).log| == 2 * |jars|
    ensures forall k :: 0 <= k < |Convert(env, jars).log| ==> Convert(env, jars).log[k].level == Error
  {
    if jars != [] {
      ConvertAccounting(env, jars[1..]);
    }
  }

  /** Converting `a + b`: after `a`, the jars of `b` are converted as if alone, unless a
      throwable other than ParseException escaped from `a`. */
  lemma {:induction false} ConvertAppend(env: Env, a: seq<File>, b: seq<File>)
    ensures Convert(env, a).fault != None ==> Convert(env, a + b) == Convert(env, a)
    ensures Convert(env, a).fault == None ==>
              Convert(env, a + b) == Prefix(Convert(env, a).outputs, Convert(env, a).log, Convert(env, b))
  {
    if a == [] {
      assert a + b == b;
    } else {
      assert (a + b)[0] == a[0];
      assert (a + b)[1..] == a[1..] + b;
      ConvertAppend(env, a[1..], b);
      var tail := Convert(env, a[1..]);
      if tail.fault == None {
        match env.dx(a[0])
        case Completes =>
          PrefixAssoc([GetOutputFile(env, a[0])], [], tail.outputs, tail.log, Convert(env, b));
        case Throws(t) =>
          if t == ParseException {
            PrefixAssoc([], WrongCompiler(a[0]), tail.outputs, tail.log, Convert(env, b));
          }
      }
    }
  }

  /** Every output is the output file of an input jar that dx converted. */
  lemma {:induction false} ConvertSound(env: Env, jars: seq<File>, out: File)
    requires out in Convert(env, jars).outputs
    ensures exists k :: 0 <= k < |jars| && env.dx(jars[k]) == Completes && out == GetOutputFile(env, jars[k])
  {
    if env.dx(jars[0]) == Completes && out == GetOutputFile(env, jars[0]) {
    } else {
      ConvertSound(env, jars[1..], out);
      var k :| 0 <= k < |jars[1..]| && env.dx(jars[1..][k]) == Completes && out == GetOutputFile(env, jars[1..][k]);
      assert jars[k + 1] == jars[1..][k];
    }
  }

  /** When nothing escapes, every jar that dx converted has its output in the result. */
  lemma {:induction false} ConvertComplete(env: Env, jars: seq<File>, jar: File)
    requires Convert(env, jars).fault == None
    requires jar in jars && env.dx(jar) == Completes
    ensures GetOutputFile(env, jar) in Convert(env, jars).outputs
  {
    if jar != jars[0] {
      ConvertComplete(env, jars[1..], jar);
    }
  }

  /** convertJars throws exactly when dx throws something other than a ParseException on some
      jar, and then it throws the first such throwable. */
  lemma {:induction false} ConvertFault(env: Env, jars: seq<File>)
    ensures Convert(env, jars).fault == None <==>
              forall k :: 0 <= k < |jars| ==> env.dx(jars[k]) in {Completes, Throws(ParseException)}
    ensures Convert(env, jars).fault != None ==>
              exists k :: 0 <= k < |jars| && env.dx(jars[k]) == Throws(Convert(env, jars).fault.value)
                                          && Convert(env, jars).fault.value != ParseException
  {
    if jars != [] {
      ConvertFault(env, jars[1..]);
      if Convert(env, jars).fault == None {
        forall k | 0 <= k < |jars|
          ensures env.dx(jars[k]) in {Completes, Throws(ParseException)}
        {
          if k > 0 {
            assert jars[k] == jars[1..][k - 1];
          }
        }
      } else if env.dx(jars[0]) in {Completes, Throws(ParseException)} {
        var k :| 0 <= k < |jars[1..]| && env.dx(jars[1..][k]) == Throws(Convert(env, jars).fault.value);
        assert jars[k + 1] == jars[1..][k];
        assert !(env.dx(jars[k + 1]) in {Completes, Throws(ParseException)});
      }
    }
  }
}
