/** DalvikConverter (ThunderbotsRobotController): converts every jar with `convertJar` and
    keeps the conversions that are not null. `convertJar` is not part of this model and is
    a parameter: `None` stands for a null return.
 */
module ThunderbotsDalvikConverter {
  import opened JavaRuntime

  /** The non-null conversions of `jars`, in order. */
  function NonNull(jars: seq<File>, convertJar: File -> Option<File>): seq<File>
  {
    if jars == [] then []
    else (if convertJar(jars[0]).Some? then [convertJar(jars[0]).value] else []) + NonNull(jars[1..], convertJar)
  }

  method ConvertJars(jarList: seq<File>, convertJar: File -> Option<File>) returns (convertedJars: seq<File>)
    ensures convertedJars == NonNull(jarList, convertJar)
  {
    convertedJars := [];
    for i := 0 to |jarList|
      invariant convertedJars + NonNull(jarList[i..], convertJar) == NonNull(jarList, convertJar)
    {
      assert jarList[i..][1..] == jarList[i + 1..];
      var converted := convertJar(jarList[i]);
      if converted.Some? {
        convertedJars := convertedJars + [converted.value];
      }
    }
    assert jarList[|jarList|..] == [];
    assert convertedJars + [] == convertedJars;
  }

  /** A file is in the result exactly when it is the conversion of one of the jars. */
  lemma {:induction false} NonNullMembership(jars: seq<File>, convertJar: File -> Option<File>, f: File)
    ensures f in NonNull(jars, convertJar) <==> exists k :: 0 <= k < |jars| && convertJar(jars[k]) == Some(f)
  {
    if jars != [] {
      NonNullMembership(jars[1..], convertJar, f);
      if exists k :: 0 <= k < |jars| && convertJar(jars[k]) == Some(f) {
        var k :| 0 <= k < |jars| && convertJar(jars[k]) == Some(f);
        if k > 0 {
          assert jars[1..][k - 1] == jars[k];
        }
      }
      if exists k :: 0 <= k < |jars[1..]| && convertJar(jars[1..][k]) == Some(f) {
        var k :| 0 <= k < |jars[1..]| && convertJar(jars[1..][k]) == Some(f);
        assert jars[k + 1] == jars[1..][k];
      }
    }
  }

  /** At most one file per jar, and exactly one each when no conversion is null. */
  lemma {:induction false} NonNullLength(jars: seq<File>, convertJar: File -> Option<File>)
    ensures |NonNull(jars, convertJar)| <= |jars|
    ensures (forall k :: 0 <= k < |jars| ==> convertJar(jars[k]).Some?) ==> |NonNull(jars, convertJar)| == |jars|
  {
    if jars != [] {
      NonNullLength(jars[1..], convertJar);
      if forall k :: 0 <= k < |jars| ==> convertJar(jars[k]).Some? {
        forall k | 0 <= k < |jars[1..]|
          ensures convertJar(jars[1..][k]).Some?
        {
          assert jars[1..][k] == jars[k + 1];
        }
      }
    }
  }
}
