/** AnnotationReader (FtcRobotController): reads the `@Active` and `@OpMode(name = ...)`
    annotations of a loaded class.
 */
module AnnotationReader {
  import opened JavaRuntime

  /** isActive: the class carries an `@Active` annotation. */
  predicate IsActive(c: ClassInfo)
  {
    ActiveAnnotation in c.annotations
  }

  /** An `@OpMode` annotation whose name is neither null nor the empty string. */
  predicate GivesName(a: Annotation)
  {
    a.OpModeAnnotation? && a.name.Some? && a.name.value != ""
  }

  /** The name of the first `@OpMode` annotation that gives one, if any does. */
  function ExplicitName(annotations: seq<Annotation>): (r: Option<string>)
    ensures r.None? <==> forall k :: 0 <= k < |annotations| ==> !GivesName(annotations[k])
    ensures r.Some? ==>
              exists k :: 0 <= k < |annotations| && GivesName(annotations[k])
                          && annotations[k].name.value == r.value
                          && forall j :: 0 <= j < k ==> !GivesName(annotations[j])
  {
    if annotations == [] then None
    else if GivesName(annotations[0]) then Some(annotations[0].name.value)
    else
      var rest := ExplicitName(annotations[1..]);
      assert forall k :: 0 < k < |annotations| ==> annotations[k] == annotations[1..][k - 1];
      if rest.Some? then
        var k :| 0 <= k < |annotations[1..]| && GivesName(annotations[1..][k])
                 && annotations[1..][k].name.value == rest.value
                 && forall j :: 0 <= j < k ==> !GivesName(annotations[1..][j]);
        assert forall j :: 0 <= j < k + 1 ==> !GivesName(annotations[j]);
        rest
      else
        rest
  }

  /** getOpModeName: the first name an `@OpMode` annotation gives; failing that, the simple name. */
  function GetOpModeName(c: ClassInfo): (name: string)
    ensures (forall k :: 0 <= k < |c.annotations| ==> !GivesName(c.annotations[k])) ==> name == c.simpleName
    ensures forall k :: 0 <= k < |c.annotations| && GivesName(c.annotations[k])
                        && (forall j :: 0 <= j < k ==> !GivesName(c.annotations[j]))
                        ==> name == c.annotations[k].name.value
    ensures c.simpleName != "" ==> name != ""
  {
    match ExplicitName(c.annotations)
    case Some(n) => n
    case None => c.simpleName
  }

  /** Only null and the exact empty string fall back to the simple name: a name made of blanks
      is used as it is. */
  lemma BlankNameKept(c: ClassInfo, k: nat)
    requires k < |c.annotations| && c.annotations[k] == OpModeAnnotation(Some(" "))
    requires forall j :: 0 <= j < k ==> !GivesName(c.annotations[j])
    ensures GetOpModeName(c) == " "
  {
  }
}
