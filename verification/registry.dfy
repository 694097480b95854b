/** The host's OpModeManager, as far as the registration loops use it, and the loop itself:
    every active op mode of a list is registered under the name its annotations give, and a
    throwable from one registration is logged without stopping the loop.
 */
module Registry {
  import opened JavaRuntime
  import opened AnnotationReader

  /** The registry the host application owns: op-mode names to classes. */
  class OpModeManager {
    var opModes: map<string, ClassInfo>

    constructor (opModes: map<string, ClassInfo>)
      ensures this.opModes == opModes
    {
      this.opModes := opModes;
    }

    /** register(name, opMode): a name that is already taken is refused. */
    method Register(name: string, opMode: ClassInfo) returns (thrown: Option<Throwable>)
      modifies this
      ensures name in old(opModes) ==> thrown == Some(IllegalArgumentException) && opModes == old(opModes)
      ensures name !in old(opModes) ==> thrown == None && opModes == old(opModes)[name := opMode]
    {
      if name in opModes {
        return Some(IllegalArgumentException);
      }
      opModes := opModes[name := opMode];
      thrown := None;
    }
  }

  /** The registry and the log while the loop runs. */
  datatype Registration = Registration(opModes: map<string, ClassInfo>, log: seq<LogLine>)

  /** One pass of the loop body; `level` is the level of the success line. */
  function RegisterOne(r: Registration, c: ClassInfo, level: LogLevel): Registration
  {
    if !IsActive(c) then r
    else
      var name := GetOpModeName(c);
      if name in r.opModes then
        Registration(r.opModes, r.log + [Line(Error, "Error registering op mode: " + c.simpleName),
                                         MessageOf(Error, IllegalArgumentException)])
      else
        Registration(r.opModes[name := c], r.log + [Line(level, "Registered " + c.simpleName)])
  }

  /** The loop over `ops`, in order, starting from `r`. */
  function RegisterAll(r: Registration, ops: seq<ClassInfo>, level: LogLevel): Registration
    decreases ops
  {
    if ops == [] then r else RegisterAll(RegisterOne(r, ops[0], level), ops[1..], level)
  }

  /** The loop: `for (opmode : opmodeList) if (isActive(opmode)) try { register } catch (Throwable)`. */
  method RegisterActive(manager: OpModeManager, opmodeList: seq<ClassInfo>, level: LogLevel)
    returns (log: seq<LogLine>)
    modifies manager
    ensures Registration(manager.opModes, log)
            == RegisterAll(Registration(old(manager.opModes), []), opmodeList, level)
  {
    log := [];
    assert opmodeList[0..] == opmodeList;
    for i := 0 to |opmodeList|
      invariant RegisterAll(Registration(manager.opModes, log), opmodeList[i..], level)
                == RegisterAll(Registration(old(manager.opModes), []), opmodeList, level)
    {
      assert opmodeList[i..][1..] == opmodeList[i + 1..];
      var opmode := opmodeList[i];
      if IsActive(opmode) {
        var thrown := manager.Register(GetOpModeName(opmode), opmode);
        if thrown.None? {
          log := log + [Line(level, "Registered " + opmode.simpleName)];
        } else {
          log := log + [Line(Error, "Error registering op mode: " + opmode.simpleName), MessageOf(Error, thrown.value)];
        }
      }
    }
    assert opmodeList[|opmodeList|..] == [];
  }

  // ----- what the loop registers, stated without the loop -----

  /** The first active op mode of `ops` whose name is `name`: the one a registration keeps. */
  function FirstNamed(ops: seq<ClassInfo>, name: string): (r: Option<ClassInfo>)
    ensures r.Some? ==> r.value in ops && IsActive(r.value) && GetOpModeName(r.value) == name
    ensures r.None? <==> forall k :: 0 <= k < |ops| ==> !(IsActive(ops[k]) && GetOpModeName(ops[k]) == name)
  {
    if ops == [] then None
    else if IsActive(ops[0]) && GetOpModeName(ops[0]) == name then Some(ops[0])
    else
      var rest := FirstNamed(ops[1..], name);
      assert forall k :: 0 < k < |ops| ==> ops[k] == ops[1..][k - 1];
      rest
  }

  /** The registry after the loop: every name registered before keeps its class, and every
      other name maps to the first active op mode of the list that carries it. Nothing else
      is registered; in particular an inactive op mode never is. */
  lemma {:induction false} RegisterAllMap(r: Registration, ops: seq<ClassInfo>, level: LogLevel, name: string)
    ensures name in RegisterAll(r, ops, level).opModes <==> name in r.opModes || FirstNamed(ops, name).Some?
    ensures name in r.opModes ==> RegisterAll(r, ops, level).opModes[name] == r.opModes[name]
    ensures name !in r.opModes && FirstNamed(ops, name).Some? ==>
              RegisterAll(r, ops, level).opModes[name] == FirstNamed(ops, name).value
    decreases ops
  {
    if ops != [] {
      var next := RegisterOne(r, ops[0], level);
      RegisterAllMap(next, ops[1..], level, name);
    }
  }

  /** Every class in the registry after the loop was there before or is an active op mode of
      the list, registered under the name its annotations give. */
  lemma RegisteredAreActive(r: Registration, ops: seq<ClassInfo>, level: LogLevel, name: string)
    requires name in RegisterAll(r, ops, level).opModes
    ensures (name in r.opModes && RegisterAll(r, ops, level).opModes[name] == r.opModes[name])
            || (var c := RegisterAll(r, ops, level).opModes[name];
                c in ops && IsActive(c) && GetOpModeName(c) == name)
  {
    RegisterAllMap(r, ops, level, name);
  }

  /** The loop only appends to the log: two lines for each refused op mode, one for each
      registered one, none for an inactive one. */
  lemma {:induction false} RegisterAllLog(r: Registration, ops: seq<ClassInfo>, level: LogLevel)
    ensures r.log <= RegisterAll(r, ops, level).log
    ensures |RegisterAll(r, ops, level).log| - |r.log|
            == 2 * ActiveCount(ops) - (|RegisterAll(r, ops, level).opModes| - |r.opModes|)
    decreases ops
  {
    if ops != [] {
      var next := RegisterOne(r, ops[0], level);
      RegisterAllLog(next, ops[1..], level);
      if IsActive(ops[0]) && GetOpModeName(ops[0]) !in r.opModes {
        assert |next.opModes| == |r.opModes| + 1;
      }
    }
  }

  /** The number of active op modes in a list. */
  function ActiveCount(ops: seq<ClassInfo>): (n: nat)
    ensures n <= |ops|
  {
    if ops == [] then 0 else (if IsActive(ops[0]) then 1 else 0) + ActiveCount(ops[1..])
  }

  /** An op mode that is registered is announced with its simple name at the success level. */
  lemma {:induction false} RegisteredAreLogged(r: Registration, ops: seq<ClassInfo>, level: LogLevel, name: string)
    requires name !in r.opModes && FirstNamed(ops, name).Some?
    ensures Line(level, "Registered " + FirstNamed(ops, name).value.simpleName) in RegisterAll(r, ops, level).log
    decreases ops
  {
    var next := RegisterOne(r, ops[0], level);
    RegisterAllLog(next, ops[1..], level);
    if IsActive(ops[0]) && GetOpModeName(ops[0]) == name {
      assert next.log[|next.log| - 1] == Line(level, "Registered " + ops[0].simpleName);
    } else {
      RegisteredAreLogged(next, ops[1..], level, name);
    }
  }
}
