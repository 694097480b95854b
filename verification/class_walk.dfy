/** The recursion shared by attemptLoadClass and loadClass: visit a class (which may add it
    to the op-mode list, or throw), then each of its declared classes in turn, unless
    `getDeclaredClasses()` throws. The loaders differ only in how one class is visited.
 */
module ClassWalk {
  import opened JavaRuntime

  /** Visiting `c`, then the classes it declares, stopping at the first throwable. */
  function Walk(visit: ClassInfo -> Scan, c: ClassInfo): Scan
    decreases c
  {
    Then(visit(c), if c.declaredThrows then Scan([], Some(LinkageError)) else WalkAll(visit, c.declared))
  }

  function WalkAll(visit: ClassInfo -> Scan, cs: seq<ClassInfo>): Scan
    decreases cs
  {
    if cs == [] then Scan([], None) else Then(Walk(visit, cs[0]), WalkAll(visit, cs[1..]))
  }

  /** A visit adds the class exactly when it returns normally and the class is a constructible op mode. */
  ghost predicate KeepsConstructible(visit: ClassInfo -> Scan)
  {
    forall c :: visit(c).found == (if visit(c).fault == None && Constructible(c) then [c] else [])
  }

  /** A class is among the constructible ones exactly when it is in the list and constructible. */
  lemma {:induction false} ConstructibleAmongMembers(cs: seq<ClassInfo>, x: ClassInfo)
    ensures x in ConstructibleAmong(cs) <==> x in cs && Constructible(x)
  {
    if cs != [] {
      ConstructibleAmongMembers(cs[1..], x);
      assert cs == [cs[0]] + cs[1..];
    }
  }

  lemma PreorderUnfold(c: ClassInfo)
    ensures ConstructibleAmong(Preorder(c))
            == (if Constructible(c) then [c] else []) + ConstructibleAmong(PreorderAll(c.declared))
  {
    assert Preorder(c)[1..] == PreorderAll(c.declared);
  }

  /** What a walk keeps is always a prefix of the constructible classes in preorder, and all of
      them when nothing escapes: a throwable loses only the classes after it. */
  lemma {:induction false} WalkPrefix(visit: ClassInfo -> Scan, c: ClassInfo)
    requires KeepsConstructible(visit)
    ensures Walk(visit, c).found <= ConstructibleAmong(Preorder(c))
    ensures Walk(visit, c).fault == None ==> Walk(visit, c).found == ConstructibleAmong(Preorder(c))
    decreases c
  {
    PreorderUnfold(c);
    var head := visit(c);
    if head.fault == None && !c.declaredThrows {
      WalkAllPrefix(visit, c.declared);
    }
  }

  lemma {:induction false} WalkAllPrefix(visit: ClassInfo -> Scan, cs: seq<ClassInfo>)
    requires KeepsConstructible(visit)
    ensures WalkAll(visit, cs).found <= ConstructibleAmong(PreorderAll(cs))
    ensures WalkAll(visit, cs).fault == None ==> WalkAll(visit, cs).found == ConstructibleAmong(PreorderAll(cs))
    decreases cs
  {
    if cs != [] {
      var first := Walk(visit, cs[0]);
      var whole := ConstructibleAmong(PreorderAll(cs));
      ConstructibleAppend(Preorder(cs[0]), PreorderAll(cs[1..]));
      assert whole == ConstructibleAmong(Preorder(cs[0])) + ConstructibleAmong(PreorderAll(cs[1..]));
      WalkPrefix(visit, cs[0]);
      if first.fault == None {
        WalkAllPrefix(visit, cs[1..]);
      } else {
        assert first.found <= ConstructibleAmong(Preorder(cs[0]));
        assert ConstructibleAmong(Preorder(cs[0])) <= whole;
      }
    }
  }

  /** A walk runs to the end exactly when no class in it throws, neither while being visited
      nor when asked for its declared classes. */
  lemma {:induction false} WalkCompletes(visit: ClassInfo -> Scan, c: ClassInfo)
    ensures Walk(visit, c).fault == None <==>
              forall x :: x in Preorder(c) ==> visit(x).fault == None && !x.declaredThrows
    decreases c
  {
    WalkAllCompletes(visit, c.declared);
  }

  lemma {:induction false} WalkAllCompletes(visit: ClassInfo -> Scan, cs: seq<ClassInfo>)
    ensures WalkAll(visit, cs).fault == None <==>
              forall x :: x in PreorderAll(cs) ==> visit(x).fault == None && !x.declaredThrows
    decreases cs
  {
    if cs != [] {
      WalkCompletes(visit, cs[0]);
      WalkAllCompletes(visit, cs[1..]);
    }
  }

  /** Two visits that agree on every class of the walk give the same walk. */
  lemma {:induction false} WalkAgrees(v1: ClassInfo -> Scan, v2: ClassInfo -> Scan, c: ClassInfo)
    requires forall x :: x in Preorder(c) ==> v1(x) == v2(x)
    ensures Walk(v1, c) == Walk(v2, c)
    decreases c
  {
    WalkAllAgrees(v1, v2, c.declared);
  }

  lemma {:induction false} WalkAllAgrees(v1: ClassInfo -> Scan, v2: ClassInfo -> Scan, cs: seq<ClassInfo>)
    requires forall x :: x in PreorderAll(cs) ==> v1(x) == v2(x)
    ensures WalkAll(v1, cs) == WalkAll(v2, cs)
    decreases cs
  {
    if cs != [] {
      WalkAgrees(v1, v2, cs[0]);
      WalkAllAgrees(v1, v2, cs[1..]);
    }
  }

  /** One step of the loop over the declared classes: after the classes before `i` were walked
      without a throwable, walking the next one either throws and ends the loop, or continues. */
  lemma WalkAllStep(visit: ClassInfo -> Scan, cs: seq<ClassInfo>, i: nat, done: seq<ClassInfo>, total: Scan)
    requires i < |cs|
    requires Then(Scan(done, None), WalkAll(visit, cs[i..])) == total
    ensures Walk(visit, cs[i]).fault != None ==>
              total == Scan(done + Walk(visit, cs[i]).found, Walk(visit, cs[i]).fault)
    ensures Walk(visit, cs[i]).fault == None ==>
              Then(Scan(done + Walk(visit, cs[i]).found, None), WalkAll(visit, cs[i + 1..])) == total
  {
    assert cs[i..][0] == cs[i];
    assert cs[i..][1..] == cs[i + 1..];
    ThenStep(done, Walk(visit, cs[i]), WalkAll(visit, cs[i + 1..]), total);
  }

  /** Walking a class: its own visit, then (unless getDeclaredClasses throws) the declared ones. */
  lemma WalkUnfold(visit: ClassInfo -> Scan, c: ClassInfo)
    requires visit(c).fault == None
    ensures c.declaredThrows ==> Walk(visit, c) == Scan(visit(c).found, Some(LinkageError))
    ensures !c.declaredThrows ==>
              Then(Scan(visit(c).found, None), WalkAll(visit, c.declared[0..])) == Walk(visit, c)
  {
    assert c.declared[0..] == c.declared;
  }

  /** When the loop over the declared classes has run to the end, nothing more is added. */
  lemma WalkAllDone(visit: ClassInfo -> Scan, cs: seq<ClassInfo>, done: seq<ClassInfo>, total: Scan)
    requires Then(Scan(done, None), WalkAll(visit, cs[|cs|..])) == total
    ensures total == Scan(done, None)
  {
    assert cs[|cs|..] == [];
    assert done + [] == done;
  }
}
