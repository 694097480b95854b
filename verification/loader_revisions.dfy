/** The two op-mode searches side by side. OpModeClassLoader wraps each class and each entry in
    `catch (Throwable)`, OpModeLoader in `catch (Exception)`: they visit classes the same way,
    except that an op mode whose constructor throws an Error is skipped by the first and stops
    the second.
 */
module LoaderRevisions {
  import opened JavaRuntime
  import opened ClassWalk
  import OCL = OpModeClassLoader
  import OML = OpModeLoader
  import FileLoader

  /** The two visits of one class agree exactly when its constructor does not throw an Error. */
  lemma VisitsAgree(c: ClassInfo)
    ensures OML.OpModeVisit(c) == OCL.OpModeVisit(c) <==> !OML.ConstructionFails(c)
  {
    if OML.ConstructionFails(c) {
      assert OML.OpModeVisit(c).fault != None;
    }
  }

  /** When no class in the walk is an op mode whose constructor throws an Error, loadClass and
      attemptLoadClass keep the same classes and stop at the same place. */
  lemma ClassScansAgree(c: ClassInfo)
    requires forall x :: x in Preorder(c) ==> !OML.ConstructionFails(x)
    ensures OML.ClassScan(c) == OCL.ClassScan(c)
  {
    forall x | x in Preorder(c)
      ensures OML.OpModeVisit(x) == OCL.OpModeVisit(x)
    {
      VisitsAgree(x);
    }
    WalkAgrees(OML.OpModeVisit, OCL.OpModeVisit, c);
  }

  /** loadClass never keeps a class that attemptLoadClass does not keep: what it keeps is a
      prefix of what attemptLoadClass keeps, and all of it when loadClass returns normally. */
  lemma {:induction false} ClassScanDominated(c: ClassInfo)
    ensures OML.ClassScan(c).found <= OCL.ClassScan(c).found
    ensures OML.ClassScan(c).fault == None ==> OML.ClassScan(c) == OCL.ClassScan(c)
    decreases c
  {
    VisitsAgree(c);
    if !OML.ConstructionFails(c) && !c.declaredThrows {
      var v := OCL.OpModeVisit(c);
      WalkAllDominated(c.declared);
      var x, a, b := v.found, WalkAll(OML.OpModeVisit, c.declared).found, WalkAll(OCL.OpModeVisit, c.declared).found;
      assert (x + b)[..|x + a|] == x + a;
    }
  }

  lemma {:induction false} WalkAllDominated(cs: seq<ClassInfo>)
    ensures WalkAll(OML.OpModeVisit, cs).found <= WalkAll(OCL.OpModeVisit, cs).found
    ensures WalkAll(OML.OpModeVisit, cs).fault == None ==> WalkAll(OML.OpModeVisit, cs) == WalkAll(OCL.OpModeVisit, cs)
    decreases cs
  {
    if cs != [] {
      var w1 := Walk(OML.OpModeVisit, cs[0]);
      var w2 := Walk(OCL.OpModeVisit, cs[0]);
      var r1 := WalkAll(OML.OpModeVisit, cs[1..]);
      var r2 := WalkAll(OCL.OpModeVisit, cs[1..]);
      ClassScanDominated(cs[0]);
      WalkAllDominated(cs[1..]);
      if w1.fault == None {
        assert (w1.found + r2.found)[..|w1.found + r1.found|] == w1.found + r1.found;
      } else if w2.fault == None {
        assert w2.found <= w2.found + r2.found;
      }
    }
  }

  /** An op mode whose constructor throws an Error, declared before a good op mode: the
      Throwable-catching search keeps the good one, the Exception-catching one stops with the
      Error and keeps nothing. */
  lemma ErrorStopsOnlyOpModeLoader()
    ensures var bad := ClassInfo("Outer$Bad", "Bad", true, Throws(LinkageError), [], [], false);
            var good := ClassInfo("Outer$Good", "Good", true, Completes, [], [], false);
            var outer := ClassInfo("Outer", "Outer", false, Completes, [], [bad, good], false);
            OCL.ClassScan(outer) == Scan([good], None)
            && OML.ClassScan(outer) == Scan([], Some(LinkageError))
  {
    var bad := ClassInfo("Outer$Bad", "Bad", true, Throws(LinkageError), [], [], false);
    var good := ClassInfo("Outer$Good", "Good", true, Completes, [], [], false);
    var outer := ClassInfo("Outer", "Outer", false, Completes, [], [bad, good], false);
    assert outer.declared[1..] == [good];
    assert outer.declared[1..][1..] == [];
  }

  /** filterForType lower-cases the name before comparing it, loadJars does not: a file named
      `A.JAR` is a jar to FileLoader, but OpModeClassLoader never opens it. */
  lemma UpperCaseJarSkipped(env: Env, loader: DexClassLoader, dir: string)
    ensures FileLoader.HasType(File(dir, "A.JAR"), ".jar")
    ensures OCL.JarFound(env, loader, File(dir, "A.JAR")) == []
  {
    assert ToLower("A.JAR") == "a.jar";
    assert !EndsWith("A.JAR", ".jar") by {
      assert "A.JAR"[|"A.JAR"| - 4..] != ".jar" by {
        assert "A.JAR"[1] == '.';
        assert "A.JAR"[2] == 'J';
      }
    }
  }
}
