/** getDelimitedPathString: the class path handed to a DexClassLoader, built by
    prefixing every element with the path separator and dropping the first character.
    The same loop appears in JarClassLoader, in both OpModeClassLoader revisions and in
    OpModeLoader; this module models it once.
 */
module PathString {
  import opened JavaRuntime

  /** The elements joined by the path separator, with none before the first or after the last. */
  function Join(items: seq<string>): string
    requires |items| > 0
  {
    if |items| == 1 then items[0] else items[0] + [PATH_SEPARATOR] + Join(items[1..])
  }

  /** How a class loader reads a path string back: the pieces between separators. */
  function Split(s: string): (pieces: seq<string>)
    ensures |pieces| > 0
  {
    SplitFrom("", s)
  }

  /** The pieces of `s` when the piece under way already holds `piece`. */
  function SplitFrom(piece: string, s: string): (pieces: seq<string>)
    ensures |pieces| > 0
    decreases |s|
  {
    if s == [] then [piece]
    else if s[0] == PATH_SEPARATOR then [piece] + SplitFrom("", s[1..])
    else SplitFrom(piece + [s[0]], s[1..])
  }

  /** The number of times `ch` occurs in `s`. */
  function Occurrences(s: string, ch: char): nat
  {
    if s == [] then 0 else (if s[0] == ch then 1 else 0) + Occurrences(s[1..], ch)
  }

  predicate FreeOfSeparator(s: string)
  {
    PATH_SEPARATOR !in s
  }

  /** The Java loop, including `"".substring(1)` throwing on an empty list. */
  method GetDelimitedPathString(list: seq<string>) returns (r: Result<string>)
    ensures list == [] ==> r == Failure(StringIndexOutOfBoundsException)
    ensures list != [] ==> r == Success(Join(list))
  {
    var result := "";
    for i := 0 to |list|
      invariant i == 0 ==> result == ""
      invariant i > 0 ==> result == [PATH_SEPARATOR] + Join(list[..i])
    {
      if i > 0 {
        JoinSnoc(list[..i], list[i]);
        assert list[..i + 1] == list[..i] + [list[i]];
      }
      result := result + [PATH_SEPARATOR] + list[i];
    }
    if |result| < 1 {
      return Failure(StringIndexOutOfBoundsException);
    }
    assert list[..|list|] == list;
    r := Success(result[1..]);
  }

  /** Appending one more element adds one separator and the element at the end. */
  lemma {:induction false} JoinSnoc(items: seq<string>, x: string)
    requires |items| > 0
    ensures Join(items + [x]) == Join(items) + [PATH_SEPARATOR] + x
  {
    if |items| == 1 {
      assert (items + [x])[1..] == [x];
    } else {
      assert (items + [x])[1..] == items[1..] + [x];
      JoinSnoc(items[1..], x);
    }
  }

  /** The joined string begins with the first element and ends with the last one. */
  lemma {:induction false} JoinBounds(items: seq<string>)
    requires |items| > 0
    ensures StartsWith(Join(items), items[0])
    ensures EndsWith(Join(items), items[|items| - 1])
  {
    if |items| > 1 {
      JoinBounds(items[1..]);
      var j := Join(items);
      var tail := Join(items[1..]);
      assert j == items[0] + [PATH_SEPARATOR] + tail;
      assert j[|j| - |tail|..] == tail;
      assert j[|j| - |items[|items| - 1]|..] == tail[|tail| - |items[|items| - 1]|..];
    }
  }

  lemma {:induction false} OccurrencesAppend(a: string, b: string, ch: char)
    ensures Occurrences(a + b, ch) == Occurrences(a, ch) + Occurrences(b, ch)
  {
    if a != [] {
      assert (a + b)[1..] == a[1..] + b;
      OccurrencesAppend(a[1..], b, ch);
    } else {
      assert a + b == b;
    }
  }

  lemma {:induction false} OccurrencesAbsent(s: string, ch: char)
    requires ch !in s
    ensures Occurrences(s, ch) == 0
  {
    if s != [] {
      OccurrencesAbsent(s[1..], ch);
    }
  }

  /** With elements free of the separator, there are exactly n - 1 separators. */
  lemma {:induction false} JoinSeparatorCount(items: seq<string>)
    requires |items| > 0
    requires forall i :: 0 <= i < |items| ==> FreeOfSeparator(items[i])
    ensures Occurrences(Join(items), PATH_SEPARATOR) == |items| - 1
  {
    OccurrencesAbsent(items[0], PATH_SEPARATOR);
    if |items| > 1 {
      JoinSeparatorCount(items[1..]);
      OccurrencesAppend(items[0] + [PATH_SEPARATOR], Join(items[1..]), PATH_SEPARATOR);
      OccurrencesAppend(items[0], [PATH_SEPARATOR], PATH_SEPARATOR);
      assert Occurrences([PATH_SEPARATOR], PATH_SEPARATOR) == 1;
    }
  }

  /** A string without separators stays one piece, glued onto the piece under way. */
  lemma {:induction false} SplitFree(piece: string, a: string)
    requires FreeOfSeparator(a)
    ensures SplitFrom(piece, a) == [piece + a]
    decreases |a|
  {
    if a == [] {
      assert piece + a == piece;
    } else {
      assert a == [a[0]] + a[1..];
      assert a[0] in a;
      SplitFree(piece + [a[0]], a[1..]);
      assert piece + [a[0]] + a[1..] == piece + a;
    }
  }

  /** The class loader recovers exactly the joined elements when none contains the separator. */
  lemma {:induction false} SplitJoin(items: seq<string>)
    requires |items| > 0
    requires forall i :: 0 <= i < |items| ==> FreeOfSeparator(items[i])
    ensures Split(Join(items)) == items
  {
    SplitFree("", items[0]);
    assert "" + items[0] == items[0];
    if |items| > 1 {
      SplitJoin(items[1..]);
      SplitSeparated(items[0], Join(items[1..]));
      assert items == [items[0]] + items[1..];
    }
  }

  lemma {:induction false} SplitFromSeparated(piece: string, a: string, b: string)
    ensures SplitFrom(piece, a + [PATH_SEPARATOR] + b) == SplitFrom(piece, a) + Split(b)
    decreases |a|
  {
    var s := a + [PATH_SEPARATOR] + b;
    if a == [] {
      assert s[0] == PATH_SEPARATOR && s[1..] == b;
    } else {
      assert s[0] == a[0] && s[1..] == a[1..] + [PATH_SEPARATOR] + b;
      if a[0] == PATH_SEPARATOR {
        SplitFromSeparated("", a[1..], b);
        assert [piece] + (SplitFrom("", a[1..]) + Split(b)) == [piece] + SplitFrom("", a[1..]) + Split(b);
      } else {
        SplitFromSeparated(piece + [a[0]], a[1..], b);
      }
    }
  }

  /** A separator between two strings splits into the pieces of each. */
  lemma SplitSeparated(a: string, b: string)
    ensures Split(a + [PATH_SEPARATOR] + b) == Split(a) + Split(b)
  {
    SplitFromSeparated("", a, b);
  }

  /** The pieces of every element, in order. */
  function SplitAll(items: seq<string>): seq<string>
  {
    if items == [] then [] else Split(items[0]) + SplitAll(items[1..])
  }

  /** Whatever the elements hold, a class loader reads the path string back as the pieces of
      every element in turn: the separators the join adds are the only new cuts. */
  lemma {:induction false} SplitJoinAll(items: seq<string>)
    requires |items| > 0
    ensures Split(Join(items)) == SplitAll(items)
  {
    if |items| == 1 {
      assert SplitAll(items) == Split(items[0]) + [];
    } else {
      SplitJoinAll(items[1..]);
      SplitSeparated(items[0], Join(items[1..]));
    }
  }

  lemma {:induction false} SplitFromLength(piece: string, s: string)
    ensures |SplitFrom(piece, s)| == Occurrences(s, PATH_SEPARATOR) + 1
    decreases |s|
  {
    if s != [] {
      SplitFromLength(if s[0] == PATH_SEPARATOR then "" else piece + [s[0]], s[1..]);
    }
  }

  /** A string splits into one piece more than it holds separators. */
  lemma SplitLength(s: string)
    ensures |Split(s)| == Occurrences(s, PATH_SEPARATOR) + 1
  {
    SplitFromLength("", s);
  }

  /** The URL of a file whose absolute path holds no separator splits into the scheme and the path. */
  lemma SplitFileUrl(f: File)
    requires FreeOfSeparator(AbsolutePath(f))
    ensures Split(FileUrl(f)) == ["file", AbsolutePath(f)]
  {
    var path := AbsolutePath(f);
    assert FileUrl(f) == "file" + [PATH_SEPARATOR] + path;
    SplitSeparated("file", path);
    SplitFree("", "file");
    SplitFree("", path);
    assert "" + "file" == "file" && "" + path == path;
  }

  /** The scheme and the absolute path of each file in turn. */
  function FileUrlPieces(files: seq<File>): (pieces: seq<string>)
    ensures |pieces| == 2 * |files|
    ensures forall k :: 0 <= k < |files| ==> pieces[2 * k] == "file" && pieces[2 * k + 1] == AbsolutePath(files[k])
  {
    if files == [] then []
    else
      var rest := FileUrlPieces(files[1..]);
      FileUrlPiecesCons(files, rest);
      ["file", AbsolutePath(files[0])] + rest
  }

  /** The interleaving extends by one file at the front. */
  lemma FileUrlPiecesCons(files: seq<File>, rest: seq<string>)
    requires |files| > 0 && |rest| == 2 * (|files| - 1)
    requires forall k :: 0 <= k < |files| - 1 ==> rest[2 * k] == "file" && rest[2 * k + 1] == AbsolutePath(files[1..][k])
    ensures var pieces := ["file", AbsolutePath(files[0])] + rest;
      forall k :: 0 <= k < |files| ==> pieces[2 * k] == "file" && pieces[2 * k + 1] == AbsolutePath(files[k])
  {
    var pieces := ["file", AbsolutePath(files[0])] + rest;
    forall k | 0 <= k < |files|
      ensures pieces[2 * k] == "file" && pieces[2 * k + 1] == AbsolutePath(files[k])
    {
      if k > 0 {
        var j := k - 1;
        assert 2 * k == 2 * j + 2;
        assert files[k] == files[1..][j];
        assert pieces[2 * k] == rest[2 * j] && pieces[2 * k + 1] == rest[2 * j + 1];
      }
    }
  }
}
