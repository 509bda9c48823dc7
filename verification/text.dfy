/**
 Python's `sep.join(parts)` and `s.split(sep)` for a one-character separator,
 as used to assemble and take apart the dependency download URL.
 */
module Text {

  /** `sep.join(parts)`: the parts, in order, with one separator between neighbours. */
  function Join(parts: seq<string>, sep: char): (joined: string)
    ensures |parts| == 0 ==> joined == ""
    ensures |parts| >= 1 ==> parts[0] <= joined
  {
    if |parts| == 0 then ""
    else if |parts| == 1 then parts[0]
    else parts[0] + [sep] + Join(parts[1..], sep)
  }

  /** Joining a part in front of at least one more adds it and one separator. */
  lemma JoinCons(part: string, rest: seq<string>, sep: char)
    requires |rest| >= 1
    ensures Join([part] + rest, sep) == part + [sep] + Join(rest, sep)
  {
    assert ([part] + rest)[1..] == rest;
  }

  /** A join ends with its last part, after one separator per earlier part. */
  lemma {:induction false} JoinEndsWithLast(parts: seq<string>, sep: char)
    requires |parts| >= 1
    ensures |Join(parts, sep)| >= |parts| - 1 + |parts[|parts| - 1]|
    ensures var last := parts[|parts| - 1];
            Join(parts, sep)[|Join(parts, sep)| - |last|..] == last
    ensures |parts| >= 2 ==>
            Join(parts, sep) == Join(parts[..|parts| - 1], sep) + [sep] + parts[|parts| - 1]
  {
    if |parts| >= 2 {
      JoinEndsWithLast(parts[1..], sep);
      assert parts[1..][..|parts[1..]| - 1] == parts[..|parts| - 1][1..];
    }
  }

  /** `s.split(sep)`: the maximal separator-free pieces of `s`; never an empty list. */
  function Split(s: string, sep: char): (parts: seq<string>)
    ensures |parts| >= 1
    ensures forall i :: 0 <= i < |parts| ==> sep !in parts[i]
  {
    if |s| == 0 then [""]
    else
      var rest := Split(s[1..], sep);
      if s[0] == sep then [""] + rest
      else [[s[0]] + rest[0]] + rest[1..]
  }

  /** The last piece of `s.split(sep)`, Python's `s.split(sep)[-1]`. */
  function LastPiece(s: string, sep: char): (piece: string)
    ensures sep !in piece
  {
    var parts := Split(s, sep);
    parts[|parts| - 1]
  }

  /** A separator-free string splits into itself alone. */
  lemma {:induction false} SplitWithoutSeparator(s: string, sep: char)
    requires sep !in s
    ensures Split(s, sep) == [s]
  {
    if |s| > 0 {
      assert sep !in s[1..] by {
        forall i | 0 <= i < |s[1..]| ensures s[1..][i] != sep {
          assert s[1..][i] == s[i + 1];
        }
      }
      SplitWithoutSeparator(s[1..], sep);
      assert [s[0]] + s[1..] == s;
    }
  }

  /** Splitting a string with a known first character. */
  lemma SplitCons(c: char, t: string, sep: char)
    ensures c == sep ==> Split([c] + t, sep) == [""] + Split(t, sep)
    ensures c != sep ==> Split([c] + t, sep) == [[c] + Split(t, sep)[0]] + Split(t, sep)[1..]
  {
    assert ([c] + t)[0] == c;
    assert ([c] + t)[1..] == t;
  }

  /** Gluing a character onto the first piece commutes with appending more pieces. */
  lemma GlueFirst(c: char, x: seq<string>, y: seq<string>)
    requires |x| >= 1
    ensures [[c] + (x + y)[0]] + (x + y)[1..] == ([[c] + x[0]] + x[1..]) + y
  {
    assert (x + y)[0] == x[0];
    assert (x + y)[1..] == x[1..] + y;
  }

  /** Splitting at one separator occurrence splits the two sides independently. */
  lemma {:induction false} SplitAtSeparator(a: string, b: string, sep: char)
    ensures Split(a + [sep] + b, sep) == Split(a, sep) + Split(b, sep)
  {
    if |a| == 0 {
      assert a + [sep] + b == [sep] + b;
      SplitCons(sep, b, sep);
    } else {
      var c, t := a[0], a[1..];
      assert a == [c] + t;
      assert a + [sep] + b == [c] + (t + [sep] + b);
      SplitAtSeparator(t, b, sep);
      SplitCons(c, t, sep);
      SplitCons(c, t + [sep] + b, sep);
      if c != sep {
        GlueFirst(c, Split(t, sep), Split(b, sep));
      }
    }
  }

  /** Two adjacent separators between separator-free texts leave an empty piece between them. */
  lemma SplitDoubleSeparator(a: string, b: string, sep: char)
    requires sep !in a && sep !in b
    ensures Split(a + [sep, sep] + b, sep) == [a, "", b]
  {
    assert a + [sep, sep] + b == a + [sep] + ([] + [sep] + b);
    SplitAtSeparator(a, [] + [sep] + b, sep);
    SplitAtSeparator([], b, sep);
    SplitWithoutSeparator(a, sep);
    SplitWithoutSeparator(b, sep);
  }

  /** Splitting undoes joining when no part contains the separator. */
  lemma {:induction false} SplitJoin(parts: seq<string>, sep: char)
    requires |parts| >= 1
    requires forall i :: 0 <= i < |parts| ==> sep !in parts[i]
    ensures Split(Join(parts, sep), sep) == parts
  {
    SplitWithoutSeparator(parts[0], sep);
    if |parts| > 1 {
      SplitJoin(parts[1..], sep);
      SplitAtSeparator(parts[0], Join(parts[1..], sep), sep);
      assert [parts[0]] + parts[1..] == parts;
    }
  }

  /** Splitting a join whose tail parts are separator-free splits only the head part further. */
  lemma SplitJoinWithHead(head: string, headPieces: seq<string>, rest: seq<string>, sep: char)
    requires Split(head, sep) == headPieces
    requires |rest| >= 1
    requires forall i :: 0 <= i < |rest| ==> sep !in rest[i]
    ensures Split(Join([head] + rest, sep), sep) == headPieces + rest
  {
    JoinCons(head, rest, sep);
    SplitAtSeparator(head, Join(rest, sep), sep);
    SplitJoin(rest, sep);
  }

  /** Joining undoes splitting, for every string. */
  lemma {:induction false} JoinSplit(s: string, sep: char)
    ensures Join(Split(s, sep), sep) == s
  {
    if |s| > 0 {
      var rest := Split(s[1..], sep);
      JoinSplit(s[1..], sep);
      if s[0] == sep {
        assert Split(s, sep) == [""] + rest;
        assert ([""] + rest)[1..] == rest;
        assert [s[0]] + s[1..] == s;
      } else {
        var parts := [[s[0]] + rest[0]] + rest[1..];
        assert Split(s, sep) == parts;
        if |rest| == 1 {
          assert Join(rest, sep) == rest[0];
          assert [s[0]] + s[1..] == s;
        } else {
          assert parts[1..] == rest[1..];
          assert Join(rest, sep) == rest[0] + [sep] + Join(rest[1..], sep);
          assert Join(parts, sep) == [s[0]] + rest[0] + [sep] + Join(rest[1..], sep);
          assert [s[0]] + s[1..] == s;
        }
      }
    }
  }

  /** What comes before a separator does not affect the last piece. */
  lemma LastPieceAfterSeparator(a: string, b: string, sep: char)
    ensures LastPiece(a + [sep] + b, sep) == LastPiece(b, sep)
  {
    SplitAtSeparator(a, b, sep);
  }

  /** The last piece of a join is its last part, when that part is separator-free. */
  lemma {:induction false} LastPieceOfJoin(parts: seq<string>, sep: char)
    requires |parts| >= 1
    requires sep !in parts[|parts| - 1]
    ensures LastPiece(Join(parts, sep), sep) == parts[|parts| - 1]
  {
    if |parts| == 1 {
      SplitWithoutSeparator(parts[0], sep);
    } else {
      LastPieceOfJoin(parts[1..], sep);
      LastPieceAfterSeparator(parts[0], Join(parts[1..], sep), sep);
    }
  }
}
