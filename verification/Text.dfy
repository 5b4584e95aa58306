/**
 The string operations the protocol code relies on, with Qt's meaning:
 prefix tests (QString::startsWith), splitting at separator characters
 with empty pieces kept (QString::split with KeepEmptyParts) or dropped
 (SkipEmptyParts), and removal of every occurrence of a character
 (QString::remove).
 */
module Text {

  /** True iff `p` is a prefix of `s`. */
  predicate StartsWith(s: string, p: string) {
    |p| <= |s| && s[..|p|] == p
  }

  /** True iff no character of `s` is one of `seps`. */
  predicate Free(s: string, seps: set<char>) {
    forall j :: 0 <= j < |s| ==> s[j] !in seps
  }

  /** Number of characters of `s` that are separators. */
  function Count(s: string, seps: set<char>): nat
    decreases |s|
  {
    if |s| == 0 then 0
    else (if s[0] in seps then 1 else 0) + Count(s[1..], seps)
  }

  /**
   Splits `s` at every separator character, keeping empty pieces:
   "a==b" gives ["a", "", "b"] and "" gives [""].
   */
  function Split(s: string, seps: set<char>): (r: seq<string>)
    ensures |r| == Count(s, seps) + 1
    ensures forall i :: 0 <= i < |r| ==> Free(r[i], seps)
    decreases |s|
  {
    if |s| == 0 then [""]
    else
      var rest := Split(s[1..], seps);
      if s[0] in seps then [""] + rest
      else [[s[0]] + rest[0]] + rest[1..]
  }

  /** The pieces of `ps` glued back together with `c` between neighbours. */
  function Join(ps: seq<string>, c: char): string
    decreases |ps|
  {
    if |ps| == 0 then ""
    else if |ps| == 1 then ps[0]
    else ps[0] + [c] + Join(ps[1..], c)
  }

  /** All pieces of `ps` concatenated, in order. */
  function Concat(ps: seq<string>): string
    decreases |ps|
  {
    if |ps| == 0 then "" else ps[0] + Concat(ps[1..])
  }

  /** `ps` without its empty pieces, order kept. */
  function DropEmpty(ps: seq<string>): (r: seq<string>)
    ensures |r| <= |ps|
    ensures forall i :: 0 <= i < |r| ==> r[i] != ""
    ensures forall i :: 0 <= i < |r| ==> r[i] in ps
    ensures Concat(r) == Concat(ps)
    decreases |ps|
  {
    if |ps| == 0 then []
    else if ps[0] == "" then DropEmpty(ps[1..])
    else [ps[0]] + DropEmpty(ps[1..])
  }

  /** `s` with every separator character taken out. */
  function Strip(s: string, seps: set<char>): (r: string)
    ensures Free(r, seps)
    ensures forall j :: 0 <= j < |r| ==> r[j] in s
    ensures |r| == |s| - Count(s, seps)
    decreases |s|
  {
    if |s| == 0 then ""
    else if s[0] in seps then Strip(s[1..], seps)
    else [s[0]] + Strip(s[1..], seps)
  }

  /** A piece without separators splits to itself alone. */
  lemma {:induction false} SplitFree(s: string, seps: set<char>)
    requires Free(s, seps)
    ensures Split(s, seps) == [s]
    decreases |s|
  {
    if |s| > 0 {
      assert Free(s[1..], seps) by {
        forall j | 0 <= j < |s[1..]| ensures s[1..][j] !in seps {
          assert s[1..][j] == s[j + 1];
        }
      }
      SplitFree(s[1..], seps);
      assert s[0] !in seps;
      assert [s[0]] + s[1..] == s;
    }
  }

  /** Splitting after a separator-free head yields the head, then the tail's pieces. */
  lemma {:induction false} SplitAfterHead(k: string, c: char, rest: string, seps: set<char>)
    requires Free(k, seps) && c in seps
    ensures Split(k + [c] + rest, seps) == [k] + Split(rest, seps)
    decreases |k|
  {
    var s := k + [c] + rest;
    if |k| == 0 {
      assert s == [c] + rest;
      assert s[1..] == rest;
    } else {
      assert s[0] == k[0];
      assert s[1..] == k[1..] + [c] + rest;
      assert Free(k[1..], seps) by {
        forall j | 0 <= j < |k[1..]| ensures k[1..][j] !in seps {
          assert k[1..][j] == k[j + 1];
        }
      }
      SplitAfterHead(k[1..], c, rest, seps);
      assert k[0] !in seps;
      assert [k[0]] + k[1..] == k;
    }
  }

  /** The pieces of a split, put end to end, are the text without its separators. */
  lemma {:induction false} ConcatSplit(s: string, seps: set<char>)
    ensures Concat(Split(s, seps)) == Strip(s, seps)
    decreases |s|
  {
    if |s| > 0 {
      var rest := Split(s[1..], seps);
      ConcatSplit(s[1..], seps);
      if s[0] in seps {
        assert ([""] + rest)[1..] == rest;
      } else {
        var first := [s[0]] + rest[0];
        assert ([first] + rest[1..])[1..] == rest[1..];
        assert Concat(rest) == rest[0] + Concat(rest[1..]);
        assert Concat([first] + rest[1..]) == first + Concat(rest[1..]);
      }
    }
  }

  /** Joining the pieces of a split gives back the original text. */
  lemma {:induction false} JoinSplit(s: string, c: char)
    ensures Join(Split(s, {c}), c) == s
    decreases |s|
  {
    if |s| > 0 {
      var rest := Split(s[1..], {c});
      JoinSplit(s[1..], c);
      if s[0] == c {
        assert Split(s, {c}) == [""] + rest;
        assert ([""] + rest)[1..] == rest;
        assert Join([""] + rest, c) == "" + [c] + Join(rest, c);
        assert [s[0]] + s[1..] == s;
      } else {
        var first := [s[0]] + rest[0];
        assert Split(s, {c}) == [first] + rest[1..];
        if |rest| == 1 {
          assert Join([first], c) == first;
          assert Join(rest, c) == rest[0];
          assert [s[0]] + s[1..] == s;
        } else {
          assert ([first] + rest[1..])[1..] == rest[1..];
          assert Join([first] + rest[1..], c) == first + [c] + Join(rest[1..], c);
          assert Join(rest, c) == rest[0] + [c] + Join(rest[1..], c);
          assert [s[0]] + s[1..] == s;
        }
      }
    }
  }

  /** Splitting a join of separator-free pieces gives back the pieces. */
  lemma {:induction false} SplitJoin(ps: seq<string>, c: char)
    requires |ps| >= 1
    requires forall i :: 0 <= i < |ps| ==> Free(ps[i], {c})
    ensures Split(Join(ps, c), {c}) == ps
    decreases |ps|
  {
    if |ps| == 1 {
      SplitFree(ps[0], {c});
    } else {
      SplitJoin(ps[1..], c);
      SplitAfterHead(ps[0], c, Join(ps[1..], c), {c});
      assert [ps[0]] + ps[1..] == ps;
    }
  }

  /** Stripping characters that do not occur changes nothing. */
  lemma {:induction false} StripAbsent(s: string, seps: set<char>)
    requires Free(s, seps)
    ensures Strip(s, seps) == s
    decreases |s|
  {
    if |s| > 0 {
      assert Free(s[1..], seps) by {
        forall j | 0 <= j < |s[1..]| ensures s[1..][j] !in seps {
          assert s[1..][j] == s[j + 1];
        }
      }
      StripAbsent(s[1..], seps);
      assert [s[0]] + s[1..] == s;
    }
  }

  /** A sequence of pieces none of which is empty is its own DropEmpty. */
  lemma {:induction false} DropEmptyKeeps(ps: seq<string>)
    requires forall i :: 0 <= i < |ps| ==> ps[i] != ""
    ensures DropEmpty(ps) == ps
    decreases |ps|
  {
    if |ps| > 0 {
      DropEmptyKeeps(ps[1..]);
      assert [ps[0]] + ps[1..] == ps;
    }
  }

  /** Dropping empty pieces of `ps + [""]` is dropping those of `ps`. */
  lemma {:induction false} DropEmptyTrailing(ps: seq<string>)
    ensures DropEmpty(ps + [""]) == DropEmpty(ps)
    decreases |ps|
  {
    if |ps| == 0 {
      assert DropEmpty([""]) == DropEmpty([]);
    } else {
      assert (ps + [""])[1..] == ps[1..] + [""];
      DropEmptyTrailing(ps[1..]);
    }
  }

  /** A single piece is kept exactly when it is not empty. */
  lemma DropEmptySingle(x: string)
    ensures DropEmpty([x]) == (if x == "" then [] else [x])
  {
    assert [x][1..] == [];
  }

  /**
   Dropping empty pieces works piece by piece: with DropEmptySingle this
   says every non-empty piece is kept, in order, and nothing else.
   */
  lemma {:induction false} DropEmptyConcat(a: seq<string>, b: seq<string>)
    ensures DropEmpty(a + b) == DropEmpty(a) + DropEmpty(b)
    decreases |a|
  {
    if |a| == 0 {
      assert a + b == b;
    } else {
      assert (a + b)[0] == a[0];
      assert (a + b)[1..] == a[1..] + b;
      DropEmptyConcat(a[1..], b);
    }
  }

  /** Removing characters works piece by piece. */
  lemma {:induction false} StripConcat(a: string, b: string, seps: set<char>)
    ensures Strip(a + b, seps) == Strip(a, seps) + Strip(b, seps)
    decreases |a|
  {
    if |a| == 0 {
      assert a + b == b;
    } else {
      assert (a + b)[0] == a[0];
      assert (a + b)[1..] == a[1..] + b;
      StripConcat(a[1..], b, seps);
    }
  }
}
