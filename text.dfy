/**
 * The string operations the log extractor relies on, with the semantics of
 * JavaScript's String.prototype.split('\n'), Array.prototype.join('\n') and
 * String.prototype.startsWith.  Text is a sequence of characters.
 */
module Text {

  const Newline: char := '\n'

  /** The number of newline characters in `s`. */
  function NewlineCount(s: string): nat
  {
    multiset(s)[Newline]
  }

  /**
   * `s.split('\n')`: the maximal newline-free pieces between delimiters.
   * Empty pieces are kept, so "" gives [""] and "a\n" gives ["a", ""].
   */
  function Split(s: string): (pieces: seq<string>)
    ensures |pieces| >= 1
  {
    if |s| == 0 then [""]
    else
      var rest := Split(s[1..]);
      if s[0] == Newline then [""] + rest
      else [[s[0]] + rest[0]] + rest[1..]
  }

  /** `pieces.join('\n')`; an empty array joins to "". */
  function Join(pieces: seq<string>): string
  {
    if |pieces| == 0 then ""
    else if |pieces| == 1 then pieces[0]
    else pieces[0] + [Newline] + Join(pieces[1..])
  }

  /** `line.startsWith(prefix)`: the first |prefix| characters of `line` are `prefix`. */
  predicate StartsWith(line: string, prefix: string)
  {
    |prefix| <= |line| && line[..|prefix|] == prefix
  }

  /** No piece contains a newline. */
  predicate NewlineFree(pieces: seq<string>)
  {
    forall i :: 0 <= i < |pieces| ==> Newline !in pieces[i]
  }

  /** Splitting yields exactly one more piece than there are newlines. */
  lemma {:induction false} SplitCount(s: string)
    ensures |Split(s)| == NewlineCount(s) + 1
  {
    if |s| > 0 {
      SplitCount(s[1..]);
      assert s == [s[0]] + s[1..];
      assert multiset(s) == multiset{s[0]} + multiset(s[1..]);
    }
  }

  /** No piece produced by splitting contains a newline. */
  lemma {:induction false} SplitPiecesNewlineFree(s: string)
    ensures NewlineFree(Split(s))
  {
    if |s| > 0 {
      SplitPiecesNewlineFree(s[1..]);
      var rest := Split(s[1..]);
      if s[0] != Newline {
        assert Newline !in [s[0]] + rest[0];
      }
    }
  }

  /** A trailing newline leaves a trailing empty piece. */
  lemma {:induction false} SplitTrailingNewline(s: string)
    requires |s| > 0 && s[|s| - 1] == Newline
    ensures Split(s)[|Split(s)| - 1] == ""
  {
    if |s| > 1 {
      SplitTrailingNewline(s[1..]);
    }
  }

  lemma JoinConsHead(c: char, x: string, tail: seq<string>)
    ensures Join([[c] + x] + tail) == [c] + Join([x] + tail)
  {
    if |tail| > 0 {
      assert ([[c] + x] + tail)[1..] == tail;
      assert ([x] + tail)[1..] == tail;
    }
  }

  /** Joining the pieces of a split with newlines gives back the text. */
  lemma {:induction false} JoinSplit(s: string)
    ensures Join(Split(s)) == s
  {
    if |s| > 0 {
      JoinSplit(s[1..]);
      var rest := Split(s[1..]);
      if s[0] == Newline {
        assert ([""] + rest)[1..] == rest;
        assert s == [s[0]] + s[1..];
      } else {
        assert rest == [rest[0]] + rest[1..];
        JoinConsHead(s[0], rest[0], rest[1..]);
        assert s == [s[0]] + s[1..];
      }
    }
  }

  /** A newline-free text is a single piece. */
  lemma {:induction false} SplitNewlineFree(x: string)
    requires Newline !in x
    ensures Split(x) == [x]
  {
    if |x| > 0 {
      SplitNewlineFree(x[1..]);
      assert x == [x[0]] + x[1..];
    }
  }

  /** Text up to the first newline is the first piece; the rest is split on its own. */
  lemma {:induction false} SplitAtNewline(x: string, y: string)
    requires Newline !in x
    ensures Split(x + [Newline] + y) == [x] + Split(y)
  {
    if |x| == 0 {
      assert x + [Newline] + y == [Newline] + y;
      assert ([Newline] + y)[1..] == y;
    } else {
      var s := x + [Newline] + y;
      assert s[1..] == x[1..] + [Newline] + y;
      SplitAtNewline(x[1..], y);
      assert [x[0]] + x[1..] == x;
    }
  }

  /** Splitting is the inverse of joining newline-free pieces: split never loses structure. */
  lemma {:induction false} SplitJoin(pieces: seq<string>)
    requires |pieces| >= 1 && NewlineFree(pieces)
    ensures Split(Join(pieces)) == pieces
  {
    if |pieces| == 1 {
      SplitNewlineFree(pieces[0]);
    } else {
      SplitJoin(pieces[1..]);
      SplitAtNewline(pieces[0], Join(pieces[1..]));
      assert [pieces[0]] + pieces[1..] == pieces;
    }
  }

  /** Appending one more piece to a join. */
  lemma {:induction false} JoinSnoc(pieces: seq<string>, x: string)
    requires |pieces| >= 1
    ensures Join(pieces + [x]) == Join(pieces) + [Newline] + x
  {
    if |pieces| == 1 {
      assert (pieces + [x])[1..] == [x];
    } else {
      assert (pieces + [x])[1..] == pieces[1..] + [x];
      JoinSnoc(pieces[1..], x);
    }
  }

  /** Splitting around any newline splits the two sides independently. */
  lemma {:induction false} SplitConcat(a: string, b: string)
    ensures Split(a + [Newline] + b) == Split(a) + Split(b)
  {
    if |a| > 0 {
      var s := a + [Newline] + b;
      assert s[1..] == a[1..] + [Newline] + b;
      SplitConcat(a[1..], b);
      var front := Split(a[1..]);
      assert front == [front[0]] + front[1..];
      assert [a[0]] + a[1..] == a;
    } else {
      assert a + [Newline] + b == [Newline] + b;
      assert ([Newline] + b)[1..] == b;
    }
  }

  /** A newline-free text followed by nothing or by a newline is the first piece of the split. */
  lemma {:induction false} FirstPiece(line: string, after: string)
    requires Newline !in line
    requires after == [] || after[0] == Newline
    ensures Split(line + after)[0] == line
  {
    if after == [] {
      SplitNewlineFree(line);
      assert line + after == line;
    } else {
      SplitAtNewline(line, after[1..]);
      assert line + [Newline] + after[1..] == line + after;
    }
  }

  /**
   * A newline-free stretch of text delimited on each side by a newline or the
   * end of the text is one of the pieces of its split.
   */
  lemma {:induction false} PieceOfSplit(before: string, line: string, after: string)
    requires Newline !in line
    requires before == [] || before[|before| - 1] == Newline
    requires after == [] || after[0] == Newline
    ensures line in Split(before + line + after)
  {
    FirstPiece(line, after);
    var rest := line + after;
    if before == [] {
      assert before + line + after == rest;
    } else {
      var b := before[..|before| - 1];
      assert before == b + [Newline];
      assert before + line + after == b + [Newline] + rest;
      SplitConcat(b, rest);
      var pieces := Split(b) + Split(rest);
      assert pieces[|Split(b)|] == line;
    }
  }
}
