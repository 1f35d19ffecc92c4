/** The JavaScript string operations the web console relies on:
    `String.prototype.split('\n')`, `trim()`, `startsWith()` and `slice()`,
    on strings modelled as sequences of characters. */
module JsString {

  /** A JavaScript `WhiteSpace` or `LineTerminator` code point: exactly the
      characters that `String.prototype.trim` removes. */
  predicate IsWhitespace(c: char) {
    || c == '\t' || c == '\n' || c == '\U{000B}' || c == '\U{000C}' || c == '\r'
    || c == ' ' || c == '\U{00A0}' || c == '\U{1680}'
    || ('\U{2000}' <= c <= '\U{200A}')
    || c == '\U{2028}' || c == '\U{2029}' || c == '\U{202F}' || c == '\U{205F}'
    || c == '\U{3000}' || c == '\U{FEFF}'
  }

  predicate AllWhitespace(s: string) {
    forall k :: 0 <= k < |s| ==> IsWhitespace(s[k])
  }

  predicate NoNewline(s: string) {
    forall k :: 0 <= k < |s| ==> s[k] != '\n'
  }

  /** `s.startsWith(p)`. */
  predicate StartsWith(s: string, p: string) {
    |p| <= |s| && s[..|p|] == p
  }

  /** `s.trimStart()`: drops whitespace from the front of `s`. */
  function TrimStart(s: string): string {
    if s == [] || !IsWhitespace(s[0]) then s else TrimStart(s[1..])
  }

  /** `s.trimEnd()`: drops whitespace from the back of `s`. */
  function TrimEnd(s: string): string {
    if s == [] || !IsWhitespace(s[|s| - 1]) then s else TrimEnd(s[..|s| - 1])
  }

  /** `s.trim()`. */
  function Trim(s: string): string {
    TrimEnd(TrimStart(s))
  }

  /** `trimStart` keeps the suffix of `s` that begins at its first
      non-whitespace character. */
  lemma {:induction false} TrimStartSpec(s: string)
    ensures var r := TrimStart(s);
            |r| <= |s| && r == s[|s| - |r|..] && AllWhitespace(s[..|s| - |r|])
            && (r == [] || !IsWhitespace(r[0]))
  {
    if s != [] && IsWhitespace(s[0]) {
      var t := s[1..];
      TrimStartSpec(t);
      var r := TrimStart(t);
      assert TrimStart(s) == r;
      assert t[|t| - |r|..] == s[|s| - |r|..];
      var dropped := s[..|s| - |r|];
      var rest := t[..|t| - |r|];
      forall k | 0 <= k < |dropped| ensures IsWhitespace(dropped[k]) {
        if k == 0 {
          assert dropped[k] == s[0];
        } else {
          assert dropped[k] == rest[k - 1];
        }
      }
    }
  }

  /** `trimEnd` keeps the prefix of `s` that ends at its last non-whitespace
      character. */
  lemma {:induction false} TrimEndSpec(s: string)
    ensures var r := TrimEnd(s);
            |r| <= |s| && r == s[..|r|] && AllWhitespace(s[|r|..])
            && (r == [] || !IsWhitespace(r[|r| - 1]))
  {
    if s != [] && IsWhitespace(s[|s| - 1]) {
      var t := s[..|s| - 1];
      TrimEndSpec(t);
      var r := TrimEnd(t);
      assert TrimEnd(s) == r;
      assert t[..|r|] == s[..|r|];
      var dropped := s[|r|..];
      var rest := t[|r|..];
      forall k | 0 <= k < |dropped| ensures IsWhitespace(dropped[k]) {
        if k == |dropped| - 1 {
          assert dropped[k] == s[|s| - 1];
        } else {
          assert dropped[k] == rest[k];
        }
      }
    }
  }

  /** `trim` removes whitespace and nothing else: `s` is the result with
      whitespace before and after it, the result neither starts nor ends
      with whitespace, and it is empty exactly when `s` is all whitespace. */
  lemma TrimSpec(s: string)
    ensures var r := Trim(s);
            && (exists i :: 0 <= i <= |s| - |r| && s[i..i + |r|] == r
                            && AllWhitespace(s[..i]) && AllWhitespace(s[i + |r|..]))
            && (r == [] || (!IsWhitespace(r[0]) && !IsWhitespace(r[|r| - 1])))
            && (r == [] <==> AllWhitespace(s))
  {
    var t := TrimStart(s);
    var r := TrimEnd(t);
    TrimStartSpec(s);
    TrimEndSpec(t);
    var i := |s| - |t|;
    assert s[i..i + |r|] == t[..|r|];
    assert s[i + |r|..] == t[|r|..];
    if r == [] {
      assert t == [];
      assert s[..i] == s;
    } else {
      assert r[0] == t[0] == s[i];
    }
  }

  /** Trimming leaves a string alone when it neither starts nor ends with
      whitespace. */
  lemma TrimUnchanged(s: string)
    requires s != [] && !IsWhitespace(s[0]) && !IsWhitespace(s[|s| - 1])
    ensures Trim(s) == s
  {
    assert TrimStart(s) == s;
    assert TrimEnd(s) == s;
  }

  /** `s.split('\n')`: the pieces between newlines, in order. There is always
      at least one piece; SplitPiecesNoNewline shows that none contains a
      newline, and JoinSplit that joining them back with newlines gives `s`. */
  function Split(s: string): (r: seq<string>)
    ensures |r| >= 1
  {
    if s == [] then [[]]
    else
      var rest := Split(s[1..]);
      if s[0] == '\n' then [[]] + rest else [[s[0]] + rest[0]] + rest[1..]
  }

  /** No piece of a split contains a newline. */
  lemma {:induction false} SplitPiecesNoNewline(s: string)
    ensures forall k :: 0 <= k < |Split(s)| ==> NoNewline(Split(s)[k])
  {
    if s != [] {
      SplitPiecesNoNewline(s[1..]);
      var rest := Split(s[1..]);
      var r := Split(s);
      if s[0] != '\n' {
        assert r[1..] == rest[1..];
        forall k | 0 <= k < |r[0]| ensures r[0][k] != '\n' {
          if k > 0 { assert r[0][k] == rest[0][k - 1]; }
        }
        forall i | 1 <= i < |r| ensures NoNewline(r[i]) {
          assert r[i] == rest[i];
        }
      } else {
        forall i | 1 <= i < |r| ensures NoNewline(r[i]) {
          assert r[i] == rest[i - 1];
        }
      }
    }
  }

  /** Joining the pieces of a split with newlines gives the text back. */
  lemma {:induction false} JoinSplit(s: string)
    ensures Join(Split(s)) == s
  {
    if s != [] {
      JoinSplit(s[1..]);
      var r, rest := Split(s), Split(s[1..]);
      if s[0] == '\n' {
        assert r[0] == [] && r[1..] == rest;
        calc {
          Join(r);
          r[0] + "\n" + Join(r[1..]);
          [] + "\n" + Join(rest);
          "\n" + Join(rest);
          "\n" + s[1..];
          s;
        }
      } else if |rest| == 1 {
        assert r == [[s[0]] + rest[0]];
        calc {
          Join(r);
          [s[0]] + Join(rest);
          s;
        }
      } else {
        assert r[0] == [s[0]] + rest[0] && r[1..] == rest[1..];
        ConcatAssoc([s[0]], rest[0], "\n");
        ConcatAssoc([s[0]], rest[0] + "\n", Join(rest[1..]));
        calc {
          Join(r);
          [s[0]] + rest[0] + "\n" + Join(rest[1..]);
          [s[0]] + (rest[0] + "\n" + Join(rest[1..]));
          [s[0]] + Join(rest);
          s;
        }
      }
    }
  }

  function Join(pieces: seq<string>): (r: string)
    requires |pieces| >= 1
  {
    if |pieces| == 1 then pieces[0] else pieces[0] + "\n" + Join(pieces[1..])
  }

  /** All pieces but the last: the complete lines of a text. */
  function Init(pieces: seq<string>): seq<string>
    requires |pieces| >= 1
  {
    pieces[..|pieces| - 1]
  }

  /** The last piece: what follows the last newline of a text. */
  function Last(pieces: seq<string>): string
    requires |pieces| >= 1
  {
    pieces[|pieces| - 1]
  }

  /** Splitting a text that does not contain a newline yields the text itself. */
  lemma {:induction false} SplitNoNewline(s: string)
    requires NoNewline(s)
    ensures Split(s) == [s]
  {
    if s != [] {
      SplitNoNewline(s[1..]);
      assert [s[0]] + s[1..] == s;
    }
  }

  /** Splitting a text that starts with a newline: an empty first piece,
      then the pieces of the rest. */
  lemma SplitNewline(s: string)
    ensures Split("\n" + s) == [[]] + Split(s)
  {
    assert ("\n" + s)[1..] == s;
  }

  /** Splitting a text that starts with another character: that character
      is prepended to the first piece of the rest. */
  lemma SplitCons(c: char, s: string)
    requires c != '\n'
    ensures Split([c] + s) == [[c] + Split(s)[0]] + Split(s)[1..]
  {
    assert ([c] + s)[1..] == s;
  }

  /** Splitting a concatenation: the complete pieces of `x` are kept, and its
      last, unterminated piece is glued to the front of `y` and split again.
      This is what makes re-splitting a held-back buffer with the next chunk
      equivalent to splitting the whole text. */
  lemma {:induction false} SplitConcat(x: string, y: string)
    ensures Split(x + y) == Init(Split(x)) + Split(Last(Split(x)) + y)
  {
    if x == [] {
      assert x + y == y;
    } else {
      var x1 := x[1..];
      SplitConcat(x1, y);
      assert x == [x[0]] + x1;
      if x[0] == '\n' {
        SplitConcatNewline(x1, y);
      } else {
        SplitConcatCons(x[0], x1, y);
      }
    }
  }

  /** The step of `SplitConcat` for a text that starts with a newline. */
  lemma SplitConcatNewline(x1: string, y: string)
    requires Split(x1 + y) == Init(Split(x1)) + Split(Last(Split(x1)) + y)
    ensures Split("\n" + x1 + y) == Init(Split("\n" + x1)) + Split(Last(Split("\n" + x1)) + y)
  {
    var sx1 := Split(x1);
    ConcatAssoc("\n", x1, y);
    SplitNewline(x1 + y);
    SplitNewlineEnds(x1);
    ConcatAssoc([[]], Init(sx1), Split(Last(sx1) + y));
  }

  /** Concatenation of sequences is associative. */
  lemma ConcatAssoc<T>(a: seq<T>, b: seq<T>, c: seq<T>)
    ensures a + (b + c) == (a + b) + c
  {
  }

  /** The step of `SplitConcat` for a text that starts with another
      character. */
  lemma SplitConcatCons(c: char, x1: string, y: string)
    requires c != '\n'
    requires Split(x1 + y) == Init(Split(x1)) + Split(Last(Split(x1)) + y)
    ensures Split([c] + x1 + y) == Init(Split([c] + x1)) + Split(Last(Split([c] + x1)) + y)
  {
    ConcatAssoc([c], x1, y);
    SplitCons(c, x1 + y);
    SplitConsEnds(c, x1, y);
  }

  /** The complete pieces and the last piece of a text that starts with a
      newline. */
  lemma SplitNewlineEnds(x1: string)
    ensures Init(Split("\n" + x1)) == [[]] + Init(Split(x1))
    ensures Last(Split("\n" + x1)) == Last(Split(x1))
  {
    SplitNewline(x1);
  }

  /** The step of `SplitConcat` for a text that starts with a character other
      than a newline. */
  lemma SplitConsEnds(c: char, x1: string, y: string)
    requires c != '\n'
    ensures var sx1 := Split(x1);
            [[c] + (Init(sx1) + Split(Last(sx1) + y))[0]] + (Init(sx1) + Split(Last(sx1) + y))[1..]
            == Init(Split([c] + x1)) + Split(Last(Split([c] + x1)) + y)
  {
    var sx1 := Split(x1);
    var t := Split(Last(sx1) + y);
    SplitCons(c, x1);
    assert Split([c] + x1) == [[c] + sx1[0]] + sx1[1..];
    if |sx1| == 1 {
      assert Init(sx1) + t == t;
      assert Init(Split([c] + x1)) == [];
      assert Last(Split([c] + x1)) + y == [c] + (Last(sx1) + y);
      SplitCons(c, Last(sx1) + y);
    } else {
      assert (Init(sx1) + t)[0] == sx1[0];
      assert (Init(sx1) + t)[1..] == Init(sx1)[1..] + t;
      assert Init(Split([c] + x1)) == [[c] + sx1[0]] + Init(sx1)[1..];
      assert Last(Split([c] + x1)) == Last(sx1);
    }
  }

  /** A newline-free line followed by a newline and more text splits into
      that line followed by the pieces of the rest. */
  lemma {:induction false} SplitLine(w: string, rest: string)
    requires NoNewline(w)
    ensures Split(w + "\n" + rest) == [w] + Split(rest)
  {
    if w == [] {
      assert w + "\n" + rest == "\n" + rest;
      SplitNewline(rest);
    } else {
      var w1 := w[1..];
      SplitLine(w1, rest);
      assert w + "\n" + rest == [w[0]] + (w1 + "\n" + rest);
      SplitCons(w[0], w1 + "\n" + rest);
      assert [w[0]] + w1 == w;
    }
  }

  /** Joining pieces that contain no newline and splitting again gives the
      same pieces back: `Split` and `Join` are inverse in both directions. */
  lemma {:induction false} SplitJoin(pieces: seq<string>)
    requires |pieces| >= 1
    requires forall k :: 0 <= k < |pieces| ==> NoNewline(pieces[k])
    ensures Split(Join(pieces)) == pieces
  {
    if |pieces| == 1 {
      SplitNoNewline(pieces[0]);
    } else {
      SplitJoin(pieces[1..]);
      SplitLine(pieces[0], Join(pieces[1..]));
      assert [pieces[0]] + pieces[1..] == pieces;
    }
  }

  /** The complete lines of newline-free lines joined and followed by a
      newline-free tail are those lines. */
  lemma SplitJoinLines(lines: seq<string>, tail: string)
    requires forall k :: 0 <= k < |lines| ==> NoNewline(lines[k])
    requires NoNewline(tail)
    ensures Init(Split(Join(lines + [tail]))) == lines
  {
    var all := lines + [tail];
    forall k | 0 <= k < |all| ensures NoNewline(all[k]) {
      if k < |lines| { assert all[k] == lines[k]; }
    }
    SplitJoin(all);
    assert Init(all) == lines;
  }
}
