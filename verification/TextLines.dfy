/** Text taken apart into lines and lines into fields, and put back. */
module TextLines {
  import opened Bytes

  /** Whitespace, as `char::is_whitespace` has it. */
  predicate IsSpace(c: char) {
    var v := c as int;
    || 0x09 <= v <= 0x0D || v == 0x20 || v == 0x85 || v == 0xA0 || v == 0x1680 || 0x2000 <= v <= 0x200A
    || v == 0x2028 || v == 0x2029 || v == 0x202F || v == 0x205F || v == 0x3000
  }

  function TrimStart(s: string): (r: string)
    ensures r == "" || !IsSpace(r[0])
    ensures |r| <= |s| && r == s[|s| - |r|..]
  {
    if s != "" && IsSpace(s[0]) then TrimStart(s[1..]) else s
  }

  function TrimEnd(s: string): (r: string)
    ensures r == "" || !IsSpace(r[|r| - 1])
    ensures r <= s
  {
    if s != "" && IsSpace(s[|s| - 1]) then TrimEnd(s[..|s| - 1]) else s
  }

  function Trim(s: string): string {
    TrimEnd(TrimStart(s))
  }

  /** How far the first word goes. */
  function WordEnd(s: string): (n: nat)
    ensures n <= |s| && forall i | 0 <= i < n :: !IsSpace(s[i])
    ensures n < |s| ==> IsSpace(s[n])
  {
    if s == "" || IsSpace(s[0]) then 0 else 1 + WordEnd(s[1..])
  }

  /** `split_whitespace`. */
  function Words(s: string): seq<string>
    decreases |s|
  {
    var t := TrimStart(s);
    if t == "" then [] else [t[..WordEnd(t)]] + Words(t[WordEnd(t)..])
  }

  predicate IsWord(s: string) {
    s != "" && forall i | 0 <= i < |s| :: !IsSpace(s[i])
  }

  /** Where the first newline is, or the end. */
  function NewlineAt(s: string): (n: nat)
    ensures n <= |s| && '\n' !in s[..n]
    ensures n < |s| ==> s[n] == '\n'
  {
    if s == "" || s[0] == '\n' then 0
    else
      var n := NewlineAt(s[1..]);
      assert s[..n + 1] == [s[0]] + s[1..][..n];
      1 + n
  }

  /** The text between newlines, an empty last piece left out. */
  function Pieces(s: string): seq<string>
    decreases |s|
  {
    if s == "" then []
    else
      var n := NewlineAt(s);
      if n == |s| then [s] else [s[..n]] + Pieces(s[n + 1..])
  }

  predicate EndsLine(s: string) {
    s == "" || s[|s| - 1] == '\n'
  }

  function DropReturn(s: string): string {
    if s != "" && s[|s| - 1] == '\r' then s[..|s| - 1] else s
  }

  function DropReturns(pieces: seq<string>): (r: seq<string>)
    ensures |r| == |pieces| && forall i | 0 <= i < |r| :: r[i] == DropReturn(pieces[i])
  {
    if pieces == [] then [] else [DropReturn(pieces[0])] + DropReturns(pieces[1..])
  }

  /** `lines`: a carriage return goes with the newline after it, and stays without one. */
  function Lines(s: string): (r: seq<string>)
    ensures |r| == |Pieces(s)|
  {
    var p := Pieces(s);
    if EndsLine(s) then DropReturns(p) else DropReturns(p[..|p| - 1]) + [p[|p| - 1]]
  }

  /** Each line with its newline. */
  function Unlines(lines: seq<string>): string {
    if lines == [] then "" else lines[0] + "\n" + Unlines(lines[1..])
  }

  function Join(lines: seq<string>): string {
    if lines == [] then "" else if |lines| == 1 then lines[0] else lines[0] + "\n" + Join(lines[1..])
  }

  // ---- Lines put together come apart again -----------------------------------------------------

  lemma NewlineIsAt(s: string, n: nat)
    requires n < |s| && s[n] == '\n' && '\n' !in s[..n]
    ensures NewlineAt(s) == n
  {
    var m := NewlineAt(s);
    assert forall i | 0 <= i < m :: s[i] in s[..m];
    assert forall i | 0 <= i < n :: s[i] in s[..n];
  }

  lemma PiecesOfLine(l: string, rest: string)
    requires '\n' !in l
    ensures Pieces(l + "\n" + rest) == [l] + Pieces(rest)
  {
    var s := l + "\n" + rest;
    assert s[..|l|] == l && s[|l|] == '\n';
    NewlineIsAt(s, |l|);
    assert s[|l| + 1..] == rest;
  }

  /** The first line of some text, and what follows its newline. */
  lemma FirstLine(s: string)
    requires NewlineAt(s) < |s|
    ensures s == s[..NewlineAt(s)] + "\n" + s[NewlineAt(s) + 1..] && '\n' !in s[..NewlineAt(s)]
    ensures EndsLine(s[NewlineAt(s) + 1..]) == EndsLine(s)
  {
    hide NewlineAt, EndsLine;
    AroundNewline(s, NewlineAt(s));
    EndsTheSame(s, NewlineAt(s));
  }

  lemma AroundNewline(s: string, n: nat)
    requires n < |s| && s[n] == '\n'
    ensures s == s[..n] + "\n" + s[n + 1..]
  {
    Around(s, n);
    assert [s[n]] == "\n";
  }

  lemma EndsTheSame(s: string, n: nat)
    requires n < |s| && s[n] == '\n'
    ensures EndsLine(s[n + 1..]) == EndsLine(s)
  {
    if n + 1 < |s| {
      assert s[n + 1..][|s| - n - 2] == s[|s| - 1];
    }
  }

  lemma Around<T>(s: seq<T>, n: nat)
    requires n < |s|
    ensures s == s[..n] + [s[n]] + s[n + 1..]
  {
  }

  lemma Three<T>(a: T, b: T, c: T)
    ensures [a] + ([b] + [c]) == [a, b, c]
  {
  }

  lemma FinishedHasNewline(s: string)
    requires s != "" && EndsLine(s)
    ensures NewlineAt(s) < |s|
  {
    var n := NewlineAt(s);
    hide NewlineAt;
    assert '\n' in s;
    assert s[..|s|] == s;
  }

  /** Text after a finished line does not change the lines before it. */
  lemma {:induction false} PiecesThen(a: string, b: string)
    requires EndsLine(a)
    ensures Pieces(a + b) == Pieces(a) + Pieces(b)
    decreases |a|
  {
    if a == "" {
      assert a + b == b;
      assert Pieces(a) == [];
      hide Pieces;
    } else {
      hide Pieces;
      FinishedHasNewline(a);
      FirstLine(a);
      hide NewlineAt, EndsLine;
      var n := NewlineAt(a);
      var l, rest := a[..n], a[n + 1..];
      PiecesOfLine(l, rest);
      PiecesThen(rest, b);
      PiecesOfLine(l, rest + b);
      Regroup(l + "\n", rest, b);
      Regroup([l], Pieces(rest), Pieces(b));
    }
  }

  /** Finishing the last line does not change what the lines are. */
  lemma {:induction false} PiecesFinished(a: string)
    requires !EndsLine(a)
    ensures Pieces(a + "\n") == Pieces(a)
    decreases |a|
  {
    var n := NewlineAt(a);
    if n == |a| {
      assert a[..n] == a && a + "\n" + "" == a + "\n";
      PiecesOfLine(a, "");
      assert Pieces(a) == [a] && Pieces("") == [] && [a] + [] == [a];
    } else {
      FirstLine(a);
      hide Pieces, NewlineAt, EndsLine;
      var l, rest := a[..n], a[n + 1..];
      PiecesFinished(rest);
      PiecesOfLine(l, rest);
      PiecesOfLine(l, rest + "\n");
      Regroup(l + "\n", rest, "\n");
    }
  }

  predicate NoNewlines(lines: seq<string>) {
    forall i | 0 <= i < |lines| :: '\n' !in lines[i]
  }

  lemma {:induction false} PiecesOfUnlines(lines: seq<string>)
    requires NoNewlines(lines)
    ensures Pieces(Unlines(lines)) == lines && EndsLine(Unlines(lines))
  {
    if lines != [] {
      PiecesOfUnlines(lines[1..]);
      PiecesOfLine(lines[0], Unlines(lines[1..]));
      assert [lines[0]] + lines[1..] == lines;
    }
  }

  lemma {:induction false} JoinIsUnlines(lines: seq<string>)
    requires lines != []
    ensures Join(lines) + "\n" == Unlines(lines)
  {
    if |lines| == 1 {
      assert lines[0] + "\n" + "" == lines[0] + "\n";
    } else {
      JoinIsUnlines(lines[1..]);
      assert lines[0] + "\n" + Join(lines[1..]) + "\n" == lines[0] + "\n" + (Join(lines[1..]) + "\n");
    }
  }

  lemma {:induction false} UnlinesEnd(lines: seq<string>)
    ensures EndsLine(Unlines(lines))
  {
    if lines != [] {
      UnlinesEnd(lines[1..]);
      var first, rest := lines[0] + "\n", Unlines(lines[1..]);
      assert (first + rest)[|first + rest| - 1] == if rest == "" then first[|first| - 1] else rest[|rest| - 1];
    }
  }

  lemma {:induction false} UnlinesAppend(a: seq<string>, b: seq<string>)
    ensures Unlines(a + b) == Unlines(a) + Unlines(b)
  {
    if a == [] {
      assert a + b == b;
    } else {
      assert (a + b)[1..] == a[1..] + b;
      UnlinesAppend(a[1..], b);
      Regroup(a[0] + "\n", Unlines(a[1..]), Unlines(b));
    }
  }

  lemma {:induction false} PiecesHaveNoNewlines(s: string)
    ensures NoNewlines(Pieces(s))
    decreases |s|
  {
    if s != "" {
      var n := NewlineAt(s);
      if n == |s| {
        assert s[..n] == s;
      } else {
        PiecesHaveNoNewlines(s[n + 1..]);
      }
    }
  }

  function WithReturns(lines: seq<string>): (r: seq<string>)
    ensures |r| == |lines| && forall i | 0 <= i < |r| :: r[i] == lines[i] + "\r"
  {
    if lines == [] then [] else [lines[0] + "\r"] + WithReturns(lines[1..])
  }

  /** Where every line ends in a newline, the lines are what is between, less a return each. */
  lemma LinesOfFinished(lines: seq<string>)
    requires NoNewlines(lines)
    ensures Lines(Unlines(lines)) == DropReturns(lines)
  {
    PiecesOfUnlines(lines);
  }

  /** A text's lines come back whether they end in a newline or in a carriage return and one. */
  lemma LinesComeBack(lines: seq<string>)
    requires NoNewlines(lines)
    ensures Lines(Unlines(WithReturns(lines))) == lines
    ensures DropReturns(lines) == lines ==> Lines(Unlines(lines)) == lines
  {
    hide Lines, Unlines;
    LinesOfFinished(lines);
    LinesOfFinished(WithReturns(lines));
    assert DropReturns(WithReturns(lines)) == lines by { ReturnsComeOff(lines); }
  }

  lemma ReturnsComeOff(lines: seq<string>)
    ensures DropReturns(WithReturns(lines)) == lines
  {
    forall i | 0 <= i < |lines| ensures DropReturn(lines[i] + "\r") == lines[i] {
    }
  }

  lemma LinesArePieces(s: string)
    ensures |Lines(s)| == |Pieces(s)|
    ensures forall i | 0 <= i < |Pieces(s)| :: Lines(s)[i] in {Pieces(s)[i], DropReturn(Pieces(s)[i])}
  {
    hide Pieces, DropReturn;
  }

  lemma LinesHaveNoNewlines(s: string)
    ensures NoNewlines(Lines(s))
  {
    PiecesHaveNoNewlines(s);
    LinesArePieces(s);
    hide Lines, Pieces;
  }

  // ---- Words put together come apart again -------------------------------------------------------

  lemma WordsOfWord(a: string, rest: string)
    requires IsWord(a) && (rest == "" || IsSpace(rest[0]))
    ensures Words(a + rest) == [a] + Words(rest)
  {
    var s := a + rest;
    assert s[0] == a[0] && TrimStart(s) == s;
    WordEndIs(a, rest);
    assert s[..|a|] == a && s[|a|..] == rest;
  }

  lemma {:induction false} WordEndIs(a: string, rest: string)
    requires (forall i | 0 <= i < |a| :: !IsSpace(a[i])) && (rest == "" || IsSpace(rest[0]))
    ensures WordEnd(a + rest) == |a|
  {
    if a == "" {
      assert a + rest == rest;
    } else {
      assert (a + rest)[1..] == a[1..] + rest;
      WordEndIs(a[1..], rest);
    }
  }

  lemma WordsAfterSpace(c: char, rest: string)
    requires IsSpace(c)
    ensures Words([c] + rest) == Words(rest)
  {
    assert ([c] + rest)[1..] == rest;
    assert TrimStart([c] + rest) == TrimStart(rest);
  }

  lemma WordThen(a: string, c: char, rest: string)
    requires IsWord(a) && IsSpace(c)
    ensures Words(a + [c] + rest) == [a] + Words(rest)
  {
    hide Words;
    WordsOfWord(a, [c] + rest);
    WordsAfterSpace(c, rest);
    Regroup(a, [c], rest);
  }

  lemma OneWord(a: string)
    requires IsWord(a)
    ensures Words(a) == [a]
  {
    WordsOfWord(a, "");
    assert a + "" == a && Words("") == [];
  }

  /** Three words on a line. */
  lemma ThreeWords(a: string, b: string, c: string)
    requires IsWord(a) && IsWord(b) && IsWord(c)
    ensures Words(a + " " + b + " " + c) == [a, b, c]
  {
    hide Words, IsWord;
    OneWord(c);
    assert " " == [' '];
    WordThen(b, ' ', c);
    WordThen(a, ' ', b + " " + c);
    Regroup(a + " ", b + " ", c);
    Regroup(a + " ", b, " ");
    Three(a, b, c);
  }

  lemma FourWords(a: string, b: string, c: string, d: string)
    requires IsWord(a) && IsWord(b) && IsWord(c) && IsWord(d)
    ensures Words(a + " " + (b + " " + c + " " + d)) == [a, b, c, d]
  {
    hide Words, IsWord;
    assert " " == [' '];
    ThreeWords(b, c, d);
    WordThen(a, ' ', b + " " + c + " " + d);
    assert [a] + [b, c, d] == [a, b, c, d];
  }

  lemma FirstWord(s: string)
    ensures var t := TrimStart(s);
            if t == "" then Words(s) == []
            else
              var n := WordEnd(t);
              n > 0 && IsWord(t[..n]) && Words(s) == [t[..n]] + Words(t[n..])
  {
  }

  lemma {:induction false} WordsAreWords(s: string)
    ensures forall i | 0 <= i < |Words(s)| :: IsWord(Words(s)[i])
    decreases |s|
  {
    hide Words, WordEnd, IsWord, TrimStart;
    FirstWord(s);
    var t := TrimStart(s);
    if t != "" {
      WordsAreWords(t[WordEnd(t)..]);
    }
  }

  /** A line that starts and ends with a word has nothing to trim. */
  lemma NothingToTrim(s: string)
    requires s != "" && !IsSpace(s[0]) && !IsSpace(s[|s| - 1])
    ensures Trim(s) == s
  {
  }

  /** What comes off at either end is whitespace, and no more is left there. */
  lemma OnlySpaceComesOff(s: string) returns (i: nat, j: nat)
    ensures i <= j <= |s| && Trim(s) == s[i..j]
    ensures forall k | 0 <= k < |s| && (k < i || j <= k) :: IsSpace(s[k])
    ensures i < j ==> !IsSpace(s[i]) && !IsSpace(s[j - 1])
  {
    hide TrimStart, TrimEnd, IsSpace;
    i := StartComesOff(s);
    var n := EndComesOff(s[i..]);
    j := i + n;
    assert s[i..][..n] == s[i..j];
    assert forall k | j <= k < |s| :: s[i..][k - i] == s[k];
    assert n > 0 ==> s[i..][n - 1] == s[j - 1];
  }

  lemma {:induction false} StartComesOff(s: string) returns (i: nat)
    ensures i <= |s| && TrimStart(s) == s[i..] && forall k | 0 <= k < i :: IsSpace(s[k])
    ensures i < |s| ==> !IsSpace(s[i])
  {
    hide IsSpace;
    if s != "" && IsSpace(s[0]) {
      var k := StartComesOff(s[1..]);
      i := k + 1;
      assert s[1..][k..] == s[i..];
    } else {
      i := 0;
    }
  }

  lemma {:induction false} EndComesOff(s: string) returns (j: nat)
    ensures j <= |s| && TrimEnd(s) == s[..j] && forall k | j <= k < |s| :: IsSpace(s[k])
    ensures j > 0 ==> !IsSpace(s[j - 1])
  {
    hide IsSpace;
    if s != "" && IsSpace(s[|s| - 1]) {
      j := EndComesOff(s[..|s| - 1]);
      assert s[..|s| - 1][..j] == s[..j];
    } else {
      j := |s|;
      assert s[..j] == s;
    }
  }

  /** A carriage return at the end is whitespace like any other. */
  lemma {:induction false} TrimmedEnds(s: string, c: char)
    requires IsSpace(c)
    ensures TrimStart(s + [c]) == "" || TrimStart(s + [c]) == TrimStart(s) + [c]
    ensures Trim(s + [c]) == Trim(s)
  {
    if s == "" {
      assert s + [c] == [c] && [c][1..] == "";
    } else if IsSpace(s[0]) {
      assert (s + [c])[1..] == s[1..] + [c];
      TrimmedEnds(s[1..], c);
    } else {
      assert (s + [c])[0] == s[0];
      assert (s + [c])[..|s|] == s;
    }
  }

  lemma ReturnsDoNotShow(s: string)
    ensures Trim(DropReturn(s)) == Trim(s)
  {
    if s != "" && s[|s| - 1] == '\r' {
      assert s == s[..|s| - 1] + ['\r'];
      TrimmedEnds(s[..|s| - 1], '\r');
    }
  }

  /** Trimming twice is trimming once. */
  lemma TrimAgain(s: string)
    ensures Trim(Trim(s)) == Trim(s)
  {
    var t := TrimStart(s);
    if TrimEnd(t) != "" {
      assert TrimEnd(t)[0] == t[0];
    }
  }
}
