/**
  Lines and trimming as Go's strings and bufio packages do them: a line keeps
  its terminator, and only the last line of a text may lack one.
 */
module Text {

  const NEWLINES: set<char> := {'\r', '\n'}

  /** unicode.IsSpace */
  const SPACES: set<char> :=
    {'\t', '\n', '\U{B}', '\U{C}', '\r', ' ', '\U{85}', '\U{A0}', '\U{1680}', '\U{2000}', '\U{2001}', '\U{2002}',
     '\U{2003}', '\U{2004}', '\U{2005}', '\U{2006}', '\U{2007}', '\U{2008}', '\U{2009}', '\U{200A}', '\U{2028}',
     '\U{2029}', '\U{202F}', '\U{205F}', '\U{3000}'}

  lemma {:induction false} LetterIsNotSpace(c: char)
    requires 'a' <= c <= 'z'
    ensures c !in SPACES
  {}

  /** Drops every trailing character of the cut set. */
  function TrimRight(s: string, cut: set<char>): (t: string)
    ensures t <= s
    ensures t == "" || t[|t| - 1] !in cut
    ensures forall k :: |t| <= k < |s| ==> s[k] in cut
  {
    if s != "" && s[|s| - 1] in cut then TrimRight(s[..|s| - 1], cut) else s
  }

  function TrimLeft(s: string, cut: set<char>): (t: string)
    ensures |t| <= |s| && t == s[|s| - |t|..]
    ensures t == "" || t[0] !in cut
    ensures forall k :: 0 <= k < |s| - |t| ==> s[k] in cut
  {
    if s != "" && s[0] in cut then TrimLeft(s[1..], cut) else s
  }

  function TrimSpace(s: string): (t: string)
    ensures Trimmed(t)
    ensures forall c :: c in t ==> c in s
  {
    TrimRight(TrimLeft(s, SPACES), SPACES)
  }

  predicate Trimmed(s: string)
  {
    s == "" || (s[0] !in SPACES && s[|s| - 1] !in SPACES)
  }

  /** A text with no character of the cut set at its end is all that is kept of
      it and any run of cut characters after it. */
  lemma {:induction false} TrimRightKeeps(s: string, tail: string, cut: set<char>)
    requires s == "" || s[|s| - 1] !in cut
    requires forall c :: c in tail ==> c in cut
    ensures TrimRight(s + tail, cut) == s
  {
    if tail == "" {
      assert s + tail == s;
    } else {
      assert (s + tail)[..|s + tail| - 1] == s + tail[..|tail| - 1];
      TrimRightKeeps(s, tail[..|tail| - 1], cut);
    }
  }

  /** Trimming a blank and a trimmed text gives the text back. */
  lemma {:induction false} TrimSpaceAfterBlank(s: string)
    requires Trimmed(s)
    ensures TrimSpace(" " + s) == s
  {
    assert (" " + s)[1..] == s;
    TrimRightKeeps(s, "", SPACES);
    assert s + "" == s;
  }

  lemma {:induction false} TrimSpaceKeepsInk(s: string, i: nat)
    requires i < |s| && s[i] !in SPACES
    ensures TrimSpace(s) != ""
  {
    var l := TrimLeft(s, SPACES);
    assert l[i - (|s| - |l|)] == s[i];
  }

  lemma {:induction false} TrimSpaceIsShorter(s: string)
    ensures |TrimSpace(s)| <= |s|
  {}

  lemma {:induction false} TrimLeftDrops(a: string, s: string)
    requires forall c :: c in a ==> c in SPACES
    ensures TrimLeft(a + s, SPACES) == TrimLeft(s, SPACES)
  {
    if a == "" {
      assert a + s == s;
    } else {
      assert (a + s)[1..] == a[1..] + s;
      TrimLeftDrops(a[1..], s);
    }
  }

  lemma {:induction false} TrimRightDrops(s: string, b: string)
    requires forall c :: c in b ==> c in SPACES
    ensures TrimRight(s + b, SPACES) == TrimRight(s, SPACES)
  {
    if b == "" {
      assert s + b == s;
    } else {
      assert (s + b)[..|s + b| - 1] == s + b[..|b| - 1];
      TrimRightDrops(s, b[..|b| - 1]);
    }
  }

  /** White space around a text makes no difference to what is left of it. */
  lemma {:induction false} TrimSpaceInFront(a: string, s: string)
    requires forall c :: c in a ==> c in SPACES
    ensures TrimSpace(a + s) == TrimSpace(s)
  {
    TrimLeftDrops(a, s);
  }

  lemma {:induction false} TrimSpaceBehind(s: string, b: string)
    requires forall c :: c in b ==> c in SPACES
    ensures TrimSpace(s + b) == TrimSpace(s)
  {
    TrimLeftBehind(s, b);
  }

  lemma {:induction false} TrimLeftBehind(s: string, b: string)
    requires forall c :: c in b ==> c in SPACES
    ensures TrimRight(TrimLeft(s + b, SPACES), SPACES) == TrimRight(TrimLeft(s, SPACES), SPACES)
  {
    if s == "" {
      assert s + b == b;
      TrimLeftDrops(b, "");
      assert b + "" == b;
    } else if s[0] in SPACES {
      assert (s + b)[1..] == s[1..] + b;
      TrimLeftBehind(s[1..], b);
    } else {
      TrimRightDrops(s, b);
    }
  }

  lemma {:induction false} TrimSpaceOfTrimmed(s: string)
    requires Trimmed(s)
    ensures TrimSpace(s) == s
  {}

  lemma {:induction false} AppendAssoc<T>(a: seq<T>, b: seq<T>, c: seq<T>)
    ensures (a + b) + c == a + (b + c)
  {}

  // ----- Lines

  /** Just past the first newline, or the end. */
  function LineEnd(s: string): (n: nat)
    requires s != ""
    ensures 0 < n <= |s|
    ensures '\n' !in s[..n - 1]
    ensures n < |s| ==> s[n - 1] == '\n'
  {
    if s[0] == '\n' || |s| == 1 then 1 else 1 + LineEnd(s[1..])
  }

  /** The lines of a text, each with its terminator. */
  function Lines(s: string): (ls: seq<string>)
    ensures s == "" <==> ls == []
  {
    if s == "" then [] else [s[..LineEnd(s)]] + Lines(s[LineEnd(s)..])
  }

  function Join(ls: seq<string>): (s: string)
  {
    if ls == [] then "" else ls[0] + Join(ls[1..])
  }

  predicate Terminated(s: string)
  {
    s == "" || s[|s| - 1] == '\n'
  }

  /** A single line with its terminator. */
  predicate IsLine(l: string)
  {
    l != "" && l[|l| - 1] == '\n' && '\n' !in l[..|l| - 1]
  }

  predicate AllLines(ls: seq<string>)
  {
    forall i :: 0 <= i < |ls| ==> IsLine(ls[i])
  }

  lemma {:induction false} JoinCons(l: string, ls: seq<string>)
    ensures Join([l] + ls) == l + Join(ls)
  {
    assert ([l] + ls)[1..] == ls;
  }

  lemma {:induction false} JoinLines(s: string)
    ensures Join(Lines(s)) == s
  {
    if s != "" {
      var n := LineEnd(s);
      JoinLines(s[n..]);
      JoinCons(s[..n], Lines(s[n..]));
    }
  }

  lemma {:induction false} JoinEnds(ls: seq<string>)
    requires AllLines(ls)
    ensures Terminated(Join(ls))
  {
    if ls != [] {
      JoinEnds(ls[1..]);
      assert IsLine(ls[0]);
    }
  }

  lemma {:induction false} JoinAppend(a: seq<string>, b: seq<string>)
    ensures Join(a + b) == Join(a) + Join(b)
  {
    if a == [] {
      assert a + b == b;
    } else {
      assert (a + b)[1..] == a[1..] + b;
      JoinAppend(a[1..], b);
    }
  }

  lemma {:induction false} LineEndOfLine(l: string, rest: string)
    requires IsLine(l)
    ensures LineEnd(l + rest) == |l|
  {
    if |l| > 1 {
      assert l[0] == l[..|l| - 1][0];
      assert l[1..][..|l| - 2] == l[..|l| - 1][1..];
      assert (l + rest)[1..] == l[1..] + rest;
      LineEndOfLine(l[1..], rest);
    }
  }

  lemma {:induction false} LinesOfLine(l: string, rest: string)
    requires IsLine(l)
    ensures Lines(l + rest) == [l] + Lines(rest)
  {
    LineEndOfLine(l, rest);
    assert (l + rest)[..|l|] == l && (l + rest)[|l|..] == rest;
  }

  lemma {:induction false} LinesOfLines(ls: seq<string>, rest: string)
    requires AllLines(ls)
    ensures Lines(Join(ls) + rest) == ls + Lines(rest)
  {
    if ls == [] {
      assert Join(ls) + rest == rest;
    } else {
      var l, tail := ls[0], ls[1..];
      assert ls == [l] + tail;
      AppendAssoc([l], tail, Lines(rest));
      AppendAssoc(l, Join(tail), rest);
      LinesOfLines(tail, rest);
      LinesOfLine(l, Join(tail) + rest);
    }
  }

  lemma {:induction false} LinesOfPartial(part: string)
    requires part != "" && '\n' !in part
    ensures Lines(part) == [part]
  {
    assert part[0] in part;
    if |part| > 1 {
      assert forall c :: c in part[1..] ==> c in part;
      LinesOfPartial(part[1..]);
      assert part[1..][..LineEnd(part[1..])] == part[1..];
    }
    assert part[..|part|] == part;
  }

  /** A text cut anywhere: some of its lines, then a proper part of the next. */
  lemma {:induction false} CutLines(ls: seq<string>, n: nat) returns (k: nat, part: string)
    requires AllLines(ls)
    requires n <= |Join(ls)|
    ensures k <= |ls| && (if k < |ls| then part < ls[k] else part == "")
    ensures Lines(Join(ls)[..n]) == ls[..k] + Part(part)
    ensures n == |Join(ls[..k])| + |part|
    decreases |ls|
  {
    if ls == [] {
      k, part := 0, "";
    } else if n < |ls[0]| {
      k, part := 0, ls[0][..n];
      CutInside(ls, n);
    } else {
      var l, tail := ls[0], ls[1..];
      var k', part' := CutLines(tail, n - |l|);
      k, part := 1 + k', part';
      assert ls == [l] + tail;
      CutStep(l, tail, n, k', part');
    }
  }

  lemma {:induction false} CutInside(ls: seq<string>, n: nat)
    requires ls != [] && IsLine(ls[0]) && n < |ls[0]|
    ensures n <= |Join(ls)| && Lines(Join(ls)[..n]) == Part(ls[0][..n])
    ensures |Join(ls[..0])| == 0
  {
    var l, part := ls[0], ls[0][..n];
    assert Join(ls)[..n] == part;
    if n > 0 {
      assert forall i :: 0 <= i < n ==> part[i] == l[..|l| - 1][i];
      assert '\n' !in part;
      LinesOfPartial(part);
    }
  }

  function Part(part: string): (ps: seq<string>)
  {
    if part == "" then [] else [part]
  }

  lemma {:induction false} CutStep(l: string, tail: seq<string>, n: nat, k: nat, part: string)
    requires IsLine(l) && |l| <= n <= |l| + |Join(tail)| && k <= |tail|
    requires Lines(Join(tail)[..n - |l|]) == tail[..k] + Part(part) && n - |l| == |Join(tail[..k])| + |part|
    ensures var ls := [l] + tail;
            n <= |Join(ls)| && Lines(Join(ls)[..n]) == ls[..k + 1] + Part(part) && n == |Join(ls[..k + 1])| + |part|
  {
    JoinCons(l, tail);
    JoinCons(l, tail[..k]);
    CutAfter(l, Join(tail), n);
    LinesOfLine(l, Join(tail)[..n - |l|]);
    assert ([l] + tail)[..k + 1] == [l] + tail[..k];
    AppendAssoc([l], tail[..k], Part(part));
  }

  lemma {:induction false} CutAfter(a: string, b: string, n: nat)
    requires |a| <= n <= |a| + |b|
    ensures (a + b)[..n] == a + b[..n - |a|]
  {}

  /** Splitting into lines distributes over appending to a terminated text. */
  lemma {:induction false} LinesAppend(a: string, b: string)
    requires Terminated(a)
    ensures Lines(a + b) == Lines(a) + Lines(b)
    decreases |a|
  {
    if a == "" {
      assert a + b == b;
    } else {
      var l, rest := FirstLine(a);
      LinesAppend(rest, b);
      LinesAppendStep(l, rest, b);
    }
  }

  lemma {:induction false} LinesAppendStep(l: string, rest: string, b: string)
    requires IsLine(l) && Lines(rest + b) == Lines(rest) + Lines(b)
    ensures Lines(l + rest + b) == Lines(l + rest) + Lines(b)
  {
    AppendAssoc(l, rest, b);
    LinesOfLine(l, rest);
    LinesOfLine(l, rest + b);
    AppendAssoc([l], Lines(rest), Lines(b));
  }

  lemma {:induction false} FirstLine(a: string) returns (l: string, rest: string)
    requires a != "" && Terminated(a)
    ensures IsLine(l) && Terminated(rest) && a == l + rest && |rest| < |a|
  {
    var n := LineEnd(a);
    l, rest := a[..n], a[n..];
    assert l[..n - 1] == a[..n - 1];
  }

  /** All lines but the last are terminated, and none holds an inner newline. */
  lemma {:induction false} LineShape(s: string, i: nat)
    requires i < |Lines(s)|
    ensures Lines(s)[i] != "" && '\n' !in Lines(s)[i][..|Lines(s)[i]| - 1]
    ensures i < |Lines(s)| - 1 || Terminated(s) ==> IsLine(Lines(s)[i])
  {
    var n := LineEnd(s);
    if i == 0 {
      assert s[..n][..n - 1] == s[..n - 1];
      if n == |s| && Terminated(s) { assert s[..n] == s; }
    } else {
      LineShape(s[n..], i - 1);
    }
  }

  /** The lines from the k-th on are the lines of the text they make up. */
  lemma {:induction false} LinesOfSuffix(s: string, k: nat)
    requires k <= |Lines(s)|
    ensures Lines(Join(Lines(s)[k..])) == Lines(s)[k..]
  {
    if k == 0 {
      JoinLines(s);
      assert Lines(s)[0..] == Lines(s);
    } else {
      LinesOfSuffix(s[LineEnd(s)..], k - 1);
      assert Lines(s)[k..] == Lines(s[LineEnd(s)..])[k - 1..];
    }
  }

  /** Terminating a text only changes its last line. */
  lemma {:induction false} LinesTerminated(s: string)
    requires !Terminated(s)
    ensures Lines(s) != []
    ensures Lines(s + "\n") == Lines(s)[..|Lines(s)| - 1] + [Lines(s)[|Lines(s)| - 1] + "\n"]
    decreases |s|
  {
    if LineEnd(s) == |s| {
      SingleLine(s);
      LinesOfLine(s + "\n", "");
      assert s + "\n" + "" == s + "\n";
    } else {
      var l, rest := SplitFirst(s);
      LinesTerminated(rest);
      LinesTerminatedStep(l, rest);
    }
  }

  lemma {:induction false} LinesTerminatedStep(l: string, rest: string)
    requires IsLine(l) && Lines(rest) != []
    requires Lines(rest + "\n") == Lines(rest)[..|Lines(rest)| - 1] + [Lines(rest)[|Lines(rest)| - 1] + "\n"]
    ensures var ls := Lines(l + rest);
            ls != [] && Lines(l + rest + "\n") == ls[..|ls| - 1] + [ls[|ls| - 1] + "\n"]
  {
    AppendAssoc(l, rest, "\n");
    LinesOfLine(l, rest);
    LinesOfLine(l, rest + "\n");
    LastOfMore(l, Lines(rest));
    AppendAssoc([l], Lines(rest)[..|Lines(rest)| - 1], [Lines(rest)[|Lines(rest)| - 1] + "\n"]);
  }

  lemma {:induction false} SingleLine(s: string)
    requires s != "" && LineEnd(s) == |s| && !Terminated(s)
    ensures Lines(s) == [s] && IsLine(s + "\n")
  {
    assert s[..|s|] == s && s[|s|..] == "";
    NoInnerNewline(s);
  }

  lemma {:induction false} NoInnerNewline(s: string)
    requires s != "" && '\n' !in s[..|s| - 1] && !Terminated(s)
    ensures IsLine(s + "\n")
  {
    assert s == s[..|s| - 1] + [s[|s| - 1]];
    assert (s + "\n")[..|s + "\n"| - 1] == s;
  }

  lemma {:induction false} SplitFirst(s: string) returns (l: string, rest: string)
    requires s != "" && LineEnd(s) < |s|
    ensures IsLine(l) && s == l + rest && rest != "" && |rest| < |s| && Terminated(rest) == Terminated(s)
  {
    var n := LineEnd(s);
    l, rest := s[..n], s[n..];
    assert l[..n - 1] == s[..n - 1];
  }

  lemma {:induction false} LastOfMore(l: string, ls: seq<string>)
    requires ls != []
    ensures var all := [l] + ls;
            all[|all| - 1] == ls[|ls| - 1] && all[..|all| - 1] == [l] + ls[..|ls| - 1]
  {}

  lemma {:induction false} LinesOfPieces(a: seq<string>, b: seq<string>, rest: string)
    requires AllLines(a) && AllLines(b)
    ensures Lines(Join(a) + Join(b) + rest) == a + b + Lines(rest)
  {
    AppendAssoc(Join(a), Join(b), rest);
    LinesOfLines(a, Join(b) + rest);
    LinesOfLines(b, rest);
    AppendAssoc(a, b, Lines(rest));
  }

  lemma {:induction false} JoinPieces(a: seq<string>, b: seq<string>, c: seq<string>)
    ensures Join(a + b + c) == Join(a) + Join(b) + Join(c)
  {
    JoinAppend(a + b, c);
    JoinAppend(a, b);
  }

  lemma {:induction false} TerminatedLines(s: string)
    requires Terminated(s)
    ensures AllLines(Lines(s))
  {
    forall i | 0 <= i < |Lines(s)| ensures IsLine(Lines(s)[i]) { LineShape(s, i); }
  }

  // ----- Numbers

  /** A number as %d prints it. */
  function Decimal(n: int): (s: string)
    ensures |s| > 0 && (n >= 10 ==> |s| > 1) && (0 <= n < 10 ==> |s| == 1)
    decreases if n < 0 then 1 - n else n
  {
    if n < 0 then "-" + Decimal(-n)
    else if n < 10 then [(n + '0' as int) as char]
    else Decimal(n / 10) + [(n % 10 + '0' as int) as char]
  }

  lemma {:induction false} DecimalInjective(m: nat, n: nat)
    requires Decimal(m) == Decimal(n)
    ensures m == n
  {
    var s := Decimal(m);
    assert s[|s| - 1] as int == m % 10 + '0' as int == n % 10 + '0' as int;
    if m >= 10 && n >= 10 {
      assert Decimal(m / 10) == s[..|s| - 1] == Decimal(n / 10);
      DecimalInjective(m / 10, n / 10);
    }
  }

  // ----- Case and repetition

  function LowerChar(c: char): (l: char)
  {
    if 'A' <= c <= 'Z' then (c as int + 32) as char else c
  }

  function ToLower(s: string): (l: string)
    ensures |l| == |s| && forall i :: 0 <= i < |s| ==> l[i] == LowerChar(s[i])
  {
    seq(|s|, i requires 0 <= i < |s| => LowerChar(s[i]))
  }

  predicate Distinct<T(==)>(s: seq<T>)
  {
    forall i, j :: 0 <= i < j < |s| ==> s[i] != s[j]
  }

  lemma {:induction false} SubsetSize<T>(s: set<T>, t: set<T>)
    requires s <= t
    ensures |s| <= |t|
  {
    assert t == s + (t - s);
  }
}
