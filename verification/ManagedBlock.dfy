/**
  Marker-delimited blocks in operator-owned config files
  (internal/runtime/managed_block.go): reading and rewriting one is a lens, and
  these are its laws.
 */
module ManagedBlock {
  import opened Text

  const CUT: set<char> := {'\r', '\n', ' ', '\t'}

  /** The lines around a block. */
  datatype Markers = Markers(begin: string, end: string)

  function BlockMarkers(name: string): (mk: Markers)
  {
    Markers("# BEGIN pgman-proxy managed: " + name, "# END pgman-proxy managed: " + name)
  }

  // ----- Finding the block

  datatype Mark = Begin | End | Plain

  function MarkOf(mk: Markers, part: string): (m: Mark)
  {
    var t := TrimRight(part, CUT);
    if t == mk.begin then Begin else if t == mk.end then End else Plain
  }

  function Marks(mk: Markers, parts: seq<string>): (ms: seq<Mark>)
    ensures |ms| == |parts| && forall i :: 0 <= i < |parts| ==> ms[i] == MarkOf(mk, parts[i])
  {
    seq(|parts|, i requires 0 <= i < |parts| => MarkOf(mk, parts[i]))
  }

  predicate AllPlain(ms: seq<Mark>)
  {
    forall i :: 0 <= i < |ms| ==> ms[i] == Plain
  }

  /** One begin, one end after it, and no other marker. */
  predicate BlockAt(ms: seq<Mark>, bi: nat, ei: nat)
  {
    && bi < ei < |ms| && ms[bi] == Begin && ms[ei] == End
    && forall i :: 0 <= i < |ms| && i != bi && i != ei ==> ms[i] == Plain
  }

  datatype Place = Malformed | Absent | Block(bi: nat, ei: nat)

  function IndexOf(ms: seq<Mark>, m: Mark): (i: nat)
    ensures i <= |ms| && (i < |ms| ==> ms[i] == m)
    ensures forall k :: 0 <= k < i ==> ms[k] != m
  {
    if ms == [] || ms[0] == m then 0 else 1 + IndexOf(ms[1..], m)
  }

  function Locate(ms: seq<Mark>): (p: Place)
    ensures p.Absent? <==> AllPlain(ms)
    ensures p.Block? ==> BlockAt(ms, p.bi, p.ei)
    ensures p.Malformed? <==> !AllPlain(ms) && forall bi: nat, ei: nat :: !BlockAt(ms, bi, ei)
  {
    var bi, ei := IndexOf(ms, Begin), IndexOf(ms, End);
    if bi == |ms| && ei == |ms| then Absent
    else if BlockAt(ms, bi, ei) then Block(bi, ei)
    else Malformed
  }

  lemma {:induction false} LocateBlock(ms: seq<Mark>, bi: nat, ei: nat)
    requires BlockAt(ms, bi, ei)
    ensures Locate(ms) == Block(bi, ei)
  {}

  /** The scan over the parts: two indices, and an error at the first marker that
      cannot be right. */
  method Scan(mk: Markers, parts: seq<string>) returns (p: Place)
    ensures p == Locate(Marks(mk, parts))
  {
    ghost var ms := Marks(mk, parts);
    var bi, ei := -1, -1;
    for i := 0 to |parts|
      invariant -1 <= bi < i && (bi >= 0 ==> ms[bi] == Begin) && forall k :: 0 <= k < i && k != bi ==> ms[k] != Begin
      invariant -1 <= ei < i && (ei >= 0 ==> ms[ei] == End) && forall k :: 0 <= k < i && k != ei ==> ms[k] != End
    {
      var m := MarkOf(mk, parts[i]);
      if m == Begin {
        if bi >= 0 { return Malformed; }
        bi := i;
      } else if m == End {
        if ei >= 0 { return Malformed; }
        ei := i;
      }
    }
    if (bi < 0) != (ei < 0) || (bi >= 0 && ei < bi) {
      return Malformed;
    }
    if bi < 0 { return Absent; }
    LocateBlock(ms, bi, ei);
    return Block(bi, ei);
  }

  // ----- Reading and rewriting

  function Body(parts: seq<string>): (lines: seq<string>)
    ensures |lines| == |parts| && forall i :: 0 <= i < |parts| ==> lines[i] == TrimRight(parts[i], NEWLINES)
  {
    seq(|parts|, i requires 0 <= i < |parts| => TrimRight(parts[i], NEWLINES))
  }

  /** What a file says under a name: nothing sensible, no block, or these lines. */
  datatype Reading = Garbled | Missing | Holds(lines: seq<string>)

  function Read(mk: Markers, content: string): (r: Reading)
  {
    var parts := Lines(content);
    match Locate(Marks(mk, parts))
    case Malformed => Garbled
    case Absent => Missing
    case Block(bi, ei) => Holds(Body(parts[bi + 1..ei]))
  }

  /** strings.Join(lines, "\n") */
  function JoinLf(lines: seq<string>): (s: string)
  {
    if lines == [] then "" else if |lines| == 1 then lines[0] else lines[0] + "\n" + JoinLf(lines[1..])
  }

  function BlockText(mk: Markers, lines: seq<string>): (s: string)
  {
    if lines == [] then "" else mk.begin + "\n" + JoinLf(lines) + "\n" + mk.end + "\n"
  }

  /** The text up to the block and the text after it. */
  function Before(mk: Markers, content: string): (s: string)
  {
    var place := Locate(Marks(mk, Lines(content)));
    if place.Block? then Join(Lines(content)[..place.bi])
    else if Terminated(content) then content else content + "\n"
  }

  function Behind(mk: Markers, content: string): (s: string)
  {
    var place := Locate(Marks(mk, Lines(content)));
    if place.Block? then Join(Lines(content)[place.ei + 1..]) else ""
  }

  datatype Action = Inserted | Updated | Removed | Unchanged

  datatype Result = Refused | Done(next: string, action: Action)

  /** The new content, from what the file says, what is around the block and the
      text of the new one. */
  function Compose(content: string, reading: Reading, before: string, block: string, behind: string,
    lines: seq<string>): (r: Result)
    ensures r.Refused? <==> reading.Garbled?
    ensures r.Done? && r.action == Unchanged ==> r.next == content
  {
    match reading
    case Garbled => Refused
    case Missing => if lines == [] then Done(content, Unchanged) else Done(before + block, Inserted)
    case Holds(current) =>
      if lines != [] && current == lines then Done(content, Unchanged)
      else Done(before + block + behind, if lines == [] then Removed else Updated)
  }

  /** What applyManagedBlock makes of a file's content. */
  function Apply(mk: Markers, content: string, lines: seq<string>): (r: Result)
    ensures r.Refused? <==> Read(mk, content).Garbled?
    ensures r.Done? && r.action == Unchanged ==> r.next == content
  {
    Compose(content, Read(mk, content), Before(mk, content), BlockText(mk, lines), Behind(mk, content), lines)
  }

  /** Each action if and only if, in terms of what the file held; a new block comes
      behind all there is. */
  lemma {:induction false} ActionMeaning(mk: Markers, content: string, lines: seq<string>)
    requires !Read(mk, content).Garbled?
    ensures var held, r := Read(mk, content), Apply(mk, content, lines);
            && (r.action == Inserted <==> held.Missing? && lines != [])
            && (r.action == Removed <==> held.Holds? && lines == [])
            && (r.action == Updated <==> held.Holds? && lines != [] && held.lines != lines)
            && (r.action == Unchanged <==> (held.Missing? && lines == []) || (held == Holds(lines) && lines != []))
            && (r.action == Inserted ==> content <= r.next)
  {
    if Read(mk, content).Missing? {
      NoBlockPieces(mk, content);
    }
  }

  class ConfFile {
    var content: string

    constructor (content: string)
      ensures this.content == content
    {
      this.content := content;
    }
  }

  lemma {:induction false} BlockPieces(mk: Markers, content: string, bi: nat, ei: nat)
    requires Locate(Marks(mk, Lines(content))) == Block(bi, ei)
    ensures Read(mk, content) == Holds(Body(Lines(content)[bi + 1..ei]))
    ensures Before(mk, content) == Join(Lines(content)[..bi]) && Behind(mk, content) == Join(Lines(content)[ei + 1..])
  {}

  lemma {:induction false} NoBlockPieces(mk: Markers, content: string)
    requires Locate(Marks(mk, Lines(content))).Absent?
    ensures Read(mk, content) == Missing
            && Before(mk, content) == if Terminated(content) then content else content + "\n"
    ensures Behind(mk, content) == ""
  {}

  /** The text part of applyManagedBlock: scan, compare, splice. */
  method Splice(mk: Markers, content: string, lines: seq<string>) returns (r: Result)
    ensures r == Apply(mk, content, lines)
  {
    var parts := Lines(content);
    var place := Scan(mk, parts);
    var block := BlockText(mk, lines);
    if place.Malformed? {
      return Refused;
    }
    if place.Absent? {
      NoBlockPieces(mk, content);
      r := Append(content, block, lines, Read(mk, content), Before(mk, content), Behind(mk, content));
      return;
    }
    BlockPieces(mk, content, place.bi, place.ei);
    var current := Body(parts[place.bi + 1..place.ei]);
    var before, behind := Join(parts[..place.bi]), Join(parts[place.ei + 1..]);
    r := Replace(content, block, lines, current, before, behind, Read(mk, content), Before(mk, content), Behind(mk, content));
  }

  method Append(content: string, block: string, lines: seq<string>, ghost reading: Reading, ghost before: string,
    ghost behind: string)
    returns (r: Result)
    requires reading.Missing? && before == if Terminated(content) then content else content + "\n"
    ensures r == Compose(content, reading, before, block, behind, lines)
  {
    if lines == [] {
      return Done(content, Unchanged);
    }
    var next := content;
    if next != "" && next[|next| - 1] != '\n' {
      next := next + "\n";
    }
    return Done(next + block, Inserted);
  }

  method Replace(content: string, block: string, lines: seq<string>, current: seq<string>, before: string,
    behind: string, ghost reading: Reading, ghost old': string, ghost rest: string)
    returns (r: Result)
    requires reading == Holds(current) && before == old' && behind == rest
    ensures r == Compose(content, reading, old', block, rest, lines)
  {
    if lines != [] && current == lines {
      return Done(content, Unchanged);
    }
    return Done(before + block + behind, if lines == [] then Removed else Updated);
  }

  /** The block goes into a file that can be read, has no broken markers and, unless it
      stays as it is, can be written. */
  predicate Applies(mk: Markers, content: string, lines: seq<string>, io: (bool, bool))
  {
    var r := Apply(mk, content, lines);
    io.0 && r.Done? && (r.action == Unchanged || io.1)
  }

  /** The block was put into the file, or the file is as it was. */
  predicate IsPutIf(done: bool, mk: Markers, content: string, lines: seq<string>, next: string)
  {
    if done then Apply(mk, content, lines).Done? && next == Put(mk, content, lines) else next == content
  }

  datatype Outcome = ReadFailed | MalformedMarkers | WriteFailed | Applied(action: Action)

  /** applyManagedBlock.  The write is one atomic rename: it happens or it does
      not, and unchanged content is not written.  Every error leaves the file as
      it was. */
  method ApplyManagedBlock(f: ConfFile, mk: Markers, lines: seq<string>, readable: bool, writable: bool)
    returns (outcome: Outcome)
    modifies f
    ensures !outcome.Applied? ==> f.content == old(f.content)
    ensures outcome.Applied? ==> Apply(mk, old(f.content), lines) == Done(f.content, outcome.action)
    ensures outcome.Applied? <==> Applies(mk, old(f.content), lines, (readable, writable))
    ensures IsPutIf(outcome.Applied?, mk, old(f.content), lines, f.content)
    ensures outcome.ReadFailed? <==> !readable
    ensures outcome.MalformedMarkers? <==> readable && Read(mk, old(f.content)).Garbled?
    ensures outcome.WriteFailed? <==>
            readable && !writable && Apply(mk, old(f.content), lines).Done? && Apply(mk, old(f.content), lines).action != Unchanged
  {
    if !readable {
      return ReadFailed;
    }
    var r := Splice(mk, f.content, lines);
    if r.Refused? {
      return MalformedMarkers;
    }
    if r.action == Unchanged {
      return Applied(Unchanged);
    }
    if !writable {
      return WriteFailed;
    }
    f.content := r.next;
    return Applied(r.action);
  }

  // ----- What lines a block can hold

  /** A marker that is recognised when it stands on a line of its own. */
  predicate GoodMarker(s: string)
  {
    |s| > 1 && '\n' !in s && s[|s| - 1] !in CUT
  }

  predicate GoodMarkers(mk: Markers)
  {
    GoodMarker(mk.begin) && GoodMarker(mk.end) && mk.begin != mk.end
  }

  /** One line, not ending in a carriage return, and not a marker. */
  predicate GoodLine(mk: Markers, l: string)
  {
    '\n' !in l && (l == "" || l[|l| - 1] != '\r') && MarkOf(mk, l) == Plain
  }

  predicate GoodLines(mk: Markers, lines: seq<string>)
  {
    forall i :: 0 <= i < |lines| ==> GoodLine(mk, lines[i])
  }

  lemma {:induction false} MarkIgnoresNewline(mk: Markers, l: string)
    ensures MarkOf(mk, l + "\n") == MarkOf(mk, l)
  {
    assert (l + "\n")[..|l|] == l;
  }

  lemma {:induction false} MarkerLine(s: string)
    requires GoodMarker(s)
    ensures IsLine(s + "\n") && TrimRight(s + "\n", CUT) == s
  {
    TrimRightKeeps(s, "\n", CUT);
    assert (s + "\n")[..|s|] == s;
  }

  lemma {:induction false} MarkersAreMarked(mk: Markers)
    requires GoodMarkers(mk)
    ensures IsLine(mk.begin + "\n") && IsLine(mk.end + "\n")
    ensures MarkOf(mk, mk.begin + "\n") == Begin
    ensures MarkOf(mk, mk.end + "\n") == End
  {
    MarkerLine(mk.begin);
    MarkerLine(mk.end);
  }

  function WithLf(lines: seq<string>): (parts: seq<string>)
    ensures |parts| == |lines| && forall i :: 0 <= i < |lines| ==> parts[i] == lines[i] + "\n"
  {
    seq(|lines|, i requires 0 <= i < |lines| => lines[i] + "\n")
  }

  function BlockLines(mk: Markers, lines: seq<string>): (parts: seq<string>)
  {
    [mk.begin + "\n"] + WithLf(lines) + [mk.end + "\n"]
  }

  lemma {:induction false} JoinWithLf(lines: seq<string>)
    requires lines != []
    ensures Join(WithLf(lines)) == JoinLf(lines) + "\n"
  {
    assert WithLf(lines)[1..] == WithLf(lines[1..]);
    if |lines| == 1 {
      assert WithLf(lines[1..]) == [];
    } else {
      JoinWithLf(lines[1..]);
      AppendAssoc(lines[0] + "\n", JoinLf(lines[1..]), "\n");
    }
  }

  lemma {:induction false} JoinOne(s: string)
    ensures Join([s]) == s
  {
    assert [s][1..] == [];
  }

  lemma {:induction false} BlockTextIsItsLines(mk: Markers, lines: seq<string>)
    requires lines != []
    ensures BlockText(mk, lines) == Join(BlockLines(mk, lines))
  {
    var b, e := mk.begin + "\n", mk.end + "\n";
    JoinAppend([b] + WithLf(lines), [e]);
    JoinAppend([b], WithLf(lines));
    JoinOne(b);
    JoinOne(e);
    JoinWithLf(lines);
    AppendAssoc(b, JoinLf(lines), "\n");
    AppendAssoc(b + JoinLf(lines) + "\n", mk.end, "\n");
  }

  lemma {:induction false} BlockLinesShape(mk: Markers, lines: seq<string>)
    requires GoodMarkers(mk) && GoodLines(mk, lines)
    ensures AllLines(BlockLines(mk, lines))
    ensures BlockAt(Marks(mk, BlockLines(mk, lines)), 0, |lines| + 1)
    ensures Body(WithLf(lines)) == lines
  {
    MarkersAreMarked(mk);
    forall i | 0 <= i < |lines|
      ensures IsLine(WithLf(lines)[i]) && MarkOf(mk, WithLf(lines)[i]) == Plain
              && TrimRight(WithLf(lines)[i], NEWLINES) == lines[i]
    {
      assert GoodLine(mk, lines[i]);
      MarkIgnoresNewline(mk, lines[i]);
      assert WithLf(lines)[i][..|lines[i]|] == lines[i];
      assert lines[i] != "" ==> lines[i][|lines[i]| - 1] in lines[i];
      TrimRightKeeps(lines[i], "\n", NEWLINES);
    }
  }

  // ----- Files around a block

  lemma {:induction false} MarksAppend(mk: Markers, a: seq<string>, b: seq<string>)
    ensures Marks(mk, a + b) == Marks(mk, a) + Marks(mk, b)
  {}

  /** A block between two plain texts is found exactly there. */
  lemma {:induction false} BlockBetween(a: seq<Mark>, block: seq<Mark>, b: seq<Mark>, ei: nat)
    requires AllPlain(a) && AllPlain(b) && |block| == ei + 1 && BlockAt(block, 0, ei)
    ensures BlockAt(a + block + b, |a|, |a| + ei)
  {}

  lemma {:induction false} LocateBetween(mk: Markers, a: seq<string>, block: seq<string>, b: seq<string>)
    requires AllPlain(Marks(mk, a)) && AllPlain(Marks(mk, b))
    requires |block| >= 2 && BlockAt(Marks(mk, block), 0, |block| - 1)
    ensures Locate(Marks(mk, a + block + b)) == Block(|a|, |a| + |block| - 1)
  {
    MarksAppend(mk, a + block, b);
    MarksAppend(mk, a, block);
    BlockBetween(Marks(mk, a), Marks(mk, block), Marks(mk, b), |block| - 1);
    LocateBlock(Marks(mk, a + block + b), |a|, |a| + |block| - 1);
  }

  lemma {:induction false} ReadPieces(mk: Markers, file: string, a: seq<string>, block: seq<string>, b: seq<string>)
    requires |block| >= 2 && Lines(file) == a + block + b
    requires Locate(Marks(mk, Lines(file))) == Block(|a|, |a| + |block| - 1)
    ensures Read(mk, file) == Holds(Body(block[1..|block| - 1]))
    ensures Before(mk, file) == Join(a) && Behind(mk, file) == Join(b)
  {
    SliceBlock(a, block, b);
  }

  lemma {:induction false} SliceBlock(a: seq<string>, block: seq<string>, b: seq<string>)
    requires |block| >= 2
    ensures var all := a + block + b;
            && all[..|a|] == a && all[|a| + |block|..] == b
            && all[|a| + 1..|a| + |block| - 1] == block[1..|block| - 1]
  {}

  /** A file with good lines between two plain texts reads back as just that. */
  lemma {:induction false} ReadBack(mk: Markers, a: seq<string>, lines: seq<string>, rest: string)
    requires GoodMarkers(mk) && GoodLines(mk, lines) && lines != []
    requires AllLines(a) && AllPlain(Marks(mk, a)) && AllPlain(Marks(mk, Lines(rest)))
    ensures var file := Join(a) + BlockText(mk, lines) + rest;
            Read(mk, file) == Holds(lines) && Before(mk, file) == Join(a) && Behind(mk, file) == rest
  {
    var block := BlockLines(mk, lines);
    BlockLinesShape(mk, lines);
    BlockTextIsItsLines(mk, lines);
    LinesOfPieces(a, block, rest);
    LocateBetween(mk, a, block, Lines(rest));
    ReadPieces(mk, Join(a) + Join(block) + rest, a, block, Lines(rest));
    MiddleOfBlock(mk, lines);
    JoinLines(rest);
  }

  lemma {:induction false} MiddleOfBlock(mk: Markers, lines: seq<string>)
    ensures |BlockLines(mk, lines)| == |lines| + 2 && BlockLines(mk, lines)[1..|lines| + 1] == WithLf(lines)
  {}

  /** And with no block between them, nothing is found. */
  lemma {:induction false} FileWithoutBlock(mk: Markers, a: seq<string>, rest: string)
    requires AllLines(a) && AllPlain(Marks(mk, a)) && AllPlain(Marks(mk, Lines(rest)))
    ensures Read(mk, Join(a) + rest) == Missing
  {
    LinesOfLines(a, rest);
    MarksAppend(mk, a, Lines(rest));
  }

  /** The texts around the block, or around where it would go, are plain. */
  lemma {:induction false} Surroundings(mk: Markers, content: string) returns (a: seq<string>)
    requires !Read(mk, content).Garbled?
    ensures AllLines(a) && AllPlain(Marks(mk, a)) && Join(a) == Before(mk, content)
    ensures AllPlain(Marks(mk, Lines(Behind(mk, content))))
  {
    var place := Locate(Marks(mk, Lines(content)));
    if place.Absent? {
      NoBlockPieces(mk, content);
      a := PlainFile(mk, content);
      NothingBehind(mk);
    } else {
      a := AroundBlock(mk, content, place.bi, place.ei, Before(mk, content), Behind(mk, content));
    }
  }

  lemma {:induction false} AroundBlock(mk: Markers, content: string, bi: nat, ei: nat, before: string, behind: string)
    returns (a: seq<string>)
    requires Locate(Marks(mk, Lines(content))) == Block(bi, ei)
    requires before == Join(Lines(content)[..bi]) && behind == Join(Lines(content)[ei + 1..])
    ensures AllLines(a) && AllPlain(Marks(mk, a)) && Join(a) == before && AllPlain(Marks(mk, Lines(behind)))
  {
    a := Lines(content)[..bi];
    LinesBefore(content, bi);
    PlainAround(mk, Lines(content), bi, ei);
    PlainBehind(mk, content, bi, ei, behind);
  }

  lemma {:induction false} NothingBehind(mk: Markers)
    ensures AllPlain(Marks(mk, Lines("")))
  {}

  lemma {:induction false} PlainAround(mk: Markers, parts: seq<string>, bi: nat, ei: nat)
    requires Locate(Marks(mk, parts)) == Block(bi, ei)
    ensures AllPlain(Marks(mk, parts[..bi])) && AllPlain(Marks(mk, parts[ei + 1..]))
  {
    var ms, after := Marks(mk, parts), Marks(mk, parts[ei + 1..]);
    assert forall i :: 0 <= i < bi ==> Marks(mk, parts[..bi])[i] == ms[i];
    assert forall i :: 0 <= i < |after| ==> after[i] == ms[ei + 1 + i];
  }

  lemma {:induction false} PlainBehind(mk: Markers, content: string, bi: nat, ei: nat, behind: string)
    requires Locate(Marks(mk, Lines(content))) == Block(bi, ei) && behind == Join(Lines(content)[ei + 1..])
    ensures AllPlain(Marks(mk, Lines(behind)))
  {
    LinesOfSuffix(content, ei + 1);
    PlainAround(mk, Lines(content), bi, ei);
  }

  lemma {:induction false} LinesBefore(content: string, k: nat)
    requires k < |Lines(content)|
    ensures AllLines(Lines(content)[..k])
  {
    forall i | 0 <= i < k ensures IsLine(Lines(content)[i]) { LineShape(content, i); }
  }

  lemma {:induction false} PlainFile(mk: Markers, content: string) returns (a: seq<string>)
    requires AllPlain(Marks(mk, Lines(content)))
    ensures AllLines(a) && AllPlain(Marks(mk, a)) && Join(a) == if Terminated(content) then content else content + "\n"
  {
    var file := if Terminated(content) then content else content + "\n";
    a := Lines(file);
    JoinLines(file);
    TerminatedLines(file);
    if !Terminated(content) {
      StillPlain(mk, content);
    }
  }

  lemma {:induction false} StillPlain(mk: Markers, content: string)
    requires AllPlain(Marks(mk, Lines(content))) && !Terminated(content)
    ensures AllPlain(Marks(mk, Lines(content + "\n")))
  {
    var parts := Lines(content);
    LinesTerminated(content);
    MarkIgnoresNewline(mk, parts[|parts| - 1]);
  }

  /** Every byte outside the markers survives: the file is the text before, what
      is at the block's place, and the text behind. */
  lemma {:induction false} FileIsItsPieces(mk: Markers, content: string)
    requires Read(mk, content).Holds?
    ensures var place := Locate(Marks(mk, Lines(content)));
            content == Before(mk, content) + Join(Lines(content)[place.bi..place.ei + 1]) + Behind(mk, content)
  {
    var place := Locate(Marks(mk, Lines(content)));
    JoinLines(content);
    ThreePieces(Lines(content), place.bi, place.ei + 1);
    JoinPieces(Lines(content)[..place.bi], Lines(content)[place.bi..place.ei + 1], Lines(content)[place.ei + 1..]);
  }

  lemma {:induction false} ThreePieces<T>(s: seq<T>, i: nat, j: nat)
    requires i <= j <= |s|
    ensures s == s[..i] + s[i..j] + s[j..]
  {}

  // ----- The laws

  /** The content after applying, for a file that is not malformed. */
  function Put(mk: Markers, content: string, lines: seq<string>): (next: string)
    requires !Read(mk, content).Garbled?
  {
    Apply(mk, content, lines).next
  }

  /** Whatever is read from a block is lines a block can hold. */
  lemma {:induction false} ReadYieldsGoodLines(mk: Markers, content: string)
    requires Read(mk, content).Holds?
    ensures GoodLines(mk, Read(mk, content).lines)
  {
    var place := Locate(Marks(mk, Lines(content)));
    BlockPieces(mk, content, place.bi, place.ei);
    BodyIsGood(mk, content, Lines(content), place.bi, place.ei);
  }

  lemma {:induction false} BodyIsGood(mk: Markers, content: string, parts: seq<string>, bi: nat, ei: nat)
    requires parts == Lines(content) && BlockAt(Marks(mk, parts), bi, ei)
    ensures GoodLines(mk, Body(parts[bi + 1..ei]))
  {
    var ms, body := Marks(mk, parts), parts[bi + 1..ei];
    forall i | 0 <= i < |body| ensures GoodLine(mk, Body(body)[i]) {
      var k := bi + 1 + i;
      assert body[i] == parts[k] && ms[k] == Plain;
      LineShape(content, k);
      TrimmedPartIsGood(mk, body[i]);
    }
  }

  lemma {:induction false} TrimmedPartIsGood(mk: Markers, part: string)
    requires part != "" && '\n' !in part[..|part| - 1] && MarkOf(mk, part) == Plain
    ensures GoodLine(mk, TrimRight(part, NEWLINES))
  {
    var l := TrimRight(part, NEWLINES);
    forall i | 0 <= i < |l| ensures l[i] != '\n' {
      if i < |part| - 1 { assert part[i] == part[..|part| - 1][i]; }
    }
    TrimAgain(part, NEWLINES, CUT);
  }

  /** Trimming less first makes no difference. */
  lemma {:induction false} TrimAgain(s: string, less: set<char>, more: set<char>)
    requires less <= more
    ensures TrimRight(TrimRight(s, less), more) == TrimRight(s, more)
  {
    if s != "" && s[|s| - 1] in less {
      TrimAgain(s[..|s| - 1], less, more);
    }
  }

  /** After applying, the block reads back as the lines exactly when they are
      lines a block can hold: no newline, no final carriage return, no marker. */
  lemma {:induction false} PutThenGet(mk: Markers, content: string, lines: seq<string>)
    requires GoodMarkers(mk) && !Read(mk, content).Garbled? && lines != []
    ensures Read(mk, Put(mk, content, lines)) == Holds(lines) <==> GoodLines(mk, lines)
  {
    if GoodLines(mk, lines) {
      var a := Surroundings(mk, content);
      ReadBack(mk, a, lines, Behind(mk, content));
      InsertedAtEnd(mk, content, lines);
    }
    if Read(mk, Put(mk, content, lines)) == Holds(lines) {
      ReadYieldsGoodLines(mk, Put(mk, content, lines));
    }
  }

  lemma {:induction false} InsertedAtEnd(mk: Markers, content: string, lines: seq<string>)
    requires !Read(mk, content).Garbled? && lines != []
    ensures Put(mk, content, lines) ==
            if Read(mk, content) == Holds(lines) then content
            else Before(mk, content) + BlockText(mk, lines) + Behind(mk, content)
  {
    if Read(mk, content).Missing? {
      assert Before(mk, content) + BlockText(mk, lines) + "" == Before(mk, content) + BlockText(mk, lines);
    }
  }

  /** After removing, there is no block. */
  lemma {:induction false} RemoveThenGet(mk: Markers, content: string)
    requires !Read(mk, content).Garbled?
    ensures Read(mk, Put(mk, content, [])) == Missing
  {
    if Read(mk, content).Holds? {
      var a := Surroundings(mk, content);
      FileWithoutBlock(mk, a, Behind(mk, content));
      EmptyBetween(Before(mk, content), Behind(mk, content));
    }
  }

  lemma {:induction false} EmptyBetween(a: string, b: string)
    ensures a + "" + b == a + b
  {}

  /** Applying the same lines again changes nothing. */
  lemma {:induction false} PutIsIdempotent(mk: Markers, content: string, lines: seq<string>)
    requires GoodMarkers(mk) && !Read(mk, content).Garbled? && GoodLines(mk, lines)
    ensures !Read(mk, Put(mk, content, lines)).Garbled?
    ensures Apply(mk, Put(mk, content, lines), lines) == Done(Put(mk, content, lines), Unchanged)
  {
    if lines == [] {
      RemoveThenGet(mk, content);
    } else {
      PutThenGet(mk, content, lines);
    }
  }

  /** The surroundings of the block stay what they are under a rewrite. */
  lemma {:induction false} PutKeepsSurroundings(mk: Markers, content: string, lines: seq<string>)
    requires GoodMarkers(mk) && !Read(mk, content).Garbled? && GoodLines(mk, lines) && lines != []
    ensures !Read(mk, Put(mk, content, lines)).Garbled?
    ensures Before(mk, Put(mk, content, lines)) == Before(mk, content)
    ensures Behind(mk, Put(mk, content, lines)) == Behind(mk, content)
  {
    PutThenGet(mk, content, lines);
    InsertedAtEnd(mk, content, lines);
    if Read(mk, content) != Holds(lines) {
      var a := Surroundings(mk, content);
      ReadBack(mk, a, lines, Behind(mk, content));
    }
  }

  /** The block in the file is spelled exactly as applying its lines would. */
  predicate Canonical(mk: Markers, content: string, lines: seq<string>)
  {
    content == Before(mk, content) + BlockText(mk, lines) + Behind(mk, content)
  }

  /** A second non-empty apply overrides the first, except in one case: the file
      already held the second lines in another spelling, which applying them
      directly would have left alone and going through other lines does not. */
  lemma {:induction false} PutPut(mk: Markers, content: string, first: seq<string>, second: seq<string>)
    requires GoodMarkers(mk) && !Read(mk, content).Garbled?
    requires GoodLines(mk, first) && first != [] && GoodLines(mk, second) && second != []
    ensures !Read(mk, Put(mk, content, first)).Garbled?
    ensures Put(mk, Put(mk, content, first), second) == Put(mk, content, second) <==>
            !(Read(mk, content) == Holds(second) && first != second && !Canonical(mk, content, second))
  {
    var once := Put(mk, content, first);
    PutThenGet(mk, content, first);
    PutKeepsSurroundings(mk, content, first);
    InsertedAtEnd(mk, content, first);
    InsertedAtEnd(mk, content, second);
    InsertedAtEnd(mk, once, second);
  }

  /** That case exists: a body saved with a carriage return. */
  lemma {:induction false} PutPutCanFail(mk: Markers)
    requires GoodMarkers(mk)
    ensures exists content: string ::
              && !Read(mk, content).Garbled? && !Read(mk, Put(mk, content, ["b"])).Garbled?
              && Put(mk, Put(mk, content, ["b"]), ["a"]) != Put(mk, content, ["a"])
  {
    var block := [mk.begin + "\n", "a\r\n", mk.end + "\n"];
    var content := Join(block);
    SavedWithCarriageReturn(mk, block);
    ShortLinesAreGood(mk);
    PutPut(mk, content, ["b"], ["a"]);
  }

  lemma {:induction false} ShortLinesAreGood(mk: Markers)
    requires GoodMarkers(mk)
    ensures GoodLines(mk, ["a"]) && GoodLines(mk, ["b"])
  {
    assert TrimRight("a", CUT) == "a" && TrimRight("b", CUT) == "b";
  }

  lemma {:induction false} SavedWithCarriageReturn(mk: Markers, block: seq<string>)
    requires GoodMarkers(mk)
    requires block == [mk.begin + "\n", "a\r\n", mk.end + "\n"]
    ensures Read(mk, Join(block)) == Holds(["a"]) && !Canonical(mk, Join(block), ["a"])
  {
    MarkersAreMarked(mk);
    CarriageReturnLine(mk);
    OneLineBlock(mk, block, Join(block));
    LengthOfBlock(mk, block);
  }

  lemma {:induction false} CarriageReturnLine(mk: Markers)
    requires GoodMarkers(mk)
    ensures IsLine("a\r\n") && MarkOf(mk, "a\r\n") == Plain && TrimRight("a\r\n", NEWLINES) == "a"
  {
    TrimRightKeeps("a", "\r\n", CUT);
    TrimRightKeeps("a", "\r\n", NEWLINES);
    assert "a" + "\r\n" == "a\r\n";
  }

  lemma {:induction false} OneLineBlock(mk: Markers, block: seq<string>, file: string)
    requires |block| == 3 && AllLines(block) && file == Join(block)
    requires MarkOf(mk, block[0]) == Begin && MarkOf(mk, block[1]) == Plain && MarkOf(mk, block[2]) == End
    ensures Read(mk, file) == Holds([TrimRight(block[1], NEWLINES)]) && Before(mk, file) == "" && Behind(mk, file) == ""
  {
    LinesOfAll(block);
    assert [] + block + [] == block;
    assert BlockAt(Marks(mk, block), 0, 2);
    LocateBlock(Marks(mk, block), 0, 2);
    ReadPieces(mk, file, [], block, []);
    BodyOfOne(block);
  }

  lemma {:induction false} BodyOfOne(block: seq<string>)
    requires |block| == 3
    ensures Body(block[1..2]) == [TrimRight(block[1], NEWLINES)]
  {
    assert block[1..2] == [block[1]];
  }

  lemma {:induction false} LinesOfAll(ls: seq<string>)
    requires AllLines(ls)
    ensures Lines(Join(ls)) == ls
  {
    LinesOfLines(ls, "");
    assert Join(ls) + "" == Join(ls) && ls + [] == ls;
  }

  /** The canonical spelling is one character shorter. */
  lemma {:induction false} LengthOfBlock(mk: Markers, block: seq<string>)
    requires block == [mk.begin + "\n", "a\r\n", mk.end + "\n"]
    ensures |Join(block)| == |BlockText(mk, ["a"])| + 1
  {
    JoinPieces([block[0]], [block[1]], [block[2]]);
    assert block == [block[0]] + [block[1]] + [block[2]];
    JoinOne(block[0]);
    JoinOne(block[1]);
    JoinOne(block[2]);
  }

  /** Inserting and then removing restores the file up to one final newline. */
  lemma {:induction false} InsertThenRemove(mk: Markers, content: string, lines: seq<string>)
    requires GoodMarkers(mk) && Read(mk, content).Missing? && GoodLines(mk, lines) && lines != []
    ensures !Read(mk, Put(mk, content, lines)).Garbled?
    ensures Put(mk, Put(mk, content, lines), []) == if Terminated(content) then content else content + "\n"
  {
    PutThenGet(mk, content, lines);
    PutKeepsSurroundings(mk, content, lines);
    RemovedText(Before(mk, content));
  }

  lemma {:induction false} RemovedText(s: string)
    ensures s + "" + "" == s
  {}

  // ----- The two files

  const CONF_BLOCK := "postgres.conf_extras"
  const HBA_BLOCK := "postgres.hba_extras"

  /** Names whose markers can be recognised. */
  predicate GoodName(name: string)
  {
    name != "" && '\n' !in name && name[|name| - 1] !in CUT
  }

  lemma {:induction false} GoodNamesMakeGoodMarkers(name: string)
    requires GoodName(name)
    ensures GoodMarkers(BlockMarkers(name))
  {
    GoodPrefix("# BEGIN pgman-proxy managed: ", name);
    GoodPrefix("# END pgman-proxy managed: ", name);
    assert BlockMarkers(name).begin[2] == 'B' && BlockMarkers(name).end[2] == 'E';
  }

  lemma {:induction false} GoodPrefix(prefix: string, name: string)
    requires GoodName(name) && |prefix| > 1 && '\n' !in prefix
    ensures GoodMarker(prefix + name)
  {
    var s := prefix + name;
    assert s[|s| - 1] == name[|name| - 1];
  }

  /** The laws hold for the two names in use. */
  lemma {:induction false} BothNamesAreGood()
    ensures GoodMarkers(BlockMarkers(CONF_BLOCK)) && GoodMarkers(BlockMarkers(HBA_BLOCK))
  {
    assert CONF_BLOCK[|CONF_BLOCK| - 1] == 's' && HBA_BLOCK[|HBA_BLOCK| - 1] == 's';
    GoodNamesMakeGoodMarkers(CONF_BLOCK);
    GoodNamesMakeGoodMarkers(HBA_BLOCK);
  }

  /** The entry of the change list for a block. */
  function ChangeOf(name: string, content: string, lines: seq<string>): (c: seq<(string, Action)>)
  {
    var r := Apply(BlockMarkers(name), content, lines);
    if r.Done? && r.action != Unchanged then [(name, r.action)] else []
  }

  /** applyManagedConf: postgresql.conf, then pg_hba.conf.  It succeeds exactly when the
      block goes into both; an error in the first stops before the second, an error in
      the second leaves the first applied.  The changes list names exactly the files
      whose block changed. */
  method ApplyManagedConf(conf: ConfFile, hba: ConfFile, confLines: seq<string>, hbaLines: seq<string>,
                          io: (bool, bool), hbaIo: (bool, bool)) returns (ok: bool, changes: seq<(string, Action)>)
    requires conf != hba
    modifies conf, hba
    ensures var first := Applies(BlockMarkers(CONF_BLOCK), old(conf.content), confLines, io);
            var second := Applies(BlockMarkers(HBA_BLOCK), old(hba.content), hbaLines, hbaIo);
            && (ok <==> first && second)
            && IsPutIf(first, BlockMarkers(CONF_BLOCK), old(conf.content), confLines, conf.content)
            && IsPutIf(first && second, BlockMarkers(HBA_BLOCK), old(hba.content), hbaLines, hba.content)
            && changes == (if first then ChangeOf(CONF_BLOCK, old(conf.content), confLines) else [])
                          + if ok then ChangeOf(HBA_BLOCK, old(hba.content), hbaLines) else []
  {
    ok, changes := ApplyBoth(conf, hba, CONF_BLOCK, HBA_BLOCK, confLines, hbaLines, io, hbaIo);
  }

  method ApplyBoth(conf: ConfFile, hba: ConfFile, confName: string, hbaName: string, confLines: seq<string>,
    hbaLines: seq<string>, io: (bool, bool), hbaIo: (bool, bool))
    returns (ok: bool, changes: seq<(string, Action)>)
    requires conf != hba
    modifies conf, hba
    ensures var first := Applies(BlockMarkers(confName), old(conf.content), confLines, io);
            var second := Applies(BlockMarkers(hbaName), old(hba.content), hbaLines, hbaIo);
            && (ok <==> first && second)
            && IsPutIf(first, BlockMarkers(confName), old(conf.content), confLines, conf.content)
            && IsPutIf(first && second, BlockMarkers(hbaName), old(hba.content), hbaLines, hba.content)
            && changes == (if first then ChangeOf(confName, old(conf.content), confLines) else [])
                          + if ok then ChangeOf(hbaName, old(hba.content), hbaLines) else []
  {
    ok, changes := PutBlock(conf, confName, confLines, io);
    if !ok {
      return;
    }
    var more;
    ok, more := PutBlock(hba, hbaName, hbaLines, hbaIo);
    changes := changes + more;
  }

  /** One file and its entry in the change list. */
  method PutBlock(f: ConfFile, name: string, lines: seq<string>, io: (bool, bool))
    returns (ok: bool, changes: seq<(string, Action)>)
    modifies f
    ensures ok <==> Applies(BlockMarkers(name), old(f.content), lines, io)
    ensures IsPutIf(ok, BlockMarkers(name), old(f.content), lines, f.content)
    ensures changes == if ok then ChangeOf(name, old(f.content), lines) else []
  {
    var outcome := ApplyManagedBlock(f, BlockMarkers(name), lines, io.0, io.1);
    ok, changes := outcome.Applied?, [];
    if ok && outcome.action != Unchanged {
      changes := [(name, outcome.action)];
    }
  }
}
